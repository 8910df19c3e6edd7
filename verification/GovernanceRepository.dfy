/** Acknowledgements and amendments, as transactions on the shared database. */
module GovernanceRepository {
  import opened Wrappers
  import opened TextTrim
  import opened LedgerTables
  import opened LedgerDatabase
  import opened GovernanceSteps

  datatype Acknowledgement = Acknowledgement(ack: Id, report: Id, version: nat, acked: bool, status: ShiftStatus)

  datatype Applied = Applied(amendment: Id, base: Id, report: Id, version: nat)

  // ----- A refused prefix refuses the whole -----

  lemma {:induction false} ItemsStayRefused(c: Children, items: seq<Item>, k: nat)
    requires k <= |items| && ItemsError(c, items[..k]).Some?
    ensures ItemsError(c, items) == ItemsError(c, items[..k])
  {
    hide ItemError;
    if k < |items| {
      assert items[..|items| - 1][..k] == items[..k];
      ItemsStayRefused(c, items[..|items| - 1], k);
    } else {
      assert items[..k] == items;
    }
  }

  lemma {:induction false} SaleStaysRefused(sale: Sale, items: seq<Item>, k: nat)
    requires k <= |items| && AmendedSale(sale, items[..k]).Failure?
    ensures AmendedSale(sale, items) == AmendedSale(sale, items[..k])
  {
    hide SaleWithItem;
    if k < |items| {
      assert items[..|items| - 1][..k] == items[..k];
      SaleStaysRefused(sale, items[..|items| - 1], k);
    } else {
      assert items[..k] == items;
    }
  }

  lemma {:induction false} LossStaysRefused(loss: Loss, items: seq<Item>, k: nat)
    requires k <= |items| && AmendedLoss(loss, items[..k]).Failure?
    ensures AmendedLoss(loss, items) == AmendedLoss(loss, items[..k])
  {
    hide LossWithItem;
    if k < |items| {
      assert items[..|items| - 1][..k] == items[..k];
      LossStaysRefused(loss, items[..|items| - 1], k);
    } else {
      assert items[..k] == items;
    }
  }

  lemma {:induction false} SalesStayRefused(sales: seq<Sale>, items: seq<Item>, firstId: Id, k: nat)
    requires k <= |sales| && CopiedSales(sales[..k], items, firstId).Failure?
    ensures CopiedSales(sales, items, firstId) == CopiedSales(sales[..k], items, firstId)
  {
    hide AmendedSale, SaleFits;
    if k < |sales| {
      assert sales[..|sales| - 1][..k] == sales[..k];
      SalesStayRefused(sales[..|sales| - 1], items, firstId, k);
    } else {
      assert sales[..k] == sales;
    }
  }

  lemma {:induction false} LossesStayRefused(losses: seq<Loss>, items: seq<Item>, version: nat, firstId: Id, k: nat)
    requires k <= |losses| && CopiedLosses(losses[..k], items, version, firstId).Failure?
    ensures CopiedLosses(losses, items, version, firstId) == CopiedLosses(losses[..k], items, version, firstId)
  {
    hide AmendedLoss, LossFits;
    if k < |losses| {
      assert losses[..|losses| - 1][..k] == losses[..k];
      LossesStayRefused(losses[..|losses| - 1], items, version, firstId, k);
    } else {
      assert losses[..k] == losses;
    }
  }

  // ----- Items, one by one -----

  /** Checks every item against the base report, in order. */
  method ValidateAmendmentItems(c: Children, items: seq<Item>) returns (error: Option<Error>)
    ensures error == ItemsError(c, items)
  {
    for i := 0 to |items|
      invariant ItemsError(c, items[..i]).None?
    {
      assert items[..i + 1][..i] == items[..i];
      var item := items[i];
      error := ItemError(c, item);
      if error.Some? {
        ItemsStayRefused(c, items, i + 1);
        return;
      }
    }
    assert items[..|items|] == items;
    error := None;
  }

  /** Applies the items that name a sale to a copy of it, one after the other. */
  method AmendSale(row: Sale, items: seq<Item>) returns (r: Result<Sale, Error>)
    ensures r == AmendedSale(row, items)
  {
    var sale := row;
    for j := 0 to |items|
      invariant AmendedSale(row, items[..j]) == Success(sale)
    {
      assert items[..j + 1][..j] == items[..j];
      var item := items[j];
      if item.kind != SalesDeclared || item.target != row.id {
        continue;
      }
      var value := AmendmentDecimalValue(item.newValue);
      if value.None? {
        SaleStaysRefused(row, items, j + 1);
        return Failure(AmendmentFieldForbidden);
      }
      if item.field == CashAmount {
        sale := sale.(cash := value.value);
      } else if item.field == CashlessAmount {
        sale := sale.(cashless := value.value);
      }
    }
    assert items[..|items|] == items;
    return Success(sale);
  }

  method AmendLoss(row: Loss, items: seq<Item>) returns (r: Result<Loss, Error>)
    ensures r == AmendedLoss(row, items)
  {
    var loss := row;
    for j := 0 to |items|
      invariant AmendedLoss(row, items[..j]) == Success(loss)
    {
      assert items[..j + 1][..j] == items[..j];
      var item := items[j];
      if item.kind != LossEntry || item.target != row.id {
        continue;
      }
      if item.field == Liters || item.field == CashAmount {
        var value := AmendmentDecimalValue(item.newValue);
        if value.None? {
          LossStaysRefused(row, items, j + 1);
          return Failure(AmendmentFieldForbidden);
        }
        loss := if item.field == Liters then loss.(liters := value.value) else loss.(cash := Some(value.value));
      } else if item.field == Note {
        if item.newValue.Raw? {
          LossStaysRefused(row, items, j + 1);
          return Failure(AmendmentFieldForbidden);
        }
        loss := loss.(note := if item.newValue.Null? then None else Some(item.newValue.text));
      }
    }
    assert items[..|items|] == items;
    return Success(loss);
  }

  method CopyAmendedSales(rows: seq<Sale>, items: seq<Item>, firstId: Id) returns (r: Result<seq<Sale>, Error>)
    ensures r == CopiedSales(rows, items, firstId)
  {
    hide AmendedSale, SaleFits;
    var copies: seq<Sale> := [];
    for i := 0 to |rows|
      invariant CopiedSales(rows[..i], items, firstId) == Success(copies)
    {
      assert rows[..i + 1][..i] == rows[..i];
      var sale := AmendSale(rows[i], items);
      if sale.Failure? {
        SalesStayRefused(rows, items, firstId, i + 1);
        return Failure(sale.error);
      }
      if !SaleFits(sale.value) {
        SalesStayRefused(rows, items, firstId, i + 1);
        return Failure(ConstraintViolation);
      }
      copies := copies + [sale.value.(id := firstId + i)];
    }
    assert rows[..|rows|] == rows;
    return Success(copies);
  }

  method CopyAmendedLosses(rows: seq<Loss>, items: seq<Item>, version: nat, firstId: Id) returns (r: Result<seq<Loss>, Error>)
    ensures r == CopiedLosses(rows, items, version, firstId)
  {
    hide AmendedLoss, LossFits;
    var copies: seq<Loss> := [];
    for i := 0 to |rows|
      invariant CopiedLosses(rows[..i], items, version, firstId) == Success(copies)
    {
      assert rows[..i + 1][..i] == rows[..i];
      var loss := AmendLoss(rows[i], items);
      if loss.Failure? {
        LossesStayRefused(rows, items, version, firstId, i + 1);
        return Failure(loss.error);
      }
      if !LossFits(loss.value) {
        LossesStayRefused(rows, items, version, firstId, i + 1);
        return Failure(ConstraintViolation);
      }
      copies := copies + [loss.value.(id := firstId + i, version := version)];
    }
    assert rows[..|rows|] == rows;
    return Success(copies);
  }

  /** Copies the base's readings, sales and losses into the next version, row by row. */
  method CopyAmendedReportChildren(base: Children, items: seq<Item>, version: nat, firstId: Id)
    returns (r: Result<Children, Error>)
    ensures r == CopiedChildren(base, items, version, firstId)
  {
    var nextId := firstId;
    var readings: seq<Reading> := [];
    for i := 0 to |base.readings|
      invariant nextId == firstId + i && readings == CopiedReadings(base.readings, firstId)[..i]
    {
      readings := readings + [base.readings[i].(id := nextId)];
      nextId := nextId + 1;
    }
    assert readings == CopiedReadings(base.readings, firstId);
    var sales := CopyAmendedSales(base.sales, items, nextId);
    if sales.Failure? {
      return Failure(sales.error);
    }
    nextId := nextId + |base.sales|;
    var losses := CopyAmendedLosses(base.losses, items, version, nextId);
    if losses.Failure? {
      return Failure(losses.error);
    }
    return Success(Children(readings, sales.value, losses.value, []));
  }

  // ----- The repository -----

  class Governance {
    const db: Database
    const hash: SnapshotHash

    constructor (db: Database, hash: SnapshotHash)
      ensures this.db == db && this.hash == hash
    {
      this.db := db;
      this.hash := hash;
    }

    /** Records one decision and advances the shift. */
    method Acknowledge(q: AckRequest, now: Time) returns (r: Result<Acknowledgement, Error>)
      modifies db
      ensures Ends(old(db.tables), Acknowledged(old(db.tables), q, now), db.tables, r)
      ensures r.Success? ==> q.report in db.tables.heads && db.tables.heads[q.report] == Some(r.value.ack)
                             && q.shift in db.tables.shifts && db.tables.shifts[q.shift].status == r.value.status
                             && r.value.report == q.report && r.value.version == q.version && r.value.acked == q.acked
    {
      var tx := db.tables;
      if q.station !in tx.enabled {
        return Failure(ScopeDisabled);
      }
      if q.shift !in tx.shifts || tx.shifts[q.shift].station != q.station {
        return Failure(AckReportNotFound);
      }
      var shift := tx.shifts[q.shift];
      if shift.current != Some(q.report) || shift.status != AwaitingConfirmation {
        return Failure(AckReportUnavailable);
      }
      if q.report !in tx.reports || tx.reports[q.report].shift != q.shift || tx.reports[q.report].version != q.version
         || q.report !in tx.heads || q.report !in tx.children {
        return Failure(AckReportNotFound);
      }
      if Grant(q.station, q.actor, q.role) !in tx.grants || !IsApprover(q.role) {
        return Failure(AckRoleRequired);
      }
      if tx.reports[q.report].submittedBy == q.actor || CreatedRows(tx.children[q.report], q.actor) {
        return Failure(AckSeparationRequired);
      }
      if tx.heads[q.report].Some? {
        return Failure(AckAlreadyDecided);
      }
      var checked := AckReasons(q);
      if checked.Failure? {
        return Failure(checked.error);
      }
      var reasons := checked.value;
      var last := QueryMax(AckSequences(tx.decisions, q.report));
      var ack := tx.nextId;
      tx := tx.(nextId := tx.nextId + 1);
      var decision := Decision(q.report, q.version, last + 1, q.acked, q.actor, q.role, reasons.rejection, reasons.breakGlass, now);
      tx := tx.(decisions := tx.decisions[ack := decision]);
      tx := tx.(heads := tx.heads[q.report := Some(ack)]);
      var status := NeedsCorrection;
      if q.acked {
        status := Locked;
      }
      tx := tx.(shifts := tx.shifts[q.shift := shift.(status := status)]);
      db.tables := tx;
      return Success(Acknowledgement(ack, q.report, q.version, q.acked, status));
    }

    /** The guards before the items are stored. */
    method RequestGuard(tx: Tables, q: AmendRequest) returns (error: Option<Error>)
      ensures error.Some? ==> RequestError(tx, q) == error
      ensures error.None? ==> RequestError(tx, q).None? || (RequestError(tx, q) == Some(ConstraintViolation) && !ItemsDistinct(q.items))
      ensures error.None? ==> q.base in tx.reports && q.base in tx.children
      ensures error.None? && ItemsDistinct(q.items) ==> RequestError(tx, q).None?
      ensures error.None? && !ItemsDistinct(q.items) ==> RequestError(tx, q) == Some(ConstraintViolation)
    {
      if q.station !in tx.enabled {
        return Some(ScopeDisabled);
      }
      if q.shift !in tx.shifts || tx.shifts[q.shift].station != q.station {
        return Some(AmendmentBaseUnavailable);
      }
      var shift := tx.shifts[q.shift];
      if shift.current != Some(q.base)
         || (shift.status != Locked && shift.status != AwaitingConfirmation && shift.status != NeedsCorrection) {
        return Some(AmendmentBaseUnavailable);
      }
      if q.base !in tx.reports || tx.reports[q.base].shift != q.shift || q.base !in tx.children {
        return Some(AmendmentBaseUnavailable);
      }
      if Grant(q.station, q.requester, Supervisor) !in tx.grants {
        return Some(AmendmentRoleRequired);
      }
      if HasPending(tx.amendments, q.base) {
        return Some(AmendmentPendingExists);
      }
      for i := 0 to |q.items|
        invariant forall j | 0 <= j < i :: ItemAllowed(q.items[j])
      {
        if !ItemAllowed(q.items[i]) {
          return Some(AmendmentFieldForbidden);
        }
      }
      if !ReasonsFit(q) {
        return Some(ConstraintViolation);
      }
      return None;
    }

    /** Creates one pending amendment with its items and the digest of its base. */
    method RequestAmendment(q: AmendRequest) returns (r: Result<Id, Error>)
      modifies db
      ensures Ends(old(db.tables), AmendmentRequested(old(db.tables), q, hash), db.tables, r)
      ensures r.Success? ==> r.value == old(db.tables.nextId) && r.value in db.tables.amendments
                             && db.tables.amendments[r.value].status == Pending
    {
      var tx := db.tables;
      var guard := RequestGuard(tx, q);
      if guard.Some? {
        return Failure(guard.value);
      }
      var digest := hash(SnapshotOf(q.base, tx.reports[q.base].version, tx.children[q.base]));
      var amendmentId := tx.nextId;
      tx := tx.(nextId := tx.nextId + 1);
      var items: seq<Item> := [];
      for i := 0 to |q.items|
        invariant items == q.items[..i] && ItemsDistinct(items)
      {
        if exists j :: 0 <= j < |items| && SameTarget(items[j], q.items[i]) {
          var j :| 0 <= j < |items| && SameTarget(items[j], q.items[i]);
          assert SameTarget(q.items[j], q.items[i]);
          return Failure(ConstraintViolation);
        }
        items := items + [q.items[i]];
      }
      assert items == q.items;
      tx := tx.(amendments := tx.amendments[amendmentId :=
                  Amendment(q.station, q.shift, q.base, Pending, q.requester, None, None, digest, q.breakGlass, items)]);
      db.tables := tx;
      return Success(amendmentId);
    }

    method RejectAmendment(station: Station, amendment: Id, approver: User, role: Role, rejectionReason: string)
      returns (r: Result<(), Error>)
      modifies db
      ensures Ends(old(db.tables), AmendmentRejected(old(db.tables), station, amendment, approver, role, rejectionReason), db.tables, r)
    {
      var tx := db.tables;
      var error := DecideError(tx, station, amendment, approver, role);
      if error.Some? {
        return Failure(error.value);
      }
      var a := tx.amendments[amendment];
      if a.requester == approver {
        return Failure(AmendmentSeparationRequired);
      }
      if TrimSpace(rejectionReason) == "" {
        return Failure(AmendmentReasonRequired);
      }
      tx := tx.(amendments := tx.amendments[amendment := a.(status := Rejected, approver := Some(approver))]);
      db.tables := tx;
      return Success(());
    }

    /** Writes the next version, closes the superseded decision and reopens the confirmation. */
    method ApplyVersion(before: Tables, amendment: Id, approver: User, children: Children) returns (tx: Tables)
      requires amendment in before.amendments
      requires before.amendments[amendment].base in before.reports && before.amendments[amendment].base in before.heads
      requires before.amendments[amendment].shift in before.shifts
      ensures tx == WithVersion(before, amendment, approver, children)
    {
      var a := before.amendments[amendment];
      var base := before.reports[a.base];
      var report := before.nextId;
      var reports := before.reports[report := Report(a.shift, base.version + 1, Some(a.base), approver)];
      var rows := before.children[report := children];
      var heads := before.heads[report := None];
      var superseded := before.superseded;
      var oldHead := before.heads[a.base];
      if oldHead.Some? {
        superseded := superseded[oldHead.value := Supersession(a.base, report)];
      }
      heads := heads[a.base := None];
      var shifts := before.shifts[a.shift := before.shifts[a.shift].(current := Some(report), status := AwaitingConfirmation)];
      var amendments := before.amendments[amendment := a.(status := Approved, approver := Some(approver), applied := Some(report))];
      tx := before.(nextId := report + 1 + children.Count(), reports := reports, children := rows, heads := heads,
                    superseded := superseded, shifts := shifts, amendments := amendments);
    }

    /** Applies a pending amendment as a new version of its report. */
    method ApproveAmendment(q: ApproveRequest, now: Time) returns (r: Result<Applied, Error>)
      modifies db
      ensures Ends(old(db.tables), AmendmentApproved(old(db.tables), q, hash, now), db.tables, r)
      ensures r.Success? ==> r.value.report in db.tables.reports
                             && db.tables.reports[r.value.report].supersedes == Some(r.value.base)
                             && db.tables.reports[r.value.report].version == r.value.version
                             && r.value.amendment == q.amendment && q.amendment in db.tables.amendments
                             && db.tables.amendments[q.amendment].applied == Some(r.value.report)
    {
      var tx := db.tables;
      var error := DecideError(tx, q.station, q.amendment, q.approver, q.role);
      if error.Some? {
        return Failure(error.value);
      }
      var a := tx.amendments[q.amendment];
      if a.requester == q.approver && !a.breakGlass {
        return Failure(AmendmentSeparationRequired);
      }
      if a.shift !in tx.shifts || tx.shifts[a.shift].station != a.station {
        return Failure(AmendmentBaseUnavailable);
      }
      if tx.shifts[a.shift].current != Some(a.base) {
        return Failure(AmendmentBaseUnavailable);
      }
      if a.base !in tx.reports || tx.reports[a.base].shift != a.shift || a.base !in tx.children {
        return Failure(AmendmentBaseUnavailable);
      }
      var base := tx.reports[a.base];
      var digest := hash(SnapshotOf(a.base, base.version, tx.children[a.base]));
      if |q.staleCheck| != DIGEST_LENGTH || q.staleCheck != digest || a.digest != digest {
        return Failure(AmendmentStale);
      }
      var itemError := ValidateAmendmentItems(tx.children[a.base], a.items);
      if itemError.Some? {
        return Failure(itemError.value);
      }
      if a.base !in tx.heads {
        return Failure(AmendmentBaseUnavailable);
      }
      var children := CopyAmendedReportChildren(tx.children[a.base], a.items, base.version + 1, tx.nextId + 1);
      if children.Failure? {
        return Failure(children.error);
      }
      if !StationIsFree(tx.shifts, a.station, a.shift) {
        return Failure(ConstraintViolation);
      }
      var after := ApplyVersion(tx, q.amendment, q.approver, children.value);
      r := Success(Applied(q.amendment, a.base, tx.nextId, base.version + 1));
      db.tables := after;
    }
  }
}
