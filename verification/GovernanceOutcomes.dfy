/** When each governance transaction is accepted, and what an accepted one leaves behind. */
module GovernanceOutcomes {
  import opened Wrappers
  import opened DecimalText
  import opened TextTrim
  import opened LedgerTables
  import opened GovernanceSteps
  import opened LedgerInvariant
  import opened LedgerSteps
  import opened LedgerRuns
  import opened GovernanceTheorems
  import opened AmendmentMeaning
  import opened AmendmentItems

  // ----- Acknowledging -----

  /** A reason exactly for a rejection, and an emergency reason exactly under break-glass, which two roles may use. */
  predicate AckReasonsFit(q: AckRequest) {
    && (q.acked <==> IsBlank(q.rejectionReason))
    && (q.breakGlass <==> !IsBlank(q.breakGlassReason))
    && (q.breakGlass ==> q.role in {Owner, Superadmin})
  }

  lemma AckReasonsIff(q: AckRequest)
    ensures AckReasons(q).Success? <==> AckReasonsFit(q)
    ensures AckReasons(q).Success? ==>
              AckReasons(q).value == Reasons(if q.acked then None else Some(TrimSpace(q.rejectionReason)),
                                             if q.breakGlass then Some(TrimSpace(q.breakGlassReason)) else None)
  {
    hide TrimSpace, IsBlank;
    TrimmedAwayIffBlank(q.rejectionReason);
    TrimmedAwayIffBlank(q.breakGlassReason);
  }

  /** Nobody who submitted the version or entered one of its sales or losses. */
  predicate IsSeparate(t: Tables, report: Id, actor: User)
    requires report in t.reports && report in t.children
  {
    && t.reports[report].submittedBy != actor
    && (forall i | 0 <= i < |t.children[report].sales| :: t.children[report].sales[i].createdBy != actor)
    && (forall i | 0 <= i < |t.children[report].losses| :: t.children[report].losses[i].createdBy != actor)
  }

  /** The request names the current version of an awaiting shift at its station. */
  predicate NamesAwaiting(t: Tables, q: AckRequest) {
    && q.shift in t.shifts && t.shifts[q.shift].station == q.station && t.shifts[q.shift].status == AwaitingConfirmation
    && t.shifts[q.shift].current == Some(q.report)
    && q.report in t.reports && q.report in t.children && t.reports[q.report].version == q.version
  }

  lemma CurrentIsUndecided(t: Tables, s: Id, hash: SnapshotHash)
    requires Inv(t, hash) && s in t.shifts && t.shifts[s].status == AwaitingConfirmation && t.shifts[s].current.Some?
    ensures var c := t.shifts[s].current.value;
            c in t.reports && t.reports[c].shift == s && c in t.heads && c in t.children && t.heads[c].None?
  {
    hide ShiftsOk, DraftsOk, RevisionsOk, ReportsOk, DecisionsOk, SeparationOk,
      PendingOk, DigestsOk, AppliedOk, OriginOk, IdemOk, IdemKeysOk, ItemsOk, RowIdsOk;
    CurrentHead(t, s);
  }

  /**
   An acknowledgement is accepted exactly for the current, awaiting version, from
   an approver of the station who neither submitted it nor entered its rows, with
   the reasons its decision calls for.
   */
  lemma AcknowledgedIff(t: Tables, q: AckRequest, now: Time, hash: SnapshotHash)
    requires Inv(t, hash)
    ensures Acknowledged(t, q, now).Success? <==>
            && q.station in t.enabled && NamesAwaiting(t, q)
            && Grant(q.station, q.actor, q.role) in t.grants && q.role in {StationAdmin, Owner, Superadmin}
            && IsSeparate(t, q.report, q.actor) && AckReasonsFit(q)
  {
    hide Inv, AckReasons, AckSequences, AckReasonsFit;
    AckReasonsIff(q);
    if q.shift in t.shifts && t.shifts[q.shift].status == AwaitingConfirmation && t.shifts[q.shift].current.Some? {
      CurrentIsUndecided(t, q.shift, hash);
    }
  }

  /** The decision says what the request said. */
  ghost predicate Says(d: Decision, q: AckRequest, now: Time) {
    && d.report == q.report && d.version == q.version && d.ackSeq == 1
    && d.acked == q.acked && d.actor == q.actor && d.role == q.role && d.decidedAt == now
    && d.rejectionReason == (if q.acked then None else Some(TrimSpace(q.rejectionReason)))
    && d.breakGlassReason == (if q.breakGlass then Some(TrimSpace(q.breakGlassReason)) else None)
  }

  lemma FirstDecision(t: Tables, r: Id, hash: SnapshotHash)
    requires Inv(t, hash) && r in t.heads && t.heads[r].None?
    requires exists s :: s in t.shifts && t.shifts[s].current == Some(r)
    ensures AckSequences(t.decisions, r) == {}
  {
    hide KeysOk, ShiftsOk, DraftsOk, RevisionsOk, StatusOk, SeparationOk,
      PendingOk, DigestsOk, AppliedOk, OriginOk, IdemOk, IdemKeysOk, ItemsOk, RowIdsOk, HeadsOk;
    var s :| s in t.shifts && t.shifts[s].current == Some(r);
    assert forall k | k in t.decisions && t.decisions[k].report == r :: k in t.superseded;
    hide HeadsOk;
    assert forall k | k in t.superseded :: t.superseded[k].replacement in t.reports;
  }

  /** What an accepted acknowledgement does: the request's decision comes into force and the shift follows it; nothing else changes. */
  lemma AcknowledgementMeaning(t: Tables, q: AckRequest, now: Time, hash: SnapshotHash, t': Tables)
    requires Inv(t, hash) && Acknowledged(t, q, now) == Success(t')
    ensures exists k :: k !in t.decisions && InForce(t', q.report, k) && Says(t'.decisions[k], q, now)
                        && t'.decisions == t.decisions[k := t'.decisions[k]] && t'.heads == t.heads[q.report := Some(k)]
    ensures q.shift in t.shifts && q.shift in t'.shifts
    ensures t'.shifts == t.shifts[q.shift := t.shifts[q.shift].(status := t'.shifts[q.shift].status)]
    ensures t'.shifts[q.shift].status == Locked <==> q.acked
    ensures t'.shifts[q.shift].status == NeedsCorrection <==> !q.acked
    ensures t' == t.(nextId := t'.nextId, decisions := t'.decisions, heads := t'.heads, shifts := t'.shifts)
  {
    hide Inv, AckReasons, AckSequences, TrimSpace, CreatedRows;
    AckReasonsIff(q);
    KeysOfInv(t, hash);
    FirstDecision(t, q.report, hash);
    hide AckReasonsFit;
    var k := t.nextId;
    assert t'.decisions[k].ackSeq == 1;
    assert InForce(t', q.report, k);
    assert Says(t'.decisions[k], q, now);
  }

  // ----- Requesting an amendment -----

  /** The request names the current report of a shift at its station. */
  predicate NamesCurrent(t: Tables, q: AmendRequest) {
    q.shift in t.shifts && t.shifts[q.shift].station == q.station && t.shifts[q.shift].current == Some(q.base)
  }

  /** Permitted fields of named targets with an old value, each named once. */
  predicate ItemsPermitted(items: seq<Item>) {
    && (forall i | 0 <= i < |items| ::
          items[i].target != 0 && (items[i].kind, items[i].field) in ALLOWED && items[i].oldValue != Raw(""))
    && (forall i, j | 0 <= i < j < |items| ::
          items[i].kind != items[j].kind || items[i].target != items[j].target || items[i].field != items[j].field)
  }

  lemma ItemsPermittedIff(items: seq<Item>)
    ensures ItemsPermitted(items) <==> (forall i | 0 <= i < |items| :: ItemAllowed(items[i])) && ItemsDistinct(items)
  {
    forall i | 0 <= i < |items|
      ensures ItemAllowed(items[i]) <==>
              items[i].target != 0 && (items[i].kind, items[i].field) in ALLOWED && items[i].oldValue != Raw("")
    {
      FieldAllowedIff(items[i].kind, items[i].field);
    }
  }

  lemma CurrentOfShift(t: Tables, s: Id, hash: SnapshotHash)
    requires Inv(t, hash) && s in t.shifts && t.shifts[s].current.Some?
    ensures var c := t.shifts[s].current.value;
            c in t.reports && t.reports[c].shift == s && c in t.heads && c in t.children && t.shifts[s].status != Open
  {
    hide ShiftsOk, DraftsOk, RevisionsOk, ReportsOk, DecisionsOk, SeparationOk, StatusOk, HeadsOk,
      PendingOk, DigestsOk, AppliedOk, OriginOk, IdemOk, IdemKeysOk, ItemsOk, RowIdsOk;
  }

  /**
   An amendment request is accepted exactly for the current report of a shift, from
   a supervisor of its station, while no other is pending on it, with permitted
   items and its reasons.
   */
  lemma AmendmentRequestedIff(t: Tables, q: AmendRequest, hash: SnapshotHash)
    requires Inv(t, hash)
    ensures AmendmentRequested(t, q, hash).Success? <==>
            && q.station in t.enabled && NamesCurrent(t, q)
            && Grant(q.station, q.requester, Supervisor) in t.grants
            && (forall a | a in t.amendments && t.amendments[a].base == q.base :: t.amendments[a].status != Pending)
            && ItemsPermitted(q.items) && !IsBlank(q.reason) && (q.breakGlass <==> !IsBlank(q.breakGlassReason))
  {
    hide Inv, SnapshotOf, ItemsPermitted, ItemAllowed, ItemsDistinct, TrimSpace, IsBlank;
    ItemsPermittedIff(q.items);
    TrimmedAwayIffBlank(q.reason);
    TrimmedAwayIffBlank(q.breakGlassReason);
    if NamesCurrent(t, q) {
      CurrentOfShift(t, q.shift, hash);
    }
  }

  // ----- Deciding an amendment -----

  /** The caller may decide the pending amendment: an approver of its station. */
  predicate MayDecide(t: Tables, station: Station, a: Id, approver: User, role: Role) {
    && station in t.enabled && a in t.amendments && t.amendments[a].station == station && t.amendments[a].status == Pending
    && Grant(station, approver, role) in t.grants && role in {StationAdmin, Owner, Superadmin}
  }

  lemma MayDecideIff(t: Tables, station: Station, a: Id, approver: User, role: Role)
    ensures DecideError(t, station, a, approver, role).None? <==> MayDecide(t, station, a, approver, role)
  {
  }

  lemma NeedsAmendment(t: Tables, station: Station, a: Id, approver: User, role: Role)
    requires DecideError(t, station, a, approver, role).None?
    ensures a in t.amendments
  {
  }

  /** A rejection is accepted exactly from an approver other than the requester, with a reason. */
  lemma AmendmentRejectedIff(t: Tables, station: Station, a: Id, approver: User, role: Role, reason: string)
    ensures AmendmentRejected(t, station, a, approver, role, reason).Success? <==>
            MayDecide(t, station, a, approver, role) && t.amendments[a].requester != approver && !IsBlank(reason)
  {
    hide DecideError, TrimSpace, IsBlank, MayDecide;
    MayDecideIff(t, station, a, approver, role);
    TrimmedAwayIffBlank(reason);
    if DecideError(t, station, a, approver, role).None? {
      assert a in t.amendments by {
        NeedsAmendment(t, station, a, approver, role);
      }
    }
  }

  /** The column takes the text: an unsigned decimal. */
  predicate Takes(column: Option<string>) {
    column.Some? && IsDecimal(column.value)
  }

  /** Every item that names the sale has a number to give, and both amounts come out unsigned. */
  predicate SaleCanChange(sale: Sale, items: seq<Item>) {
    && (forall i | 0 <= i < |items| && items[i].kind == SalesDeclared && items[i].target == sale.id ::
          AmendmentDecimalValue(items[i].newValue).Some?)
    && Takes(Column(LastItem(items, SalesDeclared, sale.id, CashAmount), sale.cash))
    && Takes(Column(LastItem(items, SalesDeclared, sale.id, CashlessAmount), sale.cashless))
  }

  lemma SaleCanChangeIff(sale: Sale, items: seq<Item>)
    ensures SaleCanChange(sale, items) <==> AmendedSale(sale, items).Success? && SaleFits(AmendedSale(sale, items).value)
  {
    hide AmendedSale, IsDecimal, AmendmentDecimalValue, LastItem;
    SaleRefusedIff(sale, items);
    if AmendedSale(sale, items).Success? {
      SaleMeaning(sale, items);
    }
  }

  predicate TakesOptional(column: Option<Option<string>>) {
    column.Some? && (column.value.Some? ==> IsDecimal(column.value.value))
  }

  /** Every item that names the loss has a value its column can take, and both numbers come out unsigned. */
  predicate LossCanChange(loss: Loss, items: seq<Item>) {
    && (forall i | 0 <= i < |items| && items[i].kind == LossEntry && items[i].target == loss.id ::
          && (items[i].field in {Liters, CashAmount} ==> AmendmentDecimalValue(items[i].newValue).Some?)
          && (items[i].field == Note ==> !items[i].newValue.Raw?))
    && Takes(Column(LastItem(items, LossEntry, loss.id, Liters), loss.liters))
    && TakesOptional(OptionalColumn(LastItem(items, LossEntry, loss.id, CashAmount), loss.cash))
  }

  lemma LossCanChangeIff(loss: Loss, items: seq<Item>)
    ensures LossCanChange(loss, items) <==> AmendedLoss(loss, items).Success? && LossFits(AmendedLoss(loss, items).value)
  {
    hide AmendedLoss, IsDecimal, AmendmentDecimalValue, LastItem;
    LossRefusedIff(loss, items);
    if AmendedLoss(loss, items).Success? {
      LossMeaning(loss, items);
    }
  }

  lemma {:induction false} SalesCanChangeIff(sales: seq<Sale>, items: seq<Item>, firstId: Id)
    ensures CopiedSales(sales, items, firstId).Success? <==> forall i | 0 <= i < |sales| :: SaleCanChange(sales[i], items)
  {
    hide AmendedSale, SaleFits, SaleCanChange;
    if sales != [] {
      var last := |sales| - 1;
      SalesCanChangeIff(sales[..last], items, firstId);
      SaleCanChangeIff(sales[last], items);
      assert forall i | 0 <= i < last :: sales[..last][i] == sales[i];
    }
  }

  lemma {:induction false} LossesCanChangeIff(losses: seq<Loss>, items: seq<Item>, version: nat, firstId: Id)
    ensures CopiedLosses(losses, items, version, firstId).Success? <==> forall i | 0 <= i < |losses| :: LossCanChange(losses[i], items)
  {
    hide AmendedLoss, LossFits, LossCanChange;
    if losses != [] {
      var last := |losses| - 1;
      LossesCanChangeIff(losses[..last], items, version, firstId);
      LossCanChangeIff(losses[last], items);
      assert forall i | 0 <= i < last :: losses[..last][i] == losses[i];
    }
  }

  /** The items fit the base report as it stands, and every row of it can take them. */
  ghost predicate CanApply(c: Children, items: seq<Item>) {
    && (forall i | 0 <= i < |items| :: ItemFits(c, items[i]))
    && (forall i | 0 <= i < |c.sales| :: SaleCanChange(c.sales[i], items))
    && (forall i | 0 <= i < |c.losses| :: LossCanChange(c.losses[i], items))
  }

  lemma CanApplyIff(c: Children, items: seq<Item>, version: nat, firstId: Id)
    requires RowIdsDistinct(c)
    ensures CanApply(c, items) <==> ItemsError(c, items).None? && CopiedChildren(c, items, version, firstId).Success?
  {
    hide CopiedSales, CopiedLosses, ItemsError, ItemFits, SaleCanChange, LossCanChange, RowIdsDistinct;
    ItemsFitIff(c, items);
    SalesCanChangeIff(c.sales, items, firstId + |c.readings|);
    LossesCanChangeIff(c.losses, items, version, firstId + |c.readings| + |c.sales|);
  }

  lemma PendingFacts(t: Tables, a: Id, hash: SnapshotHash)
    requires Inv(t, hash) && a in t.amendments && t.amendments[a].status == Pending
    ensures var x := t.amendments[a];
            && x.shift in t.shifts && t.shifts[x.shift].current == Some(x.base)
            && x.base in t.reports && x.base in t.children && x.base in t.heads && t.reports[x.base].shift == x.shift
            && x.digest == hash(SnapshotOf(x.base, t.reports[x.base].version, t.children[x.base]))
            && RowIdsDistinct(t.children[x.base])
  {
    hide ShiftsOk, DraftsOk, RevisionsOk, ReportsOk, CurrentOk, HeadsOk, StatusOk, DecisionsOk, SeparationOk,
      AppliedOk, OriginOk, IdemOk, IdemKeysOk, ItemsOk, SnapshotOf, RowIdsDistinct;
  }

  /** No other shift of the station is open or awaiting its confirmation. */
  predicate NoOtherActive(t: Tables, station: Station, s: Id) {
    forall u | u in t.shifts && u != s && t.shifts[u].station == station :: t.shifts[u].status !in {Open, AwaitingConfirmation}
  }

  lemma NoOtherActiveIff(t: Tables, station: Station, s: Id)
    ensures StationIsFree(t.shifts, station, s) <==> NoOtherActive(t, station, s)
  {
  }

  lemma MayDecideMeans(t: Tables, station: Station, a: Id, approver: User, role: Role)
    requires MayDecide(t, station, a, approver, role)
    ensures a in t.amendments && t.amendments[a].status == Pending && t.amendments[a].station == station
  {
  }

  /**
   An approval is accepted exactly from an approver who shows the digest of the
   base report as it stands, for a request of somebody else's or under
   break-glass, when every item fits and can be applied and no other shift of
   the station is active.
   */
  lemma AmendmentApprovedIff(t: Tables, q: ApproveRequest, hash: SnapshotHash, now: Time)
    requires Inv(t, hash)
    ensures AmendmentApproved(t, q, hash, now).Success? <==>
            && MayDecide(t, q.station, q.amendment, q.approver, q.role)
            && var a := t.amendments[q.amendment];
            && (a.requester != q.approver || a.breakGlass)
            && t.shifts[a.shift].station == q.station
            && q.staleCheck == hash(SnapshotOf(a.base, t.reports[a.base].version, t.children[a.base])) && |q.staleCheck| == 32
            && CanApply(t.children[a.base], a.items)
            && NoOtherActive(t, q.station, a.shift)
  {
    hide Inv, CopiedChildren, StationIsFree, ItemsError, SnapshotOf, CanApply, DecideError, MayDecide, NoOtherActive;
    MayDecideIff(t, q.station, q.amendment, q.approver, q.role);
    if MayDecide(t, q.station, q.amendment, q.approver, q.role) {
      MayDecideMeans(t, q.station, q.amendment, q.approver, q.role);
      var a := t.amendments[q.amendment];
      PendingFacts(t, q.amendment, hash);
      CanApplyIff(t.children[a.base], a.items, t.reports[a.base].version + 1, t.nextId + 1);
      NoOtherActiveIff(t, q.station, a.shift);
    }
  }
}
