/** Submitting a shift's draft as its first report, as transactions on the shared database. */
module SubmissionRepository {
  import opened Wrappers
  import opened Reconciliation
  import opened LedgerTables
  import opened LedgerInvariant
  import opened LedgerDatabase
  import opened DraftSteps
  import opened SubmitSteps

  datatype Submission = Submission(report: Id, replay: bool)

  // ----- A refused prefix refuses the whole -----

  lemma {:induction false} ReadingsStayRefused(t: Tables, s: Id, shift: Shift, rows: seq<DraftReading>, payload: Payload,
                                               policies: Policies, threshold: string, firstId: Id, k: nat)
    requires k <= |rows| && PromotedReadings(t, s, shift, rows[..k], payload, policies, threshold, firstId).Failure?
    ensures PromotedReadings(t, s, shift, rows, payload, policies, threshold, firstId)
         == PromotedReadings(t, s, shift, rows[..k], payload, policies, threshold, firstId)
  {
    hide PromotedReading, ContinuityOf, InputFor;
    if k < |rows| {
      assert rows[..|rows| - 1][..k] == rows[..k];
      ReadingsStayRefused(t, s, shift, rows[..|rows| - 1], payload, policies, threshold, firstId, k);
    } else {
      assert rows[..k] == rows;
    }
  }

  lemma {:induction false} CarriedStayRefused(t: Tables, shift: Shift, items: seq<CatalogItem>, firstId: Id, k: nat)
    requires k <= |items| && CarriedReadings(t, shift, items[..k], firstId).Failure?
    ensures CarriedReadings(t, shift, items, firstId) == CarriedReadings(t, shift, items[..k], firstId)
  {
    hide Predecessor, ReadingFor, CarriedReading;
    if k < |items| {
      assert items[..|items| - 1][..k] == items[..k];
      CarriedStayRefused(t, shift, items[..|items| - 1], firstId, k);
    } else {
      assert items[..k] == items;
    }
  }

  lemma {:induction false} LossesStayRefused(rows: seq<DraftLoss>, inputs: seq<InputLoss>, taken: set<Id>, firstId: Id, k: nat)
    requires k <= |rows| && PromotedLosses(rows[..k], inputs, taken, firstId).Failure?
    ensures PromotedLosses(rows, inputs, taken, firstId) == PromotedLosses(rows[..k], inputs, taken, firstId)
  {
    hide LossInputFor, PromotedLoss, LossIds;
    if k < |rows| {
      assert rows[..|rows| - 1][..k] == rows[..k];
      LossesStayRefused(rows[..|rows| - 1], inputs, taken, firstId, k);
    } else {
      assert rows[..k] == rows;
    }
  }

  lemma {:induction false} EvidenceStaysRefused(staged: seq<Staged>, rows: seq<DraftLoss>, losses: seq<Loss>, firstId: Id, k: nat)
    requires k <= |staged| && PromotedEvidence(staged[..k], rows, losses, firstId).Failure?
    ensures PromotedEvidence(staged, rows, losses, firstId) == PromotedEvidence(staged[..k], rows, losses, firstId)
  {
    hide DraftLossRow, ReportLoss;
    if k < |staged| {
      assert staged[..|staged| - 1][..k] == staged[..k];
      EvidenceStaysRefused(staged[..|staged| - 1], rows, losses, firstId, k);
    } else {
      assert staged[..k] == staged;
    }
  }

  // ----- Maps built from the payload -----

  function Lookup<K, V>(m: map<K, V>, k: K): Option<V> {
    if k in m then Some(m[k]) else None
  }

  /** The submitted readings by nozzle: a later entry replaces an earlier one, the nil nozzle is skipped. */
  method ReadingInputs(readings: seq<InputReading>) returns (inputs: map<Id, InputReading>)
    ensures forall n :: Lookup(inputs, n) == InputFor(readings, n)
  {
    inputs := map[];
    for i := 0 to |readings|
      invariant forall n :: Lookup(inputs, n) == InputFor(readings[..i], n)
    {
      assert readings[..i + 1][..i] == readings[..i];
      var item := readings[i];
      if item.nozzle != 0 {
        inputs := inputs[item.nozzle := item];
      }
    }
    assert readings[..|readings|] == readings;
  }

  method LossInputs(losses: seq<InputLoss>) returns (inputs: map<Id, InputLoss>)
    ensures forall l :: Lookup(inputs, l) == LossInputFor(losses, l)
  {
    inputs := map[];
    for i := 0 to |losses|
      invariant forall l :: Lookup(inputs, l) == LossInputFor(losses[..i], l)
    {
      assert losses[..i + 1][..i] == losses[..i];
      var item := losses[i];
      if item.loss != 0 {
        inputs := inputs[item.loss := item];
      }
    }
    assert losses[..|losses|] == losses;
  }

  // ----- Readings -----

  /** What a nozzle's start is checked against: the last locked shift's end, an approved reset, a baseline in effect. */
  method MeterContinuity(t: Tables, s: Id, shift: Shift, nozzle: Id, policies: Policies) returns (c: Continuity)
    requires ShiftsOk(t.shifts)
    ensures c == ContinuityOf(t, s, shift, nozzle, policies)
  {
    hide ShiftsOk;
    var resetValue := "";
    var i := 0;
    while i < |policies.resets|
      invariant i <= |policies.resets|
      invariant ResetValue(policies.resets, shift.station, s, nozzle) == ResetValue(policies.resets[i..], shift.station, s, nozzle)
      invariant resetValue == ""
    {
      var reset := policies.resets[i];
      if reset.station == shift.station && reset.nozzle == nozzle && reset.shift == s && reset.approved {
        resetValue := reset.value;
        break;
      }
      i := i + 1;
    }
    var baselineValue := "";
    var k := NozzleKey(shift.station, nozzle);
    if k in policies.baselines && policies.baselines[k].effective <= shift.sequence {
      baselineValue := policies.baselines[k].value;
    }
    var previous := QueryPredecessor(t.shifts, shift.station, shift.sequence, false);
    var predecessorEnd := "";
    if previous.Some? {
      predecessorEnd := CurrentEnd(t, previous.value, nozzle);
    }
    return Continuity(predecessorEnd, resetValue, baselineValue);
  }

  method CheckReading(shift: Shift, row: DraftReading, input: Option<InputReading>, continuity: Continuity,
                      threshold: string, id: Id) returns (r: Result<Reading, Error>)
    ensures r == PromotedReading(shift, row, input, continuity, threshold, id)
  {
    hide ValidateMeterStart, CalculateMeterDelta, CalculateExpectedSaleRupiah;
    var item := SnapshotItem(shift.catalog, row.nozzle);
    if item.None? {
      return Failure(InvalidRequest);
    }
    var meterStart, meterEnd, observed := row.meterStart, row.meterEnd, true;
    if input.Some? {
      if input.value.meterStart != "" {
        meterStart := input.value.meterStart;
      }
      if input.value.meterEnd != "" {
        meterEnd := input.value.meterEnd;
      }
      if input.value.observed.Some? {
        observed := input.value.observed.value;
      }
    }
    var start := ValidateMeterStart(meterStart, continuity.predecessorEnd, continuity.resetValue, continuity.baselineValue);
    if start.Some? {
      return Failure(MeterRejected);
    }
    var delta := CalculateMeterDelta(meterStart, meterEnd, item.value.modulus, threshold);
    if delta.Failure? {
      return Failure(MeterRejected);
    }
    var expected := CalculateExpectedSaleRupiah(delta.value, item.value.price);
    if expected.Failure? {
      return Failure(MeterRejected);
    }
    return Success(Reading(id, row.nozzle, meterStart, meterEnd, item.value.price, expected.value, observed, None));
  }

  method PromoteReadings(t: Tables, s: Id, shift: Shift, rows: seq<DraftReading>, payload: Payload, policies: Policies,
                         threshold: string, firstId: Id) returns (r: Result<seq<Reading>, Error>)
    requires ShiftsOk(t.shifts)
    ensures r == PromotedReadings(t, s, shift, rows, payload, policies, threshold, firstId)
  {
    hide PromotedReading, ContinuityOf, InputFor, ShiftsOk;
    var inputs := ReadingInputs(payload.readings);
    var readings: seq<Reading> := [];
    for i := 0 to |rows|
      invariant PromotedReadings(t, s, shift, rows[..i], payload, policies, threshold, firstId) == Success(readings)
    {
      assert rows[..i + 1][..i] == rows[..i];
      var continuity := MeterContinuity(t, s, shift, rows[i].nozzle, policies);
      var reading := CheckReading(shift, rows[i], Lookup(inputs, rows[i].nozzle), continuity, threshold, firstId + i);
      if reading.Failure? {
        ReadingsStayRefused(t, s, shift, rows, payload, policies, threshold, firstId, i + 1);
        return Failure(reading.error);
      }
      readings := readings + [reading.value];
    }
    assert rows[..|rows|] == rows;
    return Success(readings);
  }

  /** One more reading of a backfilled shift. */
  ghost function CarriedNext(t: Tables, shift: Shift, done: seq<Reading>, nozzle: Id, id: Id): Result<seq<Reading>, Error> {
    var p := Predecessor(t.shifts, shift.station, shift.sequence, true);
    if p.None? || t.shifts[p.value].current.value !in t.children then Failure(InvalidRequest)
    else
      var report := t.shifts[p.value].current.value;
      match ReadingFor(t.children[report].readings, nozzle)
      case None => Failure(InvalidRequest)
      case Some(source) =>
        if exists i :: 0 <= i < |done| && done[i].nozzle == source.nozzle then Failure(ConstraintViolation)
        else Success(done + [CarriedReading(source, p.value, report, id)])
  }

  lemma CarriedGrows(t: Tables, shift: Shift, items: seq<CatalogItem>, firstId: Id, i: nat)
    requires i < |items| && CarriedReadings(t, shift, items[..i], firstId).Success?
    ensures CarriedReadings(t, shift, items[..i + 1], firstId)
         == CarriedNext(t, shift, CarriedReadings(t, shift, items[..i], firstId).value, items[i].nozzle, firstId + i)
  {
    hide ReadingFor, CarriedReading, IsEarlierLocked;
    assert items[..i + 1][..i] == items[..i];
  }

  method CarryReading(t: Tables, shift: Shift, done: seq<Reading>, nozzle: Id, id: Id) returns (r: Result<seq<Reading>, Error>)
    requires ShiftsOk(t.shifts)
    ensures r == CarriedNext(t, shift, done, nozzle, id)
  {
    hide ReadingFor, ShiftsOk, CarriedReading;
    var previous := QueryPredecessor(t.shifts, shift.station, shift.sequence, true);
    if previous.None? || t.shifts[previous.value].current.value !in t.children {
      return Failure(InvalidRequest);
    }
    var report := t.shifts[previous.value].current.value;
    var source := ReadingFor(t.children[report].readings, nozzle);
    if source.None? {
      return Failure(InvalidRequest);
    }
    if exists j :: 0 <= j < |done| && done[j].nozzle == source.value.nozzle {
      return Failure(ConstraintViolation);
    }
    return Success(done + [CarriedReading(source.value, previous.value, report, id)]);
  }

  /** A backfilled shift repeats the readings of the last locked shift for its own catalogue. */
  method CarryReadings(t: Tables, shift: Shift, firstId: Id) returns (r: Result<seq<Reading>, Error>)
    requires ShiftsOk(t.shifts)
    ensures r == CarriedReadings(t, shift, shift.catalog, firstId)
  {
    hide ShiftsOk, CarriedNext;
    var items := shift.catalog;
    var readings: seq<Reading> := [];
    for i := 0 to |items|
      invariant CarriedReadings(t, shift, items[..i], firstId) == Success(readings)
    {
      CarriedGrows(t, shift, items, firstId, i);
      var more := CarryReading(t, shift, readings, items[i].nozzle, firstId + i);
      if more.Failure? {
        CarriedStayRefused(t, shift, items, firstId, i + 1);
        return Failure(more.error);
      }
      readings := more.value;
    }
    assert items[..|items|] == items;
    return Success(readings);
  }

  // ----- Sales and losses -----

  method PromoteSales(rows: seq<DraftSale>, firstId: Id) returns (sales: seq<Sale>)
    ensures sales == PromotedSales(rows, firstId)
  {
    sales := [];
    for i := 0 to |rows|
      invariant sales == PromotedSales(rows, firstId)[..i]
    {
      sales := sales + [Sale(firstId + i, rows[i].dispenser, rows[i].cash, rows[i].cashless, rows[i].createdBy)];
    }
  }

  lemma OneMoreLoss(losses: seq<Loss>, loss: Loss)
    ensures LossIds(losses + [loss]) == LossIds(losses) + {loss.loss}
  {
    var more := losses + [loss];
    forall l | l in LossIds(losses) + {loss.loss} ensures l in LossIds(more) {
      if l == loss.loss {
        assert more[|losses|].loss == l;
      } else {
        var i :| 0 <= i < |losses| && losses[i].loss == l;
        assert more[i].loss == l;
      }
    }
  }

  method PromoteLosses(rows: seq<DraftLoss>, inputs: seq<InputLoss>, taken: set<Id>, firstId: Id)
    returns (r: Result<seq<Loss>, Error>)
    ensures r == PromotedLosses(rows, inputs, taken, firstId)
  {
    hide LossInputFor;
    var byLoss := LossInputs(inputs);
    var identities := taken;
    var losses: seq<Loss> := [];
    for i := 0 to |rows|
      invariant PromotedLosses(rows[..i], inputs, taken, firstId) == Success(losses)
      invariant identities == taken + LossIds(losses)
    {
      assert rows[..i + 1][..i] == rows[..i];
      var row := rows[i];
      var input := Lookup(byLoss, row.loss);
      if input.None? || input.value.nozzle == 0 {
        LossesStayRefused(rows, inputs, taken, firstId, i + 1);
        return Failure(InvalidRequest);
      }
      if row.loss in identities {
        LossesStayRefused(rows, inputs, taken, firstId, i + 1);
        return Failure(ConstraintViolation);
      }
      identities := identities + {row.loss};
      OneMoreLoss(losses, PromotedLoss(row, input.value.nozzle, firstId + i));
      losses := losses + [PromotedLoss(row, input.value.nozzle, firstId + i)];
    }
    assert rows[..|rows|] == rows;
    return Success(losses);
  }

  // ----- Evidence -----

  /** The policy's types by name: a later entry replaces an earlier one. */
  method PolicyTypes(types: seq<EvidenceType>) returns (named: map<string, EvidenceType>)
    ensures forall k :: Lookup(named, k) == TypeNamed(types, k)
  {
    named := map[];
    for i := 0 to |types|
      invariant forall k :: Lookup(named, k) == TypeNamed(types[..i], k)
    {
      assert types[..i + 1][..i] == types[..i];
      named := named[types[i].kind := types[i]];
    }
    assert types[..|types|] == types;
  }

  /** How often a pair was counted. */
  function CountOf(counts: map<Id, map<string, nat>>, row: Id, kind: string): nat {
    if row in counts && kind in counts[row] then counts[row][kind] else 0
  }

  /** Checks every staged object and counts the finalized ones, then checks every loss against every type. */
  method ValidateStagedEvidence(policy: EvidencePolicy, losses: seq<DraftLoss>, staged: seq<Staged>) returns (ok: bool)
    ensures ok <==> EvidenceValid(policy, losses, staged)
  {
    hide EvidenceSuffices, TypeNamed;
    var types := PolicyTypes(policy.types);
    var counts: map<Id, map<string, nat>> := map[];
    for i := 0 to |staged|
      invariant forall k | 0 <= k < i :: StagedFits(policy, staged[k])
      invariant forall row, kind :: CountOf(counts, row, kind) == FinalizedCount(staged[..i], row, kind)
    {
      assert staged[..i + 1][..i] == staged[..i];
      var evidence := staged[i];
      var kind := Lookup(types, evidence.kind);
      if kind.None? || evidence.mime !in kind.value.mimes {
        return false;
      }
      if evidence.status == Finalized {
        if evidence.lossRow !in counts {
          counts := counts[evidence.lossRow := map[]];
        }
        var before := CountOf(counts, evidence.lossRow, evidence.kind);
        counts := counts[evidence.lossRow := counts[evidence.lossRow][evidence.kind := before + 1]];
      }
    }
    assert staged[..|staged|] == staged;
    for i := 0 to |losses|
      invariant forall k, j | 0 <= k < i && 0 <= j < |policy.types| ::
                  EvidenceSuffices(policy.mode, policy.types[j].minimum,
                                   FinalizedCount(staged, losses[k].row, policy.types[j].kind))
    {
      for j := 0 to |policy.types|
        invariant forall l | 0 <= l < j ::
                    EvidenceSuffices(policy.mode, policy.types[l].minimum,
                                     FinalizedCount(staged, losses[i].row, policy.types[l].kind))
      {
        var finalized := CountOf(counts, losses[i].row, policy.types[j].kind);
        if !EvidenceSuffices(policy.mode, policy.types[j].minimum, finalized) {
          return false;
        }
      }
    }
    return true;
  }

  method PromoteEvidence(staged: seq<Staged>, rows: seq<DraftLoss>, losses: seq<Loss>, firstId: Id)
    returns (r: Result<seq<EvidenceEvent>, Error>)
    ensures r == PromotedEvidence(staged, rows, losses, firstId)
  {
    hide DraftLossRow, ReportLoss;
    var events: seq<EvidenceEvent> := [];
    for i := 0 to |staged|
      invariant PromotedEvidence(staged[..i], rows, losses, firstId) == Success(events)
    {
      assert staged[..i + 1][..i] == staged[..i];
      var e := staged[i];
      var row := DraftLossRow(rows, e.lossRow);
      if row.None? {
        EvidenceStaysRefused(staged, rows, losses, firstId, i + 1);
        return Failure(NotFound);
      }
      var loss := ReportLoss(losses, row.value.loss);
      if loss.None? {
        EvidenceStaysRefused(staged, rows, losses, firstId, i + 1);
        return Failure(NotFound);
      }
      events := events + [EvidenceEvent(firstId + i, e.row, loss.value.id, e.kind, e.mime, e.status, e.uploadedBy)];
    }
    assert staged[..|staged|] == staged;
    return Success(events);
  }

  // ----- The repository -----

  class Submissions {
    const db: Database

    constructor (db: Database)
      ensures this.db == db
    {
      this.db := db;
    }

    /** Turns the rows of a draft into the rows of a report. */
    method PromoteDraftChildren(tx: Tables, request: SubmitRequest, threshold: string, firstId: Id)
      returns (r: Result<Children, Error>)
      requires ShiftsOk(tx.shifts) && request.shift in tx.shifts && request.draft in tx.draftRows
      ensures r == PromotedChildren(tx, request, threshold, firstId)
    {
      hide PromotedReadings, CarriedReadings, PromotedLosses, PromotedSales, PromotedEvidence, EvidenceValid, ShiftsOk;
      var shift, rows := tx.shifts[request.shift], tx.draftRows[request.draft];
      if request.payload.None? {
        return Failure(InvalidRequest);
      }
      var payload := request.payload.value;
      var readings;
      if shift.backfill.Some? {
        readings := CarryReadings(tx, shift, firstId);
      } else {
        readings := PromoteReadings(tx, request.shift, shift, rows.readings, payload, request.policies, threshold, firstId);
      }
      if readings.Failure? {
        return Failure(readings.error);
      }
      var saleId := firstId + |readings.value|;
      var sales := PromoteSales(rows.sales, saleId);
      var lossId := saleId + |rows.sales|;
      var losses := PromoteLosses(rows.losses, payload.losses, tx.lossIds, lossId);
      if losses.Failure? {
        return Failure(losses.error);
      }
      if PolicyOf(request).Some? {
        var ok := ValidateStagedEvidence(PolicyOf(request).value, rows.losses, rows.evidence);
        if !ok {
          return Failure(EvidenceRejected);
        }
      }
      var evidence := PromoteEvidence(rows.evidence, rows.losses, losses.value, lossId + |rows.losses|);
      if evidence.Failure? {
        return Failure(evidence.error);
      }
      return Success(Children(readings.value, sales, losses.value, evidence.value));
    }

    /** The idempotency row a submission works under, new or taken over. */
    method TakeIdempotency(tx: Tables, request: SubmitRequest, now: Time) returns (row: Idem)
      requires IdemKey(request.station, request.shift, request.key) in tx.idem ==>
                 tx.idem[IdemKey(request.station, request.shift, request.key)].requestHash == request.requestHash
      ensures forall report :: row.(status := Succeeded, result := Some(report), lease := None) == SucceededRow(tx, request, report)
    {
      var k := IdemKey(request.station, request.shift, request.key);
      if k in tx.idem {
        row := tx.idem[k].(status := InProgress, token := Some(request.token), lease := Some(now + SUBMIT_LEASE),
                           attempts := tx.idem[k].attempts + 1);
      } else {
        row := Idem(request.requestHash, InProgress, Some(request.token), Some(now + SUBMIT_LEASE), 1, None);
      }
    }

    /** What an earlier attempt under the same key means for this one. */
    method CheckRow(tx: Tables, request: SubmitRequest, now: Time) returns (p: Precheck)
      ensures p == CheckIdempotency(tx, request, now)
      ensures p.Proceed? && IdemKey(request.station, request.shift, request.key) in tx.idem ==>
                tx.idem[IdemKey(request.station, request.shift, request.key)].requestHash == request.requestHash
      ensures p.Replay? ==>
                var k := IdemKey(request.station, request.shift, request.key);
                k in tx.idem && tx.idem[k].status == Succeeded && tx.idem[k].result == Some(p.report)
    {
      var k := IdemKey(request.station, request.shift, request.key);
      if k in tx.idem {
        var row := tx.idem[k];
        if row.requestHash != request.requestHash || row.status == Failed {
          return Conflict;
        }
        if row.status == Succeeded && row.result.Some? {
          return Replay(row.result.value);
        }
        if row.status == InProgress && row.lease.Some? && row.lease.value > now {
          return Conflict;
        }
        if row.status == InProgress && (row.token.None? || row.lease.None? || row.lease.value >= now) {
          return Conflict;
        }
      }
      return Proceed;
    }

    /** The shift is open and the caller holds its draft at the revision it saw. */
    method CheckDraft(shift: Shift, draft: Draft, request: SubmitRequest, now: Time) returns (ok: bool)
      ensures ok <==> && shift.status == Open && Holds(draft, request.actor, request.token, now)
                      && draft.revision == request.revision
    {
      if shift.status != Open {
        return false;
      }
      if draft.token != Some(request.token) || draft.ownedBy != Some(request.actor) || draft.expires.None?
         || draft.expires.value <= now {
        return false;
      }
      return draft.revision == request.revision;
    }

    /** Writes the report with its rows and closes the shift, the draft and the idempotency row. */
    method StoreReport(before: Tables, request: SubmitRequest, report: Id, children: Children, idem: Idem, now: Time) returns (tx: Tables)
      requires request.shift in before.shifts && request.draft in before.drafts
      requires idem.(status := Succeeded, result := Some(report), lease := None) == SucceededRow(before, request, report)
      ensures tx == WithReport(before, request, report, children, now)
    {
      hide SucceededRow;
      var reports := before.reports[report := Report(request.shift, 1, None, request.actor)];
      var heads := before.heads[report := None];
      var rows := before.children[report := children];
      var lossIds := before.lossIds + LossIds(children.losses);
      var shifts := before.shifts[request.shift := before.shifts[request.shift].(status := AwaitingConfirmation,
                                                                                 current := Some(report), closedAt := Some(now))];
      var drafts := before.drafts[request.draft := before.drafts[request.draft].(status := Handed, token := None, expires := None)];
      var row := idem.(status := Succeeded, result := Some(report), lease := None);
      tx := before.(nextId := report + 1 + children.Count(), reports := reports, heads := heads, children := rows,
                    lossIds := lossIds, shifts := shifts, drafts := drafts,
                    idem := before.idem[IdemKey(request.station, request.shift, request.key) := row]);
    }

    /** One attempt: refused, answered with the earlier report, or carried out in full. */
    method SubmitInTransaction(request: SubmitRequest, now: Time) returns (r: Result<Submission, Error>)
      requires ShiftsOk(db.tables.shifts)
      modifies db
      ensures Ends(old(db.tables), Submitted(old(db.tables), request, now), db.tables, r)
      ensures r.Success? ==>
                var k := IdemKey(request.station, request.shift, request.key);
                && k in db.tables.idem && db.tables.idem[k].status == Succeeded
                && db.tables.idem[k].result == Some(r.value.report)
                && (r.value.replay <==> db.tables == old(db.tables))
                && (!r.value.replay ==> r.value.report == old(db.tables.nextId))
    {
      hide PromotedChildren, ShiftsOk, CheckIdempotency, Holds;
      var tx := db.tables;
      if request.station !in tx.enabled {
        return Failure(ScopeDisabled);
      }
      if request.shift !in tx.shifts || tx.shifts[request.shift].station != request.station {
        return Failure(NotFound);
      }
      if request.draft !in tx.drafts || tx.drafts[request.draft].shift != request.shift || request.draft !in tx.draftRows {
        return Failure(NotFound);
      }
      var earlier := CheckRow(tx, request, now);
      if earlier.Conflict? {
        return Failure(IdempotencyConflict);
      }
      if earlier.Replay? {
        return Success(Submission(earlier.report, true));
      }
      var ok := CheckDraft(tx.shifts[request.shift], tx.drafts[request.draft], request, now);
      if !ok {
        return Failure(IdempotencyConflict);
      }
      var idem := TakeIdempotency(tx, request, now);
      if request.policies.threshold.None? || request.policies.evidence.Failure? {
        return Failure(InvalidRequest);
      }
      var report := tx.nextId;
      var children := PromoteDraftChildren(tx, request, request.policies.threshold.value, report + 1);
      if children.Failure? {
        return Failure(children.error);
      }
      if !request.policies.varianceRecorded {
        return Failure(InvalidRequest);
      }
      db.tables := StoreReport(tx, request, report, children.value, idem, now);
      return Success(Submission(report, false));
    }

    /** Notes a failed attempt, in a transaction of its own. */
    method MarkSubmitFailed(station: Station, shift: Id, key: string, requestHash: Digest) returns (r: Result<(), Error>)
      modifies db
      ensures Ends(old(db.tables), MarkedFailed(old(db.tables), IdemKey(station, shift, key), requestHash), db.tables, r)
    {
      var tx := db.tables;
      var k := IdemKey(station, shift, key);
      if k !in tx.idem {
        if shift !in tx.shifts || tx.shifts[shift].station != station {
          return Failure(ConstraintViolation);
        }
        tx := tx.(idem := tx.idem[k := Idem(requestHash, Failed, None, None, 1, None)]);
      } else if tx.idem[k].requestHash != requestHash || tx.idem[k].status == Succeeded {
        return Success(());
      } else {
        tx := tx.(idem := tx.idem[k := tx.idem[k].(status := Failed, lease := None)]);
      }
      db.tables := tx;
      return Success(());
    }

    /** A call that nothing interleaves: one attempt, and a note when it failed with anything but a conflict. */
    method Submit(request: SubmitRequest, now: Time) returns (r: Result<Submission, Error>)
      requires ShiftsOk(db.tables.shifts)
      modifies db
      ensures match Submitted(old(db.tables), request, now)
              case Success(t) =>
                var k := IdemKey(request.station, request.shift, request.key);
                && r.Success? && db.tables == t && (r.value.replay <==> t == old(db.tables))
                && k in t.idem && t.idem[k].result == Some(r.value.report)
              case Failure(e) =>
                && r == Failure(e)
                && db.tables == (if e == IdempotencyConflict then old(db.tables)
                                 else
                                   var marked := MarkedFailed(old(db.tables), IdemKey(request.station, request.shift, request.key), request.requestHash);
                                   if marked.Success? then marked.value else old(db.tables))
    {
      hide Submitted, MarkedFailed, ShiftsOk;
      r := SubmitInTransaction(request, now);
      if r.Failure? && r.error != IdempotencyConflict {
        var marked := MarkSubmitFailed(request.station, request.shift, request.key, request.requestHash);
      }
    }
  }
}
