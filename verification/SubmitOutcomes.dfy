/** When a submission is carried out, answered again or refused as a conflict, and what it takes for good. */
module SubmitOutcomes {
  import opened Wrappers
  import opened DecimalText
  import opened Reconciliation
  import opened LedgerTables
  import opened DraftSteps
  import opened SubmitSteps
  import opened GovernanceSteps
  import opened LedgerLookups
  import opened LedgerInvariant
  import opened LedgerSteps
  import opened LedgerRuns
  import opened DraftTheorems
  import opened LedgerOrigins
  import opened DraftOutcomes
  import opened SubmissionTheorems

  // ----- Readings -----

  /** Two texts of one number. */
  predicate SameNumber(a: string, b: string) {
    IsDecimal(a) && IsDecimal(b) && Value(a) == Value(b)
  }

  /** A start continues from the reset when there is one, else from the baseline, else from the predecessor's end. */
  predicate StartFits(start: string, c: Continuity) {
    && IsDecimal(start)
    && (c.resetValue != "" ==> SameNumber(start, c.resetValue))
    && (c.resetValue == "" && c.baselineValue != "" ==> SameNumber(start, c.baselineValue))
    && (c.resetValue == "" && c.baselineValue == "" && c.predecessorEnd != "" ==> SameNumber(start, c.predecessorEnd))
  }

  lemma StartFitsIff(start: string, c: Continuity)
    ensures ValidateMeterStart(start, c.predecessorEnd, c.resetValue, c.baselineValue).None? <==> StartFits(start, c)
  {
    hide IsDecimal, Value;
  }

  /** The meters a reading is reported with: what was submitted for its nozzle, where anything was, else what was written. */
  function StartOf(row: DraftReading, input: Option<InputReading>): string {
    if input.Some? && input.value.meterStart != "" then input.value.meterStart else row.meterStart
  }

  function EndOf(row: DraftReading, input: Option<InputReading>): string {
    if input.Some? && input.value.meterEnd != "" then input.value.meterEnd else row.meterEnd
  }

  /** The nozzle is in the catalogue, its start continues the chain, and distance and sale can be calculated. */
  predicate ReadingPasses(shift: Shift, row: DraftReading, input: Option<InputReading>, c: Continuity, threshold: string) {
    && SnapshotItem(shift.catalog, row.nozzle).Some?
    && var item := SnapshotItem(shift.catalog, row.nozzle).value;
    && StartFits(StartOf(row, input), c)
    && var delta := CalculateMeterDelta(StartOf(row, input), EndOf(row, input), item.modulus, threshold);
    && delta.Success? && CalculateExpectedSaleRupiah(delta.value, item.price).Success?
  }

  lemma ReadingPassesIff(shift: Shift, row: DraftReading, input: Option<InputReading>, c: Continuity, threshold: string, id: Id)
    ensures PromotedReading(shift, row, input, c, threshold, id).Success? <==> ReadingPasses(shift, row, input, c, threshold)
  {
    hide SnapshotItem, StartFits, ValidateMeterStart, CalculateMeterDelta, CalculateExpectedSaleRupiah;
    StartFitsIff(StartOf(row, input), c);
  }

  ghost predicate ReadingsPass(t: Tables, s: Id, shift: Shift, rows: seq<DraftReading>, payload: Payload, policies: Policies, threshold: string) {
    forall i | 0 <= i < |rows| ::
      ReadingPasses(shift, rows[i], InputFor(payload.readings, rows[i].nozzle), ContinuityOf(t, s, shift, rows[i].nozzle, policies), threshold)
  }

  lemma {:induction false} ReadingsPassIff(t: Tables, s: Id, shift: Shift, rows: seq<DraftReading>, payload: Payload,
                                           policies: Policies, threshold: string, firstId: Id)
    ensures PromotedReadings(t, s, shift, rows, payload, policies, threshold, firstId).Success?
            <==> ReadingsPass(t, s, shift, rows, payload, policies, threshold)
  {
    hide ReadingPasses, PromotedReading, ContinuityOf, InputFor;
    if rows != [] {
      var last := |rows| - 1;
      ReadingsPassIff(t, s, shift, rows[..last], payload, policies, threshold, firstId);
      ReadingPassesIff(shift, rows[last], InputFor(payload.readings, rows[last].nozzle),
                       ContinuityOf(t, s, shift, rows[last].nozzle, policies), threshold, firstId + last);
      assert forall i | 0 <= i < last :: rows[..last][i] == rows[i];
    }
  }

  /** The last locked, reported shift before has a reading for the nozzle. */
  ghost predicate HasSource(t: Tables, shift: Shift, nozzle: Id) {
    var p := Predecessor(t.shifts, shift.station, shift.sequence, true);
    && p.Some? && t.shifts[p.value].current.value in t.children
    && ReadingFor(t.children[t.shifts[p.value].current.value].readings, nozzle).Some?
  }

  /** There is a reading to carry forward for every nozzle of the catalogue, which names none twice. */
  ghost predicate CanCarry(t: Tables, shift: Shift, items: seq<CatalogItem>) {
    && (forall i | 0 <= i < |items| :: HasSource(t, shift, items[i].nozzle))
    && (forall i, j | 0 <= i < j < |items| :: items[i].nozzle != items[j].nozzle)
  }

  lemma {:induction false} CanCarryIff(t: Tables, shift: Shift, items: seq<CatalogItem>, firstId: Id)
    ensures CarriedReadings(t, shift, items, firstId).Success? <==> CanCarry(t, shift, items)
    ensures CarriedReadings(t, shift, items, firstId).Success? ==>
              var done := CarriedReadings(t, shift, items, firstId).value;
              |done| == |items| && forall i | 0 <= i < |items| :: done[i].nozzle == items[i].nozzle
  {
    hide ReadingFor, Predecessor;
    if items != [] {
      var last := |items| - 1;
      CanCarryIff(t, shift, items[..last], firstId);
      assert forall i | 0 <= i < last :: items[..last][i] == items[i];
      if HasSource(t, shift, items[last].nozzle) {
        var p := Predecessor(t.shifts, shift.station, shift.sequence, true);
        ReadingForIs(t.children[t.shifts[p.value].current.value].readings, items[last].nozzle);
        assert CanCarry(t, shift, items) <==>
               CanCarry(t, shift, items[..last]) && forall i | 0 <= i < last :: items[..last][i].nozzle != items[last].nozzle;
      } else {
        assert !CanCarry(t, shift, items);
      }
    }
  }

  // ----- Losses and evidence -----

  /** The submission names a nozzle for every loss, and no loss was or is reported twice. */
  predicate LossesPass(rows: seq<DraftLoss>, inputs: seq<InputLoss>, taken: set<Id>) {
    && (forall i | 0 <= i < |rows| ::
          LossInputFor(inputs, rows[i].loss).Some? && LossInputFor(inputs, rows[i].loss).value.nozzle != 0 && rows[i].loss !in taken)
    && (forall i, j | 0 <= i < j < |rows| :: rows[i].loss != rows[j].loss)
  }

  lemma {:induction false} LossesPassIff(rows: seq<DraftLoss>, inputs: seq<InputLoss>, taken: set<Id>, firstId: Id)
    ensures PromotedLosses(rows, inputs, taken, firstId).Success? <==> LossesPass(rows, inputs, taken)
    ensures PromotedLosses(rows, inputs, taken, firstId).Success? ==>
              var done := PromotedLosses(rows, inputs, taken, firstId).value;
              |done| == |rows| && forall i | 0 <= i < |rows| :: done[i].loss == rows[i].loss
  {
    hide LossInputFor;
    if rows != [] {
      var last := |rows| - 1;
      LossesPassIff(rows[..last], inputs, taken, firstId);
      assert forall i | 0 <= i < last :: rows[..last][i] == rows[i];
    }
  }

  /** Every staged object belongs to a loss row of the draft. */
  predicate EvidencePasses(staged: seq<Staged>, rows: seq<DraftLoss>) {
    forall i | 0 <= i < |staged| :: exists j :: 0 <= j < |rows| && rows[j].row == staged[i].lossRow
  }

  lemma {:induction false} EvidencePassesIff(staged: seq<Staged>, rows: seq<DraftLoss>, losses: seq<Loss>, firstId: Id)
    requires |losses| == |rows| && forall i | 0 <= i < |rows| :: losses[i].loss == rows[i].loss
    ensures PromotedEvidence(staged, rows, losses, firstId).Success? <==> EvidencePasses(staged, rows)
  {
    hide DraftLossRow, ReportLoss;
    if staged != [] {
      var last := |staged| - 1;
      EvidencePassesIff(staged[..last], rows, losses, firstId);
      assert forall i | 0 <= i < last :: staged[..last][i] == staged[i];
      DraftLossIs(rows, staged[last].lossRow);
      if DraftLossRow(rows, staged[last].lossRow).Some? {
        var row := DraftLossRow(rows, staged[last].lossRow).value;
        var j :| 0 <= j < |rows| && rows[j] == row;
        assert losses[j].loss == row.loss;
        ReportLossIs(losses, row.loss);
      }
    }
  }

  // ----- The whole submission -----

  /** Every row the report would have passes its checks. */
  ghost predicate RowsPass(t: Tables, q: SubmitRequest)
    requires q.shift in t.shifts && q.draft in t.draftRows && q.payload.Some? && q.policies.threshold.Some?
  {
    var shift, rows := t.shifts[q.shift], t.draftRows[q.draft];
    && (if shift.backfill.Some? then CanCarry(t, shift, shift.catalog)
        else ReadingsPass(t, q.shift, shift, rows.readings, q.payload.value, q.policies, q.policies.threshold.value))
    && LossesPass(rows.losses, q.payload.value.losses, t.lossIds)
    && EvidencePasses(rows.evidence, rows.losses)
    && (q.policies.evidence.Success? && q.policies.evidence.value.Some? ==>
          EvidenceValid(q.policies.evidence.value.value, rows.losses, rows.evidence))
  }

  lemma RowsPassIff(t: Tables, q: SubmitRequest, firstId: Id)
    requires q.shift in t.shifts && q.draft in t.draftRows && q.policies.threshold.Some?
    ensures PromotedChildren(t, q, q.policies.threshold.value, firstId).Success? <==> q.payload.Some? && RowsPass(t, q)
  {
    hide PromotedReadings, CarriedReadings, PromotedLosses, PromotedEvidence, EvidenceValid, CanCarry, ReadingsPass, LossesPass,
      EvidencePasses;
    if q.payload.None? {
      return;
    }
    var shift, rows, threshold := t.shifts[q.shift], t.draftRows[q.draft], q.policies.threshold.value;
    ReadingsPassIff(t, q.shift, shift, rows.readings, q.payload.value, q.policies, threshold, firstId);
    CanCarryIff(t, shift, shift.catalog, firstId);
    var readings := if shift.backfill.Some? then CarriedReadings(t, shift, shift.catalog, firstId)
                    else PromotedReadings(t, q.shift, shift, rows.readings, q.payload.value, q.policies, threshold, firstId);
    if readings.Success? {
      var lossId := firstId + |readings.value| + |rows.sales|;
      LossesPassIff(rows.losses, q.payload.value.losses, t.lossIds, lossId);
      var losses := PromotedLosses(rows.losses, q.payload.value.losses, t.lossIds, lossId);
      if losses.Success? {
        EvidencePassesIff(rows.evidence, rows.losses, losses.value, lossId + |rows.losses|);
      }
    }
  }

  /** The enabled station has the shift, and the draft is the shift's. */
  predicate Loads(t: Tables, q: SubmitRequest) {
    && q.station in t.enabled && q.shift in t.shifts && t.shifts[q.shift].station == q.station
    && q.draft in t.drafts && t.drafts[q.draft].shift == q.shift && q.draft in t.draftRows
  }

  /** No attempt under the key counts: there is none, or one with this payload was left behind and its lease is over. */
  predicate KeyIsOpen(t: Tables, q: SubmitRequest, now: Time) {
    var k := IdemKey(q.station, q.shift, q.key);
    k in t.idem ==>
      && t.idem[k].requestHash == q.requestHash && t.idem[k].status == InProgress
      && t.idem[k].token.Some? && t.idem[k].lease.Some? && t.idem[k].lease.value < now
  }

  /** The key succeeded before with this payload. */
  predicate KeyIsDone(t: Tables, q: SubmitRequest) {
    var k := IdemKey(q.station, q.shift, q.key);
    k in t.idem && t.idem[k].requestHash == q.requestHash && t.idem[k].status == Succeeded
  }

  lemma KeyIff(t: Tables, q: SubmitRequest, now: Time)
    requires IdemOk(t.reports, t.idem)
    ensures CheckIdempotency(t, q, now).Proceed? <==> KeyIsOpen(t, q, now)
    ensures CheckIdempotency(t, q, now).Replay? <==> KeyIsDone(t, q)
  {
  }

  /** The caller holds the draft of the still open shift and saw its last revision. */
  predicate MaySubmit(t: Tables, q: SubmitRequest, now: Time)
    requires q.shift in t.shifts && q.draft in t.drafts
  {
    && t.shifts[q.shift].status == Open
    && IsHeld(t.drafts[q.draft], q.actor, q.token, now) && t.drafts[q.draft].revision == q.revision
  }

  /**
   A submission is carried out exactly when its rows are there, its key is open,
   the caller may submit, the policies could be read, every row passes, and the
   alerts could be evaluated. It is answered again exactly when its key is done.
   */
  lemma SubmittedIff(t: Tables, q: SubmitRequest, now: Time, hash: SnapshotHash)
    requires Inv(t, hash)
    ensures Submitted(t, q, now).Success? && CheckIdempotency(t, q, now).Proceed? <==>
            && Loads(t, q) && KeyIsOpen(t, q, now) && MaySubmit(t, q, now)
            && q.payload.Some? && q.policies.threshold.Some? && q.policies.evidence.Success? && q.policies.varianceRecorded
            && RowsPass(t, q)
    ensures Submitted(t, q, now).Success? && !CheckIdempotency(t, q, now).Proceed? <==> Loads(t, q) && KeyIsDone(t, q)
  {
    hide Inv, PromotedChildren, RowsPass, CheckIdempotency, KeyIsOpen, KeyIsDone;
    RowsOfInv(t, hash);
    KeyIff(t, q, now);
    if Loads(t, q) && q.policies.threshold.Some? {
      RowsPassIff(t, q, t.nextId + 1);
    }
  }

  lemma {:induction false} ReadingErrors(t: Tables, s: Id, shift: Shift, rows: seq<DraftReading>, payload: Payload,
                                         policies: Policies, threshold: string, firstId: Id)
    ensures PromotedReadings(t, s, shift, rows, payload, policies, threshold, firstId) != Failure(IdempotencyConflict)
  {
    hide SnapshotItem, ValidateMeterStart, CalculateMeterDelta, CalculateExpectedSaleRupiah, ContinuityOf, InputFor;
    if rows != [] {
      ReadingErrors(t, s, shift, rows[..|rows| - 1], payload, policies, threshold, firstId);
    }
  }

  lemma {:induction false} CarryErrors(t: Tables, shift: Shift, items: seq<CatalogItem>, firstId: Id)
    ensures CarriedReadings(t, shift, items, firstId) != Failure(IdempotencyConflict)
  {
    hide ReadingFor, Predecessor;
    if items != [] {
      CarryErrors(t, shift, items[..|items| - 1], firstId);
    }
  }

  lemma {:induction false} LossErrors(rows: seq<DraftLoss>, inputs: seq<InputLoss>, taken: set<Id>, firstId: Id)
    ensures PromotedLosses(rows, inputs, taken, firstId) != Failure(IdempotencyConflict)
  {
    hide LossInputFor;
    if rows != [] {
      LossErrors(rows[..|rows| - 1], inputs, taken, firstId);
    }
  }

  lemma {:induction false} EvidenceErrors(staged: seq<Staged>, rows: seq<DraftLoss>, losses: seq<Loss>, firstId: Id)
    ensures PromotedEvidence(staged, rows, losses, firstId) != Failure(IdempotencyConflict)
  {
    hide DraftLossRow, ReportLoss;
    if staged != [] {
      EvidenceErrors(staged[..|staged| - 1], rows, losses, firstId);
    }
  }

  /** What goes wrong with the rows is never reported as a conflict. */
  lemma NeverAConflict(t: Tables, q: SubmitRequest, now: Time)
    requires LoadError(t, q).None?
    ensures Promoted(t, q, now) != Failure(IdempotencyConflict)
  {
    hide PromotedReadings, CarriedReadings, PromotedLosses, PromotedEvidence, EvidenceValid;
    if q.payload.Some? && q.policies.threshold.Some? {
      var shift, rows, threshold, firstId := t.shifts[q.shift], t.draftRows[q.draft], q.policies.threshold.value, t.nextId + 1;
      ReadingErrors(t, q.shift, shift, rows.readings, q.payload.value, q.policies, threshold, firstId);
      CarryErrors(t, shift, shift.catalog, firstId);
      var readings := if shift.backfill.Some? then CarriedReadings(t, shift, shift.catalog, firstId)
                      else PromotedReadings(t, q.shift, shift, rows.readings, q.payload.value, q.policies, threshold, firstId);
      if readings.Success? {
        var lossId := firstId + |readings.value| + |rows.sales|;
        LossErrors(rows.losses, q.payload.value.losses, t.lossIds, lossId);
        var losses := PromotedLosses(rows.losses, q.payload.value.losses, t.lossIds, lossId);
        if losses.Success? {
          EvidenceErrors(rows.evidence, rows.losses, losses.value, lossId + |rows.losses|);
        }
      }
    }
  }

  /** It is refused as a conflict exactly when its rows are there, its key is not done, and the key is taken or the caller may not submit. */
  lemma ConflictIff(t: Tables, q: SubmitRequest, now: Time, hash: SnapshotHash)
    requires Inv(t, hash)
    ensures Submitted(t, q, now) == Failure(IdempotencyConflict) <==>
            Loads(t, q) && !KeyIsDone(t, q) && !(KeyIsOpen(t, q, now) && MaySubmit(t, q, now))
  {
    hide Inv, Promoted, CheckIdempotency, KeyIsOpen, KeyIsDone;
    RowsOfInv(t, hash);
    KeyIff(t, q, now);
    if Loads(t, q) {
      NeverAConflict(t, q, now);
    }
  }

  /**
   What a submission that is carried out does: the shift gets its first report
   and awaits its decision, the draft is handed in, the key is done, and the
   losses are taken; nothing else changes.
   */
  lemma SubmissionMeaning(t: Tables, q: SubmitRequest, now: Time, hash: SnapshotHash, t': Tables)
    requires Inv(t, hash) && Submitted(t, q, now) == Success(t') && CheckIdempotency(t, q, now).Proceed?
    ensures var r, k := t.nextId, IdemKey(q.station, q.shift, q.key);
            && r !in t.reports && r in t'.children && k in t'.idem && q.shift in t.shifts && q.draft in t.drafts
            && t' == t.(nextId := t'.nextId,
                        reports := t.reports[r := Report(q.shift, 1, None, q.actor)],
                        children := t.children[r := t'.children[r]],
                        heads := t.heads[r := None],
                        lossIds := t.lossIds + set i | 0 <= i < |t'.children[r].losses| :: t'.children[r].losses[i].loss,
                        shifts := t.shifts[q.shift := t.shifts[q.shift].(status := AwaitingConfirmation, current := Some(r),
                                                                         closedAt := Some(now))],
                        drafts := t.drafts[q.draft := t.drafts[q.draft].(status := Handed, token := None, expires := None)],
                        idem := t.idem[k := t'.idem[k]])
            && t'.idem[k] == Idem(q.requestHash, Succeeded, Some(q.token), None,
                                  if k in t.idem then t.idem[k].attempts + 1 else 1, Some(r))
  {
    hide Inv, PromotedChildren, CheckIdempotency, Holds;
    KeysOfInv(t, hash);
  }

  // ----- Losses are reported once -----

  /** No loss of the list occurs twice in it or is among the taken ones. */
  predicate AreNew(losses: seq<Loss>, taken: set<Id>) {
    && (forall i | 0 <= i < |losses| :: losses[i].loss !in taken)
    && (forall i, j | 0 <= i < j < |losses| :: losses[i].loss != losses[j].loss)
  }

  /** First versions report losses that are taken, and no loss twice. */
  ghost predicate LossesOk(reports: map<Id, Report>, children: map<Id, Children>, taken: set<Id>) {
    && (forall r, i | r in reports && r in children && reports[r].version == 1 && 0 <= i < |children[r].losses| ::
          children[r].losses[i].loss in taken)
    && (forall r, i, j | r in reports && r in children && reports[r].version == 1 && 0 <= i < j < |children[r].losses| ::
          children[r].losses[i].loss != children[r].losses[j].loss)
    && (forall r, u, i, j | r in reports && u in reports && r in children && u in children && r != u
                            && reports[r].version == 1 && reports[u].version == 1
                            && 0 <= i < |children[r].losses| && 0 <= j < |children[u].losses| ::
          children[r].losses[i].loss != children[u].losses[j].loss)
  }

  lemma NewReportKeepsLosses(reports: map<Id, Report>, children: map<Id, Children>, taken: set<Id>, r: Id, x: Report, c: Children)
    requires LossesOk(reports, children, taken) && r !in reports
    requires x.version == 1 ==> AreNew(c.losses, taken)
    ensures LossesOk(reports[r := x], children[r := c], if x.version == 1 then taken + LossIds(c.losses) else taken)
  {
  }

  lemma PromotedLossesAreNew(t: Tables, q: SubmitRequest, firstId: Id)
    requires q.shift in t.shifts && q.draft in t.draftRows && q.policies.threshold.Some?
    requires PromotedChildren(t, q, q.policies.threshold.value, firstId).Success?
    ensures AreNew(PromotedChildren(t, q, q.policies.threshold.value, firstId).value.losses, t.lossIds)
  {
    hide PromotedReadings, CarriedReadings, PromotedLosses, PromotedEvidence, EvidenceValid;
    var shift, rows, threshold := t.shifts[q.shift], t.draftRows[q.draft], q.policies.threshold.value;
    var readings := if shift.backfill.Some? then CarriedReadings(t, shift, shift.catalog, firstId)
                    else PromotedReadings(t, q.shift, shift, rows.readings, q.payload.value, q.policies, threshold, firstId);
    LossesPassIff(rows.losses, q.payload.value.losses, t.lossIds, firstId + |readings.value| + |rows.sales|);
  }

  lemma SubmittedChildren(t: Tables, q: SubmitRequest, now: Time)
    requires Submitted(t, q, now).Success?
    ensures var t' := Submitted(t, q, now).value;
            if CheckIdempotency(t, q, now).Proceed? then
              && t.nextId in t'.children && t'.children == t.children[t.nextId := t'.children[t.nextId]]
              && t'.lossIds == t.lossIds + LossIds(t'.children[t.nextId].losses)
              && AreNew(t'.children[t.nextId].losses, t.lossIds)
            else t' == t
  {
    hide PromotedChildren, CheckIdempotency, Holds, AreNew;
    if CheckIdempotency(t, q, now).Proceed? {
      PromotedLossesAreNew(t, q, t.nextId + 1);
    }
  }

  lemma ApprovedChildren(t: Tables, q: ApproveRequest, hash: SnapshotHash, now: Time)
    requires AmendmentApproved(t, q, hash, now).Success?
    ensures var t' := AmendmentApproved(t, q, hash, now).value;
            && t'.lossIds == t.lossIds
            && t.nextId in t'.children && t'.children == t.children[t.nextId := t'.children[t.nextId]]
  {
    hide ApproveError, CopiedChildren, StationIsFree;
  }

  lemma OtherChildren(t: Tables, e: Event, hash: SnapshotHash)
    requires !e.step.Submit? && !e.step.ApproveAmendment?
    ensures Next(t, e, hash).children == t.children && Next(t, e, hash).lossIds == t.lossIds
  {
    hide Next;
    if IsRowStep(e.step) {
      MarkFrame(t, e, hash);
    } else if IsGovernance(e.step) {
      GovernanceFrame(t, e, hash);
    } else {
      DraftStepsFrame(t, e, hash);
    }
  }

  lemma LaterVersion(t: Tables, q: ApproveRequest, hash: SnapshotHash, now: Time)
    requires Inv(t, hash) && AmendmentApproved(t, q, hash, now).Success?
    ensures q.amendment in t.amendments && t.amendments[q.amendment].base in t.reports
    ensures t.reports[t.amendments[q.amendment].base].version >= 1
  {
    hide KeysOk, ShiftsOk, DraftsOk, RevisionsOk, CurrentOk, HeadsOk, StatusOk, DecisionsOk, SeparationOk,
      PendingOk, DigestsOk, AppliedOk, OriginOk, IdemOk, IdemKeysOk, ItemsOk, RowIdsOk;
    ApprovedReports(t, q, hash, now);
    hide AmendmentApproved;
  }

  lemma FreshReport(t: Tables)
    requires KeysOk(t)
    ensures t.nextId !in t.reports
  {
  }

  lemma StepKeepsLosses(t: Tables, e: Event, hash: SnapshotHash)
    requires Inv(t, hash) && LossesOk(t.reports, t.children, t.lossIds)
    ensures var t' := Next(t, e, hash); LossesOk(t'.reports, t'.children, t'.lossIds)
  {
    hide Inv, ShiftOpened, DraftClaimed, LeaseExtended, RowWritten, Submitted, MarkedFailed, LeftInProgress,
      Acknowledged, AmendmentRequested, AmendmentRejected, AmendmentApproved, CheckIdempotency, LossesOk, AreNew;
    KeysOfInv(t, hash);
    FreshReport(t);
    var t' := Next(t, e, hash);
    if e.step.Submit? && Outcome(t, e, hash).Success? {
      SubmittedReports(t, e.step.submit, e.now);
      SubmittedChildren(t, e.step.submit, e.now);
      if CheckIdempotency(t, e.step.submit, e.now).Proceed? {
        NewReportKeepsLosses(t.reports, t.children, t.lossIds, t.nextId, t'.reports[t.nextId], t'.children[t.nextId]);
      }
    } else if e.step.ApproveAmendment? && Outcome(t, e, hash).Success? {
      ApprovedReports(t, e.step.approve, hash, e.now);
      ApprovedChildren(t, e.step.approve, hash, e.now);
      LaterVersion(t, e.step.approve, hash, e.now);
      NewReportKeepsLosses(t.reports, t.children, t.lossIds, t.nextId, t'.reports[t.nextId], t'.children[t.nextId]);
    } else if Outcome(t, e, hash).Success? {
      hide Next;
      OtherChildren(t, e, hash);
      OtherReports(t, e, hash);
    }
  }

  lemma {:induction false} RunKeepsLosses(t: Tables, run: seq<Event>, hash: SnapshotHash)
    requires Inv(t, hash) && LossesOk(t.reports, t.children, t.lossIds)
    ensures var t' := After(t, run, hash); LossesOk(t'.reports, t'.children, t'.lossIds)
  {
    hide Inv, After, Next, LossesOk;
    AfterStart(t, hash);
    if run != [] {
      var front := run[..|run| - 1];
      RunKeepsLosses(t, front, hash);
      RunKeeps(t, front, hash);
      AfterLast(t, run, hash);
      StepKeepsLosses(After(t, front, hash), run[|run| - 1], hash);
    }
  }

  lemma InitialLosses(t: Tables)
    requires IsInitial(t)
    ensures LossesOk(t.reports, t.children, t.lossIds)
  {
  }

  lemma RowsOfTwo(t: Tables, r: Id, u: Id, hash: SnapshotHash)
    requires Inv(t, hash) && r in t.reports && u in t.reports
    ensures r in t.children && u in t.children
  {
    hide ShiftsOk, DraftsOk, RevisionsOk, ReportsOk, CurrentOk, HeadsOk, StatusOk, DecisionsOk, SeparationOk,
      PendingOk, DigestsOk, AppliedOk, OriginOk, IdemOk, IdemKeysOk, ItemsOk, RowIdsOk;
  }

  lemma OneRow(reports: map<Id, Report>, children: map<Id, Children>, taken: set<Id>, r: Id, u: Id, i: nat, j: nat)
    requires LossesOk(reports, children, taken) && r in reports && u in reports && r in children && u in children
    requires reports[r].version == 1 && reports[u].version == 1 && i < |children[r].losses| && j < |children[u].losses|
    requires children[r].losses[i].loss == children[u].losses[j].loss
    ensures r == u && i == j
  {
  }

  /** In every reachable state a loss is reported by at most one row of one first version. */
  lemma LossesAreReportedOnce(t0: Tables, run: seq<Event>, r: Id, u: Id, i: nat, j: nat, hash: SnapshotHash)
    requires IsInitial(t0) && r in After(t0, run, hash).reports && u in After(t0, run, hash).reports
    ensures var t := After(t0, run, hash);
            && r in t.children && u in t.children
            && (t.reports[r].version == 1 && t.reports[u].version == 1
                && i < |t.children[r].losses| && j < |t.children[u].losses|
                && t.children[r].losses[i].loss == t.children[u].losses[j].loss
                ==> r == u && i == j)
  {
    hide *;
    var t := After(t0, run, hash);
    InitialIsGood(t0, hash);
    InitialLosses(t0);
    RunKeeps(t0, run, hash);
    RunKeepsLosses(t0, run, hash);
    RowsOfTwo(t, r, u, hash);
    if t.reports[r].version == 1 && t.reports[u].version == 1 && i < |t.children[r].losses| && j < |t.children[u].losses|
       && t.children[r].losses[i].loss == t.children[u].losses[j].loss {
      OneRow(t.reports, t.children, t.lossIds, r, u, i, j);
    }
  }
}
