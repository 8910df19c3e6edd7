/** What submissions keep along every run: final outcomes, one report for each shift, nothing lost on the way. */
module SubmissionTheorems {
  import opened Wrappers
  import opened Reconciliation
  import opened LedgerTables
  import opened DraftSteps
  import opened SubmitSteps
  import opened GovernanceSteps
  import opened LedgerLookups
  import opened LedgerInvariant
  import opened LedgerSteps
  import opened LedgerRuns

  // ----- Idempotency -----

  /** The report a successful submission answers with. */
  ghost function SubmitResult(t: Tables, q: SubmitRequest, now: Time): Id
    requires Submitted(t, q, now).Success?
  {
    var check := CheckIdempotency(t, q, now);
    if check.Replay? then check.report else t.nextId
  }

  lemma SubmitKeepsOutcome(t: Tables, q: SubmitRequest, now: Time, k: IdemKey)
    requires k in t.idem && Submitted(t, q, now).Success?
    ensures var t' := Submitted(t, q, now).value;
            && k in t'.idem
            && (t.idem[k].status == Succeeded && t.idem[k].result.Some? ==> t'.idem[k] == t.idem[k])
            && (t.idem[k].status == Failed ==> t'.idem[k].status == Failed)
  {
    hide PromotedChildren, LoadError, Holds;
  }

  lemma MarkedRow(idem: map<IdemKey, Idem>, marked: IdemKey, requestHash: Digest, k: IdemKey)
    requires k in idem
    ensures var idem' := MarkedRows(idem, marked, requestHash);
            && k in idem' && (idem[k].status == Succeeded ==> idem'[k] == idem[k])
            && (idem[k].status == Failed ==> idem'[k].status == Failed)
  {
  }

  /** A step leaves a succeeded row as it is and keeps a failed row failed. */
  lemma StepKeepsOutcome(t: Tables, e: Event, k: IdemKey, hash: SnapshotHash)
    requires k in t.idem
    ensures k in Next(t, e, hash).idem
    ensures t.idem[k].status == Succeeded && t.idem[k].result.Some? ==> Next(t, e, hash).idem[k] == t.idem[k]
    ensures t.idem[k].status == Failed ==> Next(t, e, hash).idem[k].status == Failed
  {
    hide Next, Submitted, MarkedRows;
    if e.step.Submit? {
      SubmitFrame(t, e, hash);
      if Submitted(t, e.step.submit, e.now).Success? {
        SubmitKeepsOutcome(t, e.step.submit, e.now, k);
      }
    } else if IsRowStep(e.step) {
      MarkFrame(t, e, hash);
      if e.step.MarkFailed? {
        MarkedRow(t.idem, e.step.failed, e.step.requestHash, k);
      }
    } else if IsGovernance(e.step) {
      GovernanceFrame(t, e, hash);
    } else {
      DraftStepsFrame(t, e, hash);
    }
  }

  /** Along any run a finished submission keeps its outcome. */
  lemma {:induction false} OutcomeIsFinal(t: Tables, run: seq<Event>, k: IdemKey, hash: SnapshotHash)
    requires k in t.idem
    ensures k in After(t, run, hash).idem
    ensures t.idem[k].status == Succeeded && t.idem[k].result.Some? ==> After(t, run, hash).idem[k] == t.idem[k]
    ensures t.idem[k].status == Failed ==> After(t, run, hash).idem[k].status == Failed
  {
    hide Next;
    if run != [] {
      OutcomeIsFinal(t, run[..|run| - 1], k, hash);
      StepKeepsOutcome(After(t, run[..|run| - 1], hash), run[|run| - 1], k, hash);
    }
  }

  /** After a success the row of its key is on record with the report it answered. */
  lemma SuccessIsRecorded(t: Tables, q: SubmitRequest, now: Time, hash: SnapshotHash)
    requires Inv(t, hash) && Submitted(t, q, now).Success?
    ensures var t', k := Submitted(t, q, now).value, IdemKey(q.station, q.shift, q.key);
            && k in t'.idem && t'.idem[k].status == Succeeded
            && t'.idem[k].result == Some(SubmitResult(t, q, now))
            && t'.idem[k].requestHash == q.requestHash
  {
    hide Inv, PromotedChildren, Holds;
  }

  /** A replay answers the recorded report and changes no table; a changed payload or a failed key conflicts. */
  lemma ReplayChangesNothing(t: Tables, q: SubmitRequest, now: Time)
    requires LoadError(t, q).None? && IdemKey(q.station, q.shift, q.key) in t.idem
    ensures var row := t.idem[IdemKey(q.station, q.shift, q.key)];
            && (row.status == Succeeded && row.result.Some? && row.requestHash == q.requestHash ==>
                  Submitted(t, q, now) == Success(t) && SubmitResult(t, q, now) == row.result.value)
            && (row.requestHash != q.requestHash || row.status == Failed ==>
                  Submitted(t, q, now) == Failure(IdempotencyConflict))
  {
    hide PromotedChildren;
  }

  // ----- Failed attempts -----

  function KeyOf(q: SubmitRequest): IdemKey {
    IdemKey(q.station, q.shift, q.key)
  }

  /** The tables after the note on a failed attempt; a note that breaks a constraint leaves nothing. */
  function Noted(t: Tables, q: SubmitRequest): Tables {
    var r := MarkedFailed(t, KeyOf(q), q.requestHash);
    if r.Success? then r.value else t
  }

  predicate IsClosed(t: Tables, k: IdemKey) {
    k in t.idem && t.idem[k].status == Failed
  }

  /** The station has the shift, and the key has no row, a failed row, or an unsuccessful row of the same payload. */
  predicate IsClosable(t: Tables, q: SubmitRequest) {
    var k := KeyOf(q);
    && HoldsShift(t.shifts, q.station, q.shift)
    && (k in t.idem ==> t.idem[k].status == Failed || (t.idem[k].requestHash == q.requestHash && t.idem[k].status != Succeeded))
  }

  lemma MarkedRowFails(idem: map<IdemKey, Idem>, k: IdemKey, requestHash: Digest)
    ensures var idem' := MarkedRows(idem, k, requestHash);
            k in idem' && (idem'[k].status == Failed <==>
                           k !in idem || idem[k].status == Failed || (idem[k].requestHash == requestHash && idem[k].status != Succeeded))
  {
  }

  /** A note closes its key exactly when the key can be closed. */
  lemma NoteCloses(t: Tables, q: SubmitRequest)
    requires IdemKeysOk(t.shifts, t.idem)
    ensures IsClosed(Noted(t, q), KeyOf(q)) <==> IsClosable(t, q)
  {
    hide MarkedRows;
    MarkedRowFails(t.idem, KeyOf(q), q.requestHash);
  }

  /** A note fails the row of its key and ends its lease, unless the row is another payload's or succeeded; nothing else changes. */
  lemma NoteMeaning(t: Tables, q: SubmitRequest)
    requires IdemKeysOk(t.shifts, t.idem)
    ensures var k, t' := KeyOf(q), Noted(t, q);
            if k !in t.idem then
              t' == if HoldsShift(t.shifts, q.station, q.shift) then t.(idem := t.idem[k := Idem(q.requestHash, Failed, None, None, 1, None)])
                    else t
            else
              t' == if t.idem[k].requestHash == q.requestHash && t.idem[k].status != Succeeded then
                      t.(idem := t.idem[k := t.idem[k].(status := Failed, lease := None)])
                    else t
  {
  }

  /** An attempt that failed after its rows were loaded, with anything but a conflict, leaves its key closable. */
  lemma LoadedAttemptIsClosable(t: Tables, q: SubmitRequest, now: Time, e: Error)
    requires IdemOk(t.reports, t.idem) && LoadError(t, q).None?
    requires Submitted(t, q, now) == Failure(e) && e != IdempotencyConflict
    ensures IsClosable(t, q)
  {
    hide PromotedChildren, Holds;
  }

  lemma RefusedLoading(t: Tables, q: SubmitRequest, now: Time)
    requires LoadError(t, q).Some?
    ensures Submitted(t, q, now) == Failure(LoadError(t, q).value)
  {
    hide LoadError, CheckIdempotency, Promoted;
  }

  /** Under a closed key every later submission is refused, by the loading of its rows or as a conflict. */
  lemma ClosedKeyStaysClosed(t: Tables, run: seq<Event>, q: SubmitRequest, now: Time, hash: SnapshotHash)
    requires IsClosed(t, KeyOf(q))
    ensures var later := After(t, run, hash);
            && IsClosed(later, KeyOf(q))
            && Submitted(later, q, now)
               == Failure(if LoadError(later, q).Some? then LoadError(later, q).value else IdempotencyConflict)
  {
    hide After, Submitted, LoadError;
    OutcomeIsFinal(t, run, KeyOf(q), hash);
    var later := After(t, run, hash);
    if LoadError(later, q).None? {
      ReplayChangesNothing(later, q, now);
    } else {
      RefusedLoading(later, q, now);
    }
  }

  lemma NothingRan(t: Tables, hash: SnapshotHash)
    ensures After(t, [], hash) == t
  {
    hide Next;
  }

  /**
   When an attempt fails with anything but a conflict, the note that follows,
   after whatever ran in between, closes the key if and only if the key can be
   closed by then; when nothing ran in between and the attempt had loaded its
   rows, it always can. A closed key never submits again.
   */
  lemma FailedAttemptIsFinal(t: Tables, q: SubmitRequest, now: Time, e: Error, between: seq<Event>, run: seq<Event>,
                             q': SubmitRequest, now': Time, hash: SnapshotHash)
    requires Inv(t, hash) && Submitted(t, q, now) == Failure(e) && e != IdempotencyConflict && KeyOf(q') == KeyOf(q)
    ensures var noted := Noted(After(t, between, hash), q);
            var later := After(noted, run, hash);
            && (IsClosed(noted, KeyOf(q)) <==> IsClosable(After(t, between, hash), q))
            && (between == [] && LoadError(t, q).None? ==> IsClosed(noted, KeyOf(q)))
            && (IsClosed(noted, KeyOf(q)) ==>
                  Submitted(later, q', now')
                  == Failure(if LoadError(later, q').Some? then LoadError(later, q').value else IdempotencyConflict))
  {
    hide *;
    var t1 := After(t, between, hash);
    RunKeeps(t, between, hash);
    RowsOfInv(t, hash);
    RowsOfInv(t1, hash);
    NoteCloses(t1, q);
    if LoadError(t, q).None? {
      LoadedAttemptIsClosable(t, q, now, e);
    }
    if between == [] {
      NothingRan(t, hash);
    }
    if IsClosed(Noted(t1, q), KeyOf(q)) {
      ClosedKeyStaysClosed(Noted(t1, q), run, q', now', hash);
    }
  }

  // ----- Successful attempts -----

  lemma RowNamesFirstVersion(t: Tables, k: IdemKey)
    requires IdemOk(t.reports, t.idem) && k in t.idem && t.idem[k].status == Succeeded
    ensures t.idem[k].result.Some? && t.idem[k].result.value in t.reports
    ensures t.reports[t.idem[k].result.value].shift == k.shift && t.reports[t.idem[k].result.value].version == 1
  {
  }

  lemma NotOpenAnyMore(t: Tables, r: Id)
    requires ReportsOk(t.shifts, t.reports) && CurrentOk(t.shifts, t.reports) && r in t.reports
    ensures t.reports[r].shift in t.shifts && t.shifts[t.reports[r].shift].status != Open
  {
  }

  /** Once some key of a shift succeeded, a successful submission for the shift is a replay of the same report. */
  lemma SecondSubmitReplays(t: Tables, k: IdemKey, q: SubmitRequest, now: Time, hash: SnapshotHash)
    requires Inv(t, hash) && k in t.idem && t.idem[k].status == Succeeded && k.shift == q.shift
    requires Submitted(t, q, now).Success?
    ensures Submitted(t, q, now).value == t && t.idem[k].result == Some(SubmitResult(t, q, now))
  {
    hide KeysOk, ShiftsOk, DraftsOk, RevisionsOk, HeadsOk, StatusOk, DecisionsOk, SeparationOk,
      PendingOk, DigestsOk, AppliedOk, OriginOk, ItemsOk, RowIdsOk, CurrentOk, ReportsOk, IdemOk, IdemKeysOk, PromotedChildren, Holds;
    RowNamesFirstVersion(t, k);
    if CheckIdempotency(t, q, now).Proceed? {
      NotOpenAnyMore(t, t.idem[k].result.value);
    } else {
      RowNamesFirstVersion(t, IdemKey(q.station, q.shift, q.key));
      SameVersion(t.shifts, t.reports, t.idem[k].result.value, SubmitResult(t, q, now));
    }
  }

  /**
   Whatever runs between two successful submissions for one shift, with the same
   key or with different ones, both answer the same report; the later one of
   the same key is a replay that changes nothing.
   */
  lemma OneReportPerShift(t: Tables, q: SubmitRequest, now: Time, run: seq<Event>, q': SubmitRequest, now': Time, hash: SnapshotHash)
    requires Inv(t, hash) && Submitted(t, q, now).Success?
    requires q'.shift == q.shift
    requires Submitted(After(Submitted(t, q, now).value, run, hash), q', now').Success?
    ensures var later := After(Submitted(t, q, now).value, run, hash);
            && SubmitResult(later, q', now') == SubmitResult(t, q, now)
            && Submitted(later, q', now').value == later
  {
    hide *;
    SubmitKeeps(t, q, now, hash);
    SuccessIsRecorded(t, q, now, hash);
    var t1 := Submitted(t, q, now).value;
    var later := After(t1, run, hash);
    RunKeeps(t1, run, hash);
    OutcomeIsFinal(t1, run, IdemKey(q.station, q.shift, q.key), hash);
    SecondSubmitReplays(later, IdemKey(q.station, q.shift, q.key), q', now', hash);
  }

  // ----- Nothing is lost on the way -----

  /** A report row that repeats a draft reading, with the submitted meters where there are any. */
  ghost predicate IsPromotedReading(row: DraftReading, input: Option<InputReading>, r: Reading) {
    && r.nozzle == row.nozzle && r.source.None?
    && r.meterStart == (if input.Some? then Override(input.value.meterStart, row.meterStart) else row.meterStart)
    && r.meterEnd == (if input.Some? then Override(input.value.meterEnd, row.meterEnd) else row.meterEnd)
  }

  /** A report row that repeats a draft loss, at the nozzle the submission names for it. */
  ghost predicate IsPromotedLoss(row: DraftLoss, input: Option<InputLoss>, l: Loss) {
    && input.Some? && l.nozzle == input.value.nozzle && l.loss == row.loss && l.direction == row.direction && l.reasonCode == row.reasonCode && l.liters == row.liters
    && l.cash == row.cash && l.note == row.note && l.createdBy == row.createdBy && l.nozzle != 0 && l.version == 1
  }

  ghost predicate IsPromotedSale(row: DraftSale, s: Sale) {
    s.dispenser == row.dispenser && s.cash == row.cash && s.cashless == row.cashless && s.createdBy == row.createdBy
  }

  /** An evidence event for the staged object, on the report's row of the same loss. */
  ghost predicate IsPromotedEvidence(staged: Staged, rows: seq<DraftLoss>, losses: seq<Loss>, e: EvidenceEvent) {
    && e.evidence == staged.row && e.kind == staged.kind && e.mime == staged.mime && e.status == staged.status
    && e.actor == staged.uploadedBy
    && exists i, j :: 0 <= i < |rows| && 0 <= j < |losses| && rows[i].row == staged.lossRow
                      && losses[j].loss == rows[i].loss && losses[j].id == e.lossRow
  }

  lemma {:induction false} ReadingsAreKept(t: Tables, s: Id, shift: Shift, rows: seq<DraftReading>, payload: Payload,
                                           policies: Policies, threshold: string, firstId: Id)
    requires PromotedReadings(t, s, shift, rows, payload, policies, threshold, firstId).Success?
    ensures var readings := PromotedReadings(t, s, shift, rows, payload, policies, threshold, firstId).value;
            |readings| == |rows|
            && forall i | 0 <= i < |rows| ::
                 IsPromotedReading(rows[i], InputFor(payload.readings, rows[i].nozzle), readings[i])
  {
    hide ValidateMeterStart, CalculateMeterDelta, CalculateExpectedSaleRupiah, InputFor, SnapshotItem, ContinuityOf;
    if rows != [] {
      ReadingsAreKept(t, s, shift, rows[..|rows| - 1], payload, policies, threshold, firstId);
    }
  }

  lemma {:induction false} LossesAreKept(rows: seq<DraftLoss>, inputs: seq<InputLoss>, taken: set<Id>, firstId: Id)
    requires PromotedLosses(rows, inputs, taken, firstId).Success?
    ensures var losses := PromotedLosses(rows, inputs, taken, firstId).value;
            |losses| == |rows| && forall i | 0 <= i < |rows| :: IsPromotedLoss(rows[i], LossInputFor(inputs, rows[i].loss), losses[i])
  {
    hide LossInputFor, LossIds;
    if rows != [] {
      LossesAreKept(rows[..|rows| - 1], inputs, taken, firstId);
    }
  }

  lemma EventFits(e: Staged, rows: seq<DraftLoss>, losses: seq<Loss>, id: Id)
    requires DraftLossRow(rows, e.lossRow).Some? && ReportLoss(losses, DraftLossRow(rows, e.lossRow).value.loss).Some?
    ensures var loss := ReportLoss(losses, DraftLossRow(rows, e.lossRow).value.loss).value;
            IsPromotedEvidence(e, rows, losses, EvidenceEvent(id, e.row, loss.id, e.kind, e.mime, e.status, e.uploadedBy))
  {
    DraftLossIs(rows, e.lossRow);
    ReportLossIs(losses, DraftLossRow(rows, e.lossRow).value.loss);
    hide DraftLossRow, ReportLoss;
    var i :| 0 <= i < |rows| && rows[i] == DraftLossRow(rows, e.lossRow).value && rows[i].row == e.lossRow;
    var j :| 0 <= j < |losses| && losses[j] == ReportLoss(losses, rows[i].loss).value && losses[j].loss == rows[i].loss;
  }

  lemma {:induction false} EvidenceIsKept(staged: seq<Staged>, rows: seq<DraftLoss>, losses: seq<Loss>, firstId: Id)
    requires PromotedEvidence(staged, rows, losses, firstId).Success?
    ensures var events := PromotedEvidence(staged, rows, losses, firstId).value;
            |events| == |staged| && forall i | 0 <= i < |staged| :: IsPromotedEvidence(staged[i], rows, losses, events[i])
  {
    hide DraftLossRow, ReportLoss, IsPromotedEvidence;
    if staged != [] {
      var last := |staged| - 1;
      EvidenceIsKept(staged[..last], rows, losses, firstId);
      var events := PromotedEvidence(staged, rows, losses, firstId).value;
      assert IsPromotedEvidence(staged[last], rows, losses, events[last]) by {
        EventFits(staged[last], rows, losses, firstId + last);
      }
    }
  }

  /** A report with one row of the right kind for each row of the draft. */
  ghost predicate IsPromotion(rows: DraftRows, payload: Payload, c: Children) {
    && |c.readings| == |rows.readings| && |c.sales| == |rows.sales|
    && |c.losses| == |rows.losses| && |c.evidence| == |rows.evidence|
    && (forall i | 0 <= i < |rows.readings| ::
          IsPromotedReading(rows.readings[i], InputFor(payload.readings, rows.readings[i].nozzle), c.readings[i]))
    && (forall i | 0 <= i < |rows.sales| :: IsPromotedSale(rows.sales[i], c.sales[i]))
    && (forall i | 0 <= i < |rows.losses| ::
          IsPromotedLoss(rows.losses[i], LossInputFor(payload.losses, rows.losses[i].loss), c.losses[i]))
    && (forall i | 0 <= i < |rows.evidence| :: IsPromotedEvidence(rows.evidence[i], rows.losses, c.losses, c.evidence[i]))
  }

  lemma PromotionIsComplete(t: Tables, q: SubmitRequest, threshold: string, firstId: Id)
    requires q.shift in t.shifts && q.draft in t.draftRows && t.shifts[q.shift].backfill.None?
    requires PromotedChildren(t, q, threshold, firstId).Success?
    ensures q.payload.Some?
    ensures IsPromotion(t.draftRows[q.draft], q.payload.value, PromotedChildren(t, q, threshold, firstId).value)
  {
    hide PromotedReadings, PromotedLosses, PromotedEvidence, EvidenceValid, IsPromotedReading, IsPromotedLoss,
      IsPromotedEvidence, InputFor;
    var rows, payload := t.draftRows[q.draft], q.payload.value;
    ReadingsAreKept(t, q.shift, t.shifts[q.shift], rows.readings, payload, q.policies, threshold, firstId);
    var saleId := firstId + |rows.readings|;
    var lossId := saleId + |rows.sales|;
    LossesAreKept(rows.losses, payload.losses, t.lossIds, lossId);
    var losses := PromotedLosses(rows.losses, payload.losses, t.lossIds, lossId).value;
    EvidenceIsKept(rows.evidence, rows.losses, losses, lossId + |rows.losses|);
  }

  /**
   A first submission at revision r turns the r - 1 rows of the draft into
   exactly r - 1 rows of the report, one for one and each of its kind.
   */
  lemma SubmissionKeepsEveryRow(t: Tables, q: SubmitRequest, now: Time, hash: SnapshotHash)
    requires Inv(t, hash) && Submitted(t, q, now).Success? && CheckIdempotency(t, q, now).Proceed?
    requires t.shifts[q.shift].backfill.None?
    ensures var t' := Submitted(t, q, now).value;
            && q.draft in t.draftRows && q.payload.Some? && t.nextId in t'.children
            && t'.children[t.nextId].Count() == q.revision - 1
            && IsPromotion(t.draftRows[q.draft], q.payload.value, t'.children[t.nextId])
  {
    hide KeysOk, ShiftsOk, DraftsOk, ReportsOk, CurrentOk, HeadsOk, StatusOk, DecisionsOk, SeparationOk,
      PendingOk, DigestsOk, AppliedOk, OriginOk, IdemOk, IdemKeysOk, ItemsOk, RowIdsOk, PromotedChildren, IsPromotedReading,
      IsPromotedLoss, IsPromotedEvidence, IsPromotedSale, InputFor, Holds;
    PromotionIsComplete(t, q, q.policies.threshold.value, t.nextId + 1);
  }

  // ----- Evidence policy -----

  /** Staged objects as the draft endpoints leave them: uploaded, never finalized. */
  ghost predicate OnlyUploaded(rows: map<Id, DraftRows>) {
    forall d, i | d in rows && 0 <= i < |rows[d].evidence| :: rows[d].evidence[i].status == Uploaded
  }

  lemma RowsUntouched(t: Tables, e: Event, hash: SnapshotHash)
    requires Outcome(t, e, hash).Failure? || (!e.step.WriteRow? && !e.step.OpenShift?)
    ensures Next(t, e, hash).draftRows == t.draftRows
  {
    hide Outcome;
    if Outcome(t, e, hash).Success? {
      hide Next;
      if e.step.Submit? {
        SubmitFrame(t, e, hash);
      } else if IsRowStep(e.step) {
        MarkFrame(t, e, hash);
      } else if IsGovernance(e.step) {
        GovernanceFrame(t, e, hash);
      } else {
        DraftStepsFrame(t, e, hash);
      }
    }
  }

  lemma WriteKeepsUploaded(t: Tables, w: Write, row: Row, now: Time)
    requires OnlyUploaded(t.draftRows) && RowWritten(t, w, row, now).Success?
    ensures OnlyUploaded(RowWritten(t, w, row, now).value.draftRows)
  {
    hide RowFits, MutationError;
  }

  lemma OpenKeepsUploaded(t: Tables, q: OpenRequest)
    requires OnlyUploaded(t.draftRows) && ShiftOpened(t, q).Success?
    ensures OnlyUploaded(ShiftOpened(t, q).value.draftRows)
  {
    hide StationIsFree, Sequences;
  }

  lemma StepKeepsUploaded(t: Tables, e: Event, hash: SnapshotHash)
    requires OnlyUploaded(t.draftRows)
    ensures OnlyUploaded(Next(t, e, hash).draftRows)
  {
    hide OnlyUploaded, ShiftOpened, DraftClaimed, LeaseExtended, RowWritten, Submitted, MarkedFailed, LeftInProgress,
      Acknowledged, AmendmentRequested, AmendmentRejected, AmendmentApproved;
    if Outcome(t, e, hash).Success? && e.step.WriteRow? {
      WriteKeepsUploaded(t, e.step.write, e.step.row, e.now);
    } else if Outcome(t, e, hash).Success? && e.step.OpenShift? {
      OpenKeepsUploaded(t, e.step.open);
    } else {
      RowsUntouched(t, e, hash);
    }
  }

  lemma {:induction false} NothingIsFinalized(staged: seq<Staged>, lossRow: Id, kind: string)
    requires forall i | 0 <= i < |staged| :: staged[i].status == Uploaded
    ensures FinalizedCount(staged, lossRow, kind) == 0
  {
    if staged != [] {
      NothingIsFinalized(staged[..|staged| - 1], lossRow, kind);
    }
  }

  /**
   No step finalizes a staged object, so under an evidence policy the staged
   rows are accepted exactly when each fits a type and the draft has no loss.
   */
  lemma EvidenceNeedsNoLosses(policy: EvidencePolicy, losses: seq<DraftLoss>, staged: seq<Staged>)
    requires forall i | 0 <= i < |staged| :: staged[i].status == Uploaded
    ensures EvidenceValid(policy, losses, staged)
            <==> (forall i | 0 <= i < |staged| :: StagedFits(policy, staged[i])) && (losses == [] || policy.types == [])
  {
    hide StagedFits;
    forall i, j | 0 <= i < |losses| && 0 <= j < |policy.types|
      ensures !EvidenceSuffices(policy.mode, policy.types[j].minimum,
                                FinalizedCount(staged, losses[i].row, policy.types[j].kind))
    {
      NothingIsFinalized(staged, losses[i].row, policy.types[j].kind);
    }
    if losses != [] && policy.types != [] {
      assert !EvidenceSuffices(policy.mode, policy.types[0].minimum,
                               FinalizedCount(staged, losses[0].row, policy.types[0].kind));
    }
  }

  lemma LossesAreBlocked(t: Tables, q: SubmitRequest, now: Time)
    requires OnlyUploaded(t.draftRows)
    ensures Submitted(t, q, now).Success? && CheckIdempotency(t, q, now).Proceed?
            && PolicyOf(q).Some? && PolicyOf(q).value.types != [] ==>
              q.draft in t.draftRows && t.draftRows[q.draft].losses == []
  {
    hide PromotedReadings, CarriedReadings, PromotedLosses, PromotedEvidence, EvidenceValid, Holds, CheckIdempotency, StagedFits;
    if PolicyOf(q).Some? && q.draft in t.draftRows {
      EvidenceNeedsNoLosses(PolicyOf(q).value, t.draftRows[q.draft].losses, t.draftRows[q.draft].evidence);
    }
  }

  /** A first submission with a loss under an evidence policy with types never succeeds, in any reachable state. */
  lemma {:induction false} PolicyBlocksLosses(t: Tables, run: seq<Event>, q: SubmitRequest, now: Time, hash: SnapshotHash)
    requires OnlyUploaded(t.draftRows)
    ensures OnlyUploaded(After(t, run, hash).draftRows)
    ensures var t' := After(t, run, hash);
            Submitted(t', q, now).Success? && CheckIdempotency(t', q, now).Proceed?
            && PolicyOf(q).Some? && PolicyOf(q).value.types != [] ==>
              q.draft in t'.draftRows && t'.draftRows[q.draft].losses == []
  {
    hide Next;
    if run != [] {
      PolicyBlocksLosses(t, run[..|run| - 1], q, now, hash);
      StepKeepsUploaded(After(t, run[..|run| - 1], hash), run[|run| - 1], hash);
    }
    LossesAreBlocked(After(t, run, hash), q, now);
  }
}
