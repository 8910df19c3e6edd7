/** Runs of the ledger: any interleaving of its transactions. */
module LedgerRuns {
  import opened Wrappers
  import opened LedgerTables
  import opened DraftSteps
  import opened SubmitSteps
  import opened GovernanceSteps
  import opened LedgerInvariant
  import opened LedgerSteps

  /**
   One transaction; a change of the enabled stations and role grants by other
   services; or an idempotency row left in progress.
   */
  datatype Step =
    | OpenShift(open: OpenRequest)
    | Claim(draft: Id, shift: Id, actor: User)
    | Heartbeat(held: Id, holder: User, token: Id)
    | WriteRow(write: Write, row: Row)
    | Submit(submit: SubmitRequest)
    | MarkFailed(failed: IdemKey, requestHash: Digest)
    | LeaveInProgress(left: IdemKey, leftRow: Idem)
    | Acknowledge(ack: AckRequest)
    | RequestAmendment(request: AmendRequest)
    | RejectAmendment(station: Station, amendment: Id, approver: User, role: Role, reason: string)
    | ApproveAmendment(approve: ApproveRequest)
    | ChangeScope(enabled: set<Station>, grants: set<Grant>)

  datatype Event = Event(step: Step, now: Time)

  ghost function Outcome(t: Tables, e: Event, hash: SnapshotHash): Result<Tables, Error> {
    match e.step
    case OpenShift(q) => ShiftOpened(t, q)
    case Claim(draft, shift, actor) => DraftClaimed(t, draft, shift, actor, e.now)
    case Heartbeat(draft, actor, token) => LeaseExtended(t, draft, actor, token, e.now)
    case WriteRow(w, row) => RowWritten(t, w, row, e.now)
    case Submit(q) => Submitted(t, q, e.now)
    case MarkFailed(k, requestHash) => MarkedFailed(t, k, requestHash)
    case LeaveInProgress(k, row) => LeftInProgress(t, k, row)
    case Acknowledge(q) => Acknowledged(t, q, e.now)
    case RequestAmendment(q) => AmendmentRequested(t, q, hash)
    case RejectAmendment(station, a, approver, role, reason) => AmendmentRejected(t, station, a, approver, role, reason)
    case ApproveAmendment(q) => AmendmentApproved(t, q, hash, e.now)
    case ChangeScope(enabled, grants) => Success(t.(enabled := enabled, grants := grants))
  }

  /** A refused transaction leaves the tables as they were. */
  ghost function Next(t: Tables, e: Event, hash: SnapshotHash): Tables {
    match Outcome(t, e, hash)
    case Success(t') => t'
    case Failure(_) => t
  }

  /** The tables after a run. */
  ghost function After(t: Tables, run: seq<Event>, hash: SnapshotHash): Tables {
    if run == [] then t else Next(After(t, run[..|run| - 1], hash), run[|run| - 1], hash)
  }

  lemma ScopeKeeps(t: Tables, enabled: set<Station>, grants: set<Grant>, hash: SnapshotHash)
    requires Inv(t, hash)
    ensures Inv(t.(enabled := enabled, grants := grants), hash)
  {
    hide ShiftsOk, DraftsOk, RevisionsOk, ReportsOk, CurrentOk, HeadsOk, StatusOk, DecisionsOk, SeparationOk,
      PendingOk, DigestsOk, AppliedOk, OriginOk, IdemOk, IdemKeysOk, ItemsOk, RowIdsOk;
  }

  lemma StepKeeps(t: Tables, e: Event, hash: SnapshotHash)
    requires Inv(t, hash)
    ensures Inv(Next(t, e, hash), hash)
  {
    hide Inv, ShiftOpened, DraftClaimed, LeaseExtended, RowWritten, Submitted, MarkedFailed, LeftInProgress, Acknowledged,
      AmendmentRequested, AmendmentRejected, AmendmentApproved;
    if Outcome(t, e, hash).Success? {
      match e.step
      case OpenShift(q) => OpenKeeps(t, q, hash);
      case Claim(draft, shift, actor) => ClaimKeeps(t, draft, shift, actor, e.now, hash);
      case Heartbeat(draft, actor, token) => ExtendKeeps(t, draft, actor, token, e.now, hash);
      case WriteRow(w, row) => WriteKeeps(t, w, row, e.now, hash);
      case Submit(q) => SubmitKeeps(t, q, e.now, hash);
      case MarkFailed(k, requestHash) => MarkKeeps(t, k, requestHash, hash);
      case LeaveInProgress(k, row) => LeaveKeeps(t, k, row, hash);
      case Acknowledge(q) => AckKeeps(t, q, e.now, hash);
      case RequestAmendment(q) => RequestKeeps(t, q, hash);
      case RejectAmendment(station, a, approver, role, reason) => RejectKeeps(t, station, a, approver, role, reason, hash);
      case ApproveAmendment(q) => ApproveKeeps(t, q, hash, e.now);
      case ChangeScope(enabled, grants) => ScopeKeeps(t, enabled, grants, hash);
    }
  }

  /** Every state of a run that starts well satisfies the invariant. */
  lemma {:induction false} RunKeeps(t: Tables, run: seq<Event>, hash: SnapshotHash)
    requires Inv(t, hash)
    ensures Inv(After(t, run, hash), hash)
  {
    hide Inv, Next;
    if run != [] {
      RunKeeps(t, run[..|run| - 1], hash);
      StepKeeps(After(t, run[..|run| - 1], hash), run[|run| - 1], hash);
    }
  }

  /** Going on after a run is running the two parts one after the other. */
  lemma {:induction false} RunInTwo(t: Tables, run: seq<Event>, more: seq<Event>, hash: SnapshotHash)
    ensures After(t, run + more, hash) == After(After(t, run, hash), more, hash)
  {
    hide Next;
    if more == [] {
      assert run + more == run;
    } else {
      RunInTwo(t, run, more[..|more| - 1], hash);
      assert (run + more)[..|run + more| - 1] == run + more[..|more| - 1];
    }
  }

  /** The ledger before its first transaction. */
  ghost predicate IsInitial(t: Tables) {
    && t.nextId == 1
    && t.shifts == map[] && t.drafts == map[] && t.draftRows == map[] && t.reports == map[] && t.children == map[]
    && t.heads == map[] && t.decisions == map[] && t.superseded == map[] && t.amendments == map[] && t.idem == map[]
  }

  lemma InitialIsGood(t: Tables, hash: SnapshotHash)
    requires IsInitial(t)
    ensures Inv(t, hash)
  {
  }

  /** A state some run leads to from an initial ledger. */
  ghost predicate Reachable(t: Tables, hash: SnapshotHash) {
    exists t0, run :: IsInitial(t0) && t == After(t0, run, hash)
  }

  /** Every reachable state satisfies the invariant. */
  lemma ReachableIsGood(t: Tables, hash: SnapshotHash)
    requires Reachable(t, hash)
    ensures Inv(t, hash)
  {
    hide Inv, IsInitial, After;
    var t0, run :| IsInitial(t0) && t == After(t0, run, hash);
    InitialIsGood(t0, hash);
    RunKeeps(t0, run, hash);
  }

  // ----- Which step touches which table -----

  /** Draft work leaves everything about reports alone. */
  ghost predicate ReportsUntouched(t: Tables, t': Tables) {
    && t'.idem == t.idem && t'.reports == t.reports && t'.children == t.children && t'.heads == t.heads
    && t'.decisions == t.decisions && t'.amendments == t.amendments && t'.lossIds == t.lossIds && t'.nextId >= t.nextId
  }

  /** Governance leaves everything about drafts and submissions alone. */
  ghost predicate DraftsUntouched(t: Tables, t': Tables) {
    && t'.idem == t.idem && t'.drafts == t.drafts && t'.draftRows == t.draftRows && t'.lossIds == t.lossIds
    && t'.nextId >= t.nextId
  }

  lemma OpenFrame(t: Tables, q: OpenRequest)
    requires ShiftOpened(t, q).Success?
    ensures ReportsUntouched(t, ShiftOpened(t, q).value)
  {
    hide StationIsFree, Sequences;
  }

  lemma ClaimFrame(t: Tables, draft: Id, shift: Id, actor: User, now: Time)
    requires DraftClaimed(t, draft, shift, actor, now).Success?
    ensures ReportsUntouched(t, DraftClaimed(t, draft, shift, actor, now).value)
    ensures DraftClaimed(t, draft, shift, actor, now).value.draftRows == t.draftRows
    ensures DraftClaimed(t, draft, shift, actor, now).value.shifts == t.shifts
  {
  }

  lemma ExtendFrame(t: Tables, draft: Id, actor: User, token: Id, now: Time)
    requires LeaseExtended(t, draft, actor, token, now).Success?
    ensures ReportsUntouched(t, LeaseExtended(t, draft, actor, token, now).value)
    ensures LeaseExtended(t, draft, actor, token, now).value.draftRows == t.draftRows
    ensures LeaseExtended(t, draft, actor, token, now).value.shifts == t.shifts
  {
  }

  lemma WriteFrame(t: Tables, w: Write, row: Row, now: Time)
    requires RowWritten(t, w, row, now).Success?
    ensures ReportsUntouched(t, RowWritten(t, w, row, now).value)
    ensures RowWritten(t, w, row, now).value.shifts == t.shifts
  {
    hide RowFits, WithRow, MutationError;
  }

  lemma DraftStepsFrame(t: Tables, e: Event, hash: SnapshotHash)
    requires e.step.OpenShift? || e.step.Claim? || e.step.Heartbeat? || e.step.WriteRow? || e.step.ChangeScope?
    ensures ReportsUntouched(t, Next(t, e, hash))
    ensures !e.step.OpenShift? ==> Next(t, e, hash).shifts == t.shifts
    ensures !e.step.OpenShift? && !e.step.WriteRow? ==> Next(t, e, hash).draftRows == t.draftRows
    ensures e.step.ChangeScope? ==> Next(t, e, hash).drafts == t.drafts
  {
    hide ShiftOpened, DraftClaimed, LeaseExtended, RowWritten, Submitted, MarkedFailed, LeftInProgress,
      Acknowledged, AmendmentRequested, AmendmentRejected, AmendmentApproved;
    if Outcome(t, e, hash).Success? {
      match e.step
      case OpenShift(q) => OpenFrame(t, q);
      case Claim(draft, shift, actor) => ClaimFrame(t, draft, shift, actor, e.now);
      case Heartbeat(draft, actor, token) => ExtendFrame(t, draft, actor, token, e.now);
      case WriteRow(w, row) => WriteFrame(t, w, row, e.now);
      case ChangeScope(_, _) =>
    }
  }

  lemma AcknowledgedFrame(t: Tables, q: AckRequest, now: Time)
    requires Acknowledged(t, q, now).Success?
    ensures var t' := Acknowledged(t, q, now).value;
            DraftsUntouched(t, t') && t'.reports == t.reports && t'.children == t.children
  {
    hide AckError, AckReasons, AckSequences;
  }

  lemma RequestFrame(t: Tables, q: AmendRequest, hash: SnapshotHash)
    requires AmendmentRequested(t, q, hash).Success?
    ensures var t' := AmendmentRequested(t, q, hash).value;
            DraftsUntouched(t, t') && t'.reports == t.reports && t'.children == t.children
  {
    hide RequestError, SnapshotOf;
  }

  lemma RejectFrame(t: Tables, station: Station, a: Id, approver: User, role: Role, reason: string)
    requires AmendmentRejected(t, station, a, approver, role, reason).Success?
    ensures var t' := AmendmentRejected(t, station, a, approver, role, reason).value;
            DraftsUntouched(t, t') && t'.reports == t.reports && t'.children == t.children
  {
    hide DecideError;
  }

  lemma ApproveFrame(t: Tables, q: ApproveRequest, hash: SnapshotHash, now: Time)
    requires AmendmentApproved(t, q, hash, now).Success?
    ensures DraftsUntouched(t, AmendmentApproved(t, q, hash, now).value)
  {
    hide ApproveError, CopiedChildren, StationIsFree;
  }

  ghost predicate IsGovernance(step: Step) {
    step.Acknowledge? || step.RequestAmendment? || step.RejectAmendment? || step.ApproveAmendment?
  }

  lemma GovernanceFrame(t: Tables, e: Event, hash: SnapshotHash)
    requires IsGovernance(e.step)
    ensures DraftsUntouched(t, Next(t, e, hash))
    ensures !e.step.ApproveAmendment? ==> Next(t, e, hash).reports == t.reports && Next(t, e, hash).children == t.children
  {
    hide ShiftOpened, DraftClaimed, LeaseExtended, RowWritten, Submitted, MarkedFailed, LeftInProgress,
      Acknowledged, AmendmentRequested, AmendmentRejected, AmendmentApproved;
    if Outcome(t, e, hash).Success? {
      match e.step
      case Acknowledge(q) => AcknowledgedFrame(t, q, e.now);
      case RequestAmendment(q) => RequestFrame(t, q, hash);
      case RejectAmendment(station, a, approver, role, reason) => RejectFrame(t, station, a, approver, role, reason);
      case ApproveAmendment(q) => ApproveFrame(t, q, hash, e.now);
    }
  }

  lemma MarkedTables(t: Tables, k: IdemKey, requestHash: Digest)
    requires MarkedFailed(t, k, requestHash).Success?
    ensures var t' := MarkedFailed(t, k, requestHash).value;
            t' == t.(idem := t'.idem) && t'.idem == MarkedRows(t.idem, k, requestHash)
  {
    hide MarkedRows;
  }

  lemma LeftTables(t: Tables, k: IdemKey, row: Idem)
    requires LeftInProgress(t, k, row).Success?
    ensures k !in t.idem && LeftInProgress(t, k, row).value == t.(idem := t.idem[k := row])
  {
  }

  /** A step on idempotency rows alone. */
  ghost predicate IsRowStep(step: Step) {
    step.MarkFailed? || step.LeaveInProgress?
  }

  /** What such a step leaves in the idempotency table. */
  ghost predicate RowsAfter(idem: map<IdemKey, Idem>, step: Step, idem': map<IdemKey, Idem>) {
    || idem' == idem
    || (step.MarkFailed? && idem' == MarkedRows(idem, step.failed, step.requestHash))
    || (step.LeaveInProgress? && step.left !in idem && idem' == idem[step.left := step.leftRow])
  }

  lemma MarkStep(t: Tables, e: Event, hash: SnapshotHash)
    requires e.step.MarkFailed?
    ensures Next(t, e, hash) == t.(idem := Next(t, e, hash).idem)
    ensures Next(t, e, hash).idem == t.idem || Next(t, e, hash).idem == MarkedRows(t.idem, e.step.failed, e.step.requestHash)
  {
    hide ShiftOpened, DraftClaimed, LeaseExtended, RowWritten, Submitted, MarkedFailed, LeftInProgress,
      Acknowledged, AmendmentRequested, AmendmentRejected, AmendmentApproved, MarkedRows;
    if Outcome(t, e, hash).Success? {
      MarkedTables(t, e.step.failed, e.step.requestHash);
    }
  }

  lemma LeaveStep(t: Tables, e: Event, hash: SnapshotHash)
    requires e.step.LeaveInProgress?
    ensures Next(t, e, hash) == t.(idem := Next(t, e, hash).idem)
    ensures || Next(t, e, hash).idem == t.idem
            || (e.step.left !in t.idem && Next(t, e, hash).idem == t.idem[e.step.left := e.step.leftRow])
  {
    hide ShiftOpened, DraftClaimed, LeaseExtended, RowWritten, Submitted, MarkedFailed, LeftInProgress,
      Acknowledged, AmendmentRequested, AmendmentRejected, AmendmentApproved, MarkedRows;
    if Outcome(t, e, hash).Success? {
      LeftTables(t, e.step.left, e.step.leftRow);
    }
  }

  lemma MarkFrame(t: Tables, e: Event, hash: SnapshotHash)
    requires IsRowStep(e.step)
    ensures Next(t, e, hash) == t.(idem := Next(t, e, hash).idem)
    ensures RowsAfter(t.idem, e.step, Next(t, e, hash).idem)
  {
    hide Next, MarkedRows;
    if e.step.MarkFailed? {
      MarkStep(t, e, hash);
    } else {
      LeaveStep(t, e, hash);
    }
  }

  lemma SubmittedFrame(t: Tables, q: SubmitRequest, now: Time)
    requires Submitted(t, q, now).Success?
    ensures var t' := Submitted(t, q, now).value;
            && t'.draftRows == t.draftRows && t'.decisions == t.decisions && t'.amendments == t.amendments
            && t'.nextId >= t.nextId
  {
    hide PromotedChildren, LoadError, CheckIdempotency, Holds;
  }

  lemma SubmitFrame(t: Tables, e: Event, hash: SnapshotHash)
    requires e.step.Submit?
    ensures var t' := Next(t, e, hash);
            && t'.draftRows == t.draftRows && t'.decisions == t.decisions && t'.amendments == t.amendments
            && t'.nextId >= t.nextId
    ensures Next(t, e, hash) == t
            || (Submitted(t, e.step.submit, e.now).Success? && Next(t, e, hash) == Submitted(t, e.step.submit, e.now).value)
  {
    hide ShiftOpened, DraftClaimed, LeaseExtended, RowWritten, Submitted, MarkedFailed, LeftInProgress,
      Acknowledged, AmendmentRequested, AmendmentRejected, AmendmentApproved;
    if Outcome(t, e, hash).Success? {
      SubmittedFrame(t, e.step.submit, e.now);
    }
  }
}
