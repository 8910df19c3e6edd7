/** Where the rows of the ledger come from: every row of a reachable state was made by an accepted event of the run. */
module LedgerOrigins {
  import opened Wrappers
  import opened LedgerTables
  import opened DraftSteps
  import opened SubmitSteps
  import opened GovernanceSteps
  import opened LedgerInvariant
  import opened LedgerSteps
  import opened LedgerRuns
  import opened GovernanceTheorems
  import opened DraftTheorems

  // ----- Reports -----

  /** The event submits a shift for the first time, under the given report. */
  ghost predicate SubmitsAs(t: Tables, e: Event, r: Id, hash: SnapshotHash) {
    e.step.Submit? && Accepted(t, e, hash) && CheckIdempotency(t, e.step.submit, e.now).Proceed? && r == t.nextId
  }

  /** The event approves an amendment into the given report. */
  ghost predicate ApprovesAs(t: Tables, e: Event, r: Id, hash: SnapshotHash) {
    e.step.ApproveAmendment? && Accepted(t, e, hash) && r == t.nextId
  }

  /** The event makes this report: a first version by its submitter, or the next version by its approver. */
  ghost predicate MakesReport(t: Tables, e: Event, r: Id, x: Report, hash: SnapshotHash) {
    || (SubmitsAs(t, e, r, hash) && x == Report(e.step.submit.shift, 1, None, e.step.submit.actor))
    || (&& ApprovesAs(t, e, r, hash)
        && e.step.approve.amendment in t.amendments
        && var a := t.amendments[e.step.approve.amendment];
        && a.base in t.reports
        && x == Report(a.shift, t.reports[a.base].version + 1, Some(a.base), e.step.approve.approver))
  }

  lemma SubmittedReports(t: Tables, q: SubmitRequest, now: Time)
    requires Submitted(t, q, now).Success?
    ensures var t' := Submitted(t, q, now).value;
            if CheckIdempotency(t, q, now).Proceed? then
              t'.reports == t.reports[t.nextId := Report(q.shift, 1, None, q.actor)]
            else t'.reports == t.reports
  {
    hide PromotedChildren, CheckIdempotency, Holds;
  }

  lemma ApprovedReports(t: Tables, q: ApproveRequest, hash: SnapshotHash, now: Time)
    requires AmendmentApproved(t, q, hash, now).Success?
    ensures q.amendment in t.amendments && t.amendments[q.amendment].base in t.reports
    ensures var a := t.amendments[q.amendment];
            AmendmentApproved(t, q, hash, now).value.reports
            == t.reports[t.nextId := Report(a.shift, t.reports[a.base].version + 1, Some(a.base), q.approver)]
  {
    hide CopiedChildren, StationIsFree, ItemsError, SnapshotOf;
  }

  lemma OtherReports(t: Tables, e: Event, hash: SnapshotHash)
    requires !e.step.Submit? && !e.step.ApproveAmendment?
    ensures Next(t, e, hash).reports == t.reports
  {
    hide Next;
    if IsRowStep(e.step) {
      MarkFrame(t, e, hash);
    } else if IsGovernance(e.step) {
      GovernanceFrame(t, e, hash);
    } else {
      DraftStepsFrame(t, e, hash);
    }
  }

  lemma StepReports(t: Tables, e: Event, r: Id, hash: SnapshotHash)
    requires KeysOk(t)
    ensures r in t.reports ==> r in Next(t, e, hash).reports && Next(t, e, hash).reports[r] == t.reports[r]
    ensures r in Next(t, e, hash).reports && r !in t.reports ==> MakesReport(t, e, r, Next(t, e, hash).reports[r], hash)
  {
    hide ShiftOpened, DraftClaimed, LeaseExtended, RowWritten, Submitted, MarkedFailed, LeftInProgress,
      Acknowledged, AmendmentRequested, AmendmentRejected, AmendmentApproved, CheckIdempotency;
    if Outcome(t, e, hash).Success? {
      match e.step
      case Submit(q) => SubmittedReports(t, q, e.now);
      case ApproveAmendment(q) => ApprovedReports(t, q, hash, e.now);
      case _ => OtherReports(t, e, hash);
    }
  }

  /** A report never changes and never goes away. */
  lemma {:induction false} ReportsStay(t: Tables, run: seq<Event>, r: Id, hash: SnapshotHash)
    requires Inv(t, hash) && r in t.reports
    ensures r in After(t, run, hash).reports && After(t, run, hash).reports[r] == t.reports[r]
  {
    hide Inv, After, Next, MakesReport;
    AfterStart(t, hash);
    if run != [] {
      var front := run[..|run| - 1];
      ReportsStay(t, front, r, hash);
      RunKeeps(t, front, hash);
      KeysOfInv(After(t, front, hash), hash);
      AfterLast(t, run, hash);
      StepReports(After(t, front, hash), run[|run| - 1], r, hash);
    }
  }

  /**
   Every report came into being by one accepted event: a first version by the
   submission of its shift, with the submitter's name, or a later version by
   the approval of an amendment, with the approver's.
   */
  lemma {:induction false} EveryReportHasItsEvent(t: Tables, run: seq<Event>, r: Id, hash: SnapshotHash)
    requires Inv(t, hash) && r in After(t, run, hash).reports && r !in t.reports
    ensures exists i :: 0 <= i < |run| && MakesReport(After(t, run[..i], hash), run[i], r, After(t, run, hash).reports[r], hash)
  {
    hide Inv, After, Next, MakesReport;
    AfterStart(t, hash);
    if run != [] {
      var n := |run| - 1;
      var front := run[..n];
      RunKeeps(t, front, hash);
      KeysOfInv(After(t, front, hash), hash);
      AfterLast(t, run, hash);
      StepReports(After(t, front, hash), run[n], r, hash);
      if r in After(t, front, hash).reports {
        EveryReportHasItsEvent(t, front, r, hash);
        var i :| 0 <= i < |front| && MakesReport(After(t, front[..i], hash), front[i], r, After(t, front, hash).reports[r], hash);
        assert front[..i] == run[..i] && front[i] == run[i];
      }
    }
  }

  lemma DecidersOfReport(t: Tables, k: Id, hash: SnapshotHash)
    requires Inv(t, hash) && k in t.decisions
    ensures t.decisions[k].report in t.reports && t.decisions[k].actor != t.reports[t.decisions[k].report].submittedBy
  {
    hide ShiftsOk, DraftsOk, RevisionsOk, ReportsOk, CurrentOk, HeadsOk, StatusOk,
      PendingOk, DigestsOk, AppliedOk, OriginOk, IdemOk, IdemKeysOk, ItemsOk, RowIdsOk, CreatedRows;
  }

  /** Whoever submits a shift never decides the report of that submission, whatever runs in between. */
  lemma SubmitterNeverDecides(t: Tables, q: SubmitRequest, now: Time, run: seq<Event>, k: Id, hash: SnapshotHash)
    requires Inv(t, hash) && Submitted(t, q, now).Success? && CheckIdempotency(t, q, now).Proceed?
    ensures var later := After(Submitted(t, q, now).value, run, hash);
            && t.nextId in later.reports && later.reports[t.nextId] == Report(q.shift, 1, None, q.actor)
            && (k in later.decisions && later.decisions[k].report == t.nextId ==> later.decisions[k].actor != q.actor)
  {
    hide Inv, After, Submitted, CheckIdempotency;
    var t1 := Submitted(t, q, now).value;
    SubmittedReports(t, q, now);
    SubmitKeeps(t, q, now, hash);
    ReportsStay(t1, run, t.nextId, hash);
    RunKeeps(t1, run, hash);
    var later := After(t1, run, hash);
    if k in later.decisions {
      DecidersOfReport(later, k, hash);
    }
  }

  // ----- Decisions -----

  /** The event decides a report, under the given key, as its request says. */
  ghost predicate MakesDecision(t: Tables, e: Event, k: Id, d: Decision, hash: SnapshotHash) {
    && e.step.Acknowledge? && Accepted(t, e, hash) && k == t.nextId
    && var q := e.step.ack;
    && d.report == q.report && d.version == q.version && d.acked == q.acked && d.actor == q.actor && d.role == q.role
    && d.decidedAt == e.now && (d.rejectionReason.Some? <==> !q.acked) && (d.breakGlassReason.Some? <==> q.breakGlass)
    && q.station in t.enabled && Grant(q.station, q.actor, q.role) in t.grants
    && q.role in {StationAdmin, Owner, Superadmin} && (q.breakGlass ==> q.role in {Owner, Superadmin})
    && q.shift in t.shifts && t.shifts[q.shift].station == q.station && t.shifts[q.shift].current == Some(q.report)
  }

  lemma AcknowledgedDecisions(t: Tables, e: Event, hash: SnapshotHash)
    requires e.step.Acknowledge? && Accepted(t, e, hash)
    ensures var t' := Next(t, e, hash);
            && t.nextId in t'.decisions && t'.decisions == t.decisions[t.nextId := t'.decisions[t.nextId]]
            && MakesDecision(t, e, t.nextId, t'.decisions[t.nextId], hash)
  {
    hide CreatedRows, AckSequences;
  }

  lemma RequestedDecisions(t: Tables, q: AmendRequest, hash: SnapshotHash)
    requires AmendmentRequested(t, q, hash).Success?
    ensures AmendmentRequested(t, q, hash).value.decisions == t.decisions
  {
    hide RequestError, SnapshotOf;
  }

  lemma RejectedDecisions(t: Tables, station: Station, a: Id, approver: User, role: Role, reason: string)
    requires AmendmentRejected(t, station, a, approver, role, reason).Success?
    ensures AmendmentRejected(t, station, a, approver, role, reason).value.decisions == t.decisions
  {
    hide DecideError;
  }

  lemma ApprovedDecisions(t: Tables, q: ApproveRequest, hash: SnapshotHash, now: Time)
    requires AmendmentApproved(t, q, hash, now).Success?
    ensures AmendmentApproved(t, q, hash, now).value.decisions == t.decisions
  {
    hide ApproveError, CopiedChildren, StationIsFree;
  }

  lemma OtherDecisions(t: Tables, e: Event, hash: SnapshotHash)
    requires !e.step.Acknowledge? || !Accepted(t, e, hash)
    ensures Next(t, e, hash).decisions == t.decisions
  {
    hide ShiftOpened, DraftClaimed, LeaseExtended, RowWritten, Submitted, MarkedFailed, LeftInProgress,
      Acknowledged, AmendmentRequested, AmendmentRejected, AmendmentApproved;
    if Outcome(t, e, hash).Success? {
      match e.step
      case Submit(q) => SubmittedFrame(t, q, e.now);
      case RequestAmendment(q) => RequestedDecisions(t, q, hash);
      case RejectAmendment(station, a, approver, role, reason) => RejectedDecisions(t, station, a, approver, role, reason);
      case ApproveAmendment(q) => ApprovedDecisions(t, q, hash, e.now);
      case MarkFailed(k, requestHash) => MarkedTables(t, k, requestHash);
      case LeaveInProgress(k, row) => LeftTables(t, k, row);
      case _ => DraftStepsFrame(t, e, hash);
    }
  }

  lemma StepDecisions(t: Tables, e: Event, k: Id, hash: SnapshotHash)
    requires KeysOk(t)
    ensures k in t.decisions ==> k in Next(t, e, hash).decisions && Next(t, e, hash).decisions[k] == t.decisions[k]
    ensures k in Next(t, e, hash).decisions && k !in t.decisions ==> MakesDecision(t, e, k, Next(t, e, hash).decisions[k], hash)
  {
    hide Next, MakesDecision, Accepted;
    if e.step.Acknowledge? && Accepted(t, e, hash) {
      AcknowledgedDecisions(t, e, hash);
    } else {
      OtherDecisions(t, e, hash);
    }
  }

  /**
   Every decision was made by one accepted acknowledgement: it says what the
   request said, and its actor then held the approving role it names, on the
   current report of a shift of that station.
   */
  lemma {:induction false} EveryDecisionHasItsEvent(t: Tables, run: seq<Event>, k: Id, hash: SnapshotHash)
    requires Inv(t, hash) && k in After(t, run, hash).decisions && k !in t.decisions
    ensures exists i :: 0 <= i < |run| && MakesDecision(After(t, run[..i], hash), run[i], k, After(t, run, hash).decisions[k], hash)
  {
    hide Inv, After, Next, MakesDecision;
    AfterStart(t, hash);
    if run != [] {
      var n := |run| - 1;
      var front := run[..n];
      RunKeeps(t, front, hash);
      KeysOfInv(After(t, front, hash), hash);
      AfterLast(t, run, hash);
      StepDecisions(After(t, front, hash), run[n], k, hash);
      if k in After(t, front, hash).decisions {
        EveryDecisionHasItsEvent(t, front, k, hash);
        var i :| 0 <= i < |front| && MakesDecision(After(t, front[..i], hash), front[i], k, After(t, front, hash).decisions[k], hash);
        assert front[..i] == run[..i] && front[i] == run[i];
      }
    }
  }

  /** The run accepts a decision of this kind on the report. */
  ghost predicate WasDecided(t0: Tables, run: seq<Event>, report: Id, acked: bool, hash: SnapshotHash) {
    exists i :: 0 <= i < |run| && run[i].step.Acknowledge? && run[i].step.ack.report == report
                && run[i].step.ack.acked == acked && Accepted(After(t0, run[..i], hash), run[i], hash)
  }

  lemma MadeDecision(t0: Tables, run: seq<Event>, k: Id, d: Decision, hash: SnapshotHash)
    requires exists i :: 0 <= i < |run| && MakesDecision(After(t0, run[..i], hash), run[i], k, d, hash)
    ensures WasDecided(t0, run, d.report, d.acked, hash)
  {
    hide Accepted, After;
    var i :| 0 <= i < |run| && MakesDecision(After(t0, run[..i], hash), run[i], k, d, hash);
    assert run[i].step.Acknowledge? && run[i].step.ack.report == d.report;
  }

  lemma NothingYet(t0: Tables)
    requires IsInitial(t0)
    ensures t0.shifts == map[] && t0.reports == map[] && t0.decisions == map[] && t0.amendments == map[] && t0.drafts == map[]
  {
  }

  lemma ReachableBy(t0: Tables, run: seq<Event>, hash: SnapshotHash)
    requires IsInitial(t0)
    ensures Reachable(After(t0, run, hash), hash)
  {
    hide IsInitial, After;
  }

  lemma StatusOfDecision(t: Tables, s: Id, hash: SnapshotHash)
    requires Reachable(t, hash) && s in t.shifts && (t.shifts[s].status == Locked || t.shifts[s].status == NeedsCorrection)
    ensures t.shifts[s].current.Some?
    ensures exists k :: k in t.decisions && t.decisions[k].report == t.shifts[s].current.value
                        && t.decisions[k].acked == (t.shifts[s].status == Locked)
  {
    hide Reachable;
    StatusMeaning(t, s, hash);
    var c := t.shifts[s].current.value;
    if t.shifts[s].status == Locked {
      var k :| InForce(t, c, k) && t.decisions[k].acked;
    } else {
      var k :| InForce(t, c, k) && !t.decisions[k].acked;
    }
  }

  /** A shift is locked, or in correction, only by an accepted decision of that kind on its current version. */
  lemma LockedOnlyByAcknowledgement(t0: Tables, run: seq<Event>, s: Id, hash: SnapshotHash)
    requires IsInitial(t0) && s in After(t0, run, hash).shifts
    ensures var x := After(t0, run, hash).shifts[s];
            && (x.status == Locked ==> x.current.Some? && WasDecided(t0, run, x.current.value, true, hash))
            && (x.status == NeedsCorrection ==> x.current.Some? && WasDecided(t0, run, x.current.value, false, hash))
  {
    hide *;
    var t := After(t0, run, hash);
    NothingYet(t0);
    InitialIsGood(t0, hash);
    ReachableBy(t0, run, hash);
    if t.shifts[s].status == Locked || t.shifts[s].status == NeedsCorrection {
      StatusOfDecision(t, s, hash);
      var k :| k in t.decisions && t.decisions[k].report == t.shifts[s].current.value
               && t.decisions[k].acked == (t.shifts[s].status == Locked);
      EveryDecisionHasItsEvent(t0, run, k, hash);
      MadeDecision(t0, run, k, t.decisions[k], hash);
    }
  }

  // ----- Amendments -----

  /** The event requests this amendment, as its request says, of a report and by a supervisor of the station. */
  ghost predicate RequestsAmendment(t: Tables, e: Event, a: Id, x: Amendment, hash: SnapshotHash) {
    && e.step.RequestAmendment? && Accepted(t, e, hash) && a == t.nextId
    && var q := e.step.request;
    && x.station == q.station && x.shift == q.shift && x.base == q.base && x.requester == q.requester
    && x.breakGlass == q.breakGlass && x.items == q.items
    && q.station in t.enabled && Grant(q.station, q.requester, Supervisor) in t.grants
    && q.shift in t.shifts && t.shifts[q.shift].station == q.station && t.shifts[q.shift].current == Some(q.base)
    && q.base in t.reports && q.base in t.children
    && x.digest == hash(Snapshot(q.base, t.reports[q.base].version, t.children[q.base].readings, t.children[q.base].sales,
                                 t.children[q.base].losses))
  }

  /** The event rejects the amendment. */
  ghost predicate Rejects(t: Tables, e: Event, a: Id, hash: SnapshotHash) {
    e.step.RejectAmendment? && e.step.amendment == a && Accepted(t, e, hash)
  }

  /** The event approves the amendment. */
  ghost predicate Approves(t: Tables, e: Event, a: Id, hash: SnapshotHash) {
    e.step.ApproveAmendment? && e.step.approve.amendment == a && Accepted(t, e, hash)
  }

  /** What one event can do to an amendment: reject or approve it while it is pending, or nothing. */
  ghost predicate AmendmentAfter(t: Tables, e: Event, a: Id, x: Amendment, hash: SnapshotHash)
    requires a in t.amendments
  {
    var was := t.amendments[a];
    if Rejects(t, e, a, hash) then
      was.status == Pending && x == was.(status := Rejected, approver := Some(e.step.approver))
    else if Approves(t, e, a, hash) then
      was.status == Pending && x == was.(status := Approved, approver := Some(e.step.approve.approver), applied := Some(t.nextId))
    else x == was
  }

  lemma RequestedAmendments(t: Tables, e: Event, hash: SnapshotHash)
    requires KeysOk(t) && e.step.RequestAmendment? && Accepted(t, e, hash)
    ensures var t' := Next(t, e, hash);
            && t.nextId !in t.amendments
            && t.nextId in t'.amendments && t'.amendments == t.amendments[t.nextId := t'.amendments[t.nextId]]
            && t'.amendments[t.nextId].status == Pending && t'.amendments[t.nextId].approver.None?
            && t'.amendments[t.nextId].applied.None?
            && RequestsAmendment(t, e, t.nextId, t'.amendments[t.nextId], hash)
  {
    hide HasPending, ItemsDistinct, ReasonsFit, ItemAllowed;
  }

  lemma RejectedAmendment(t: Tables, e: Event, a: Id, hash: SnapshotHash)
    requires e.step.RejectAmendment? && Accepted(t, e, hash) && a in t.amendments
    ensures Next(t, e, hash).amendments.Keys == t.amendments.Keys
    ensures AmendmentAfter(t, e, a, Next(t, e, hash).amendments[a], hash)
  {
  }

  lemma ApprovedAmendment(t: Tables, e: Event, a: Id, hash: SnapshotHash)
    requires e.step.ApproveAmendment? && Accepted(t, e, hash) && a in t.amendments
    ensures Next(t, e, hash).amendments.Keys == t.amendments.Keys
    ensures AmendmentAfter(t, e, a, Next(t, e, hash).amendments[a], hash)
  {
    hide CopiedChildren, StationIsFree, ItemsError, SnapshotOf;
  }

  ghost predicate IsAmendmentStep(step: Step) {
    step.RequestAmendment? || step.RejectAmendment? || step.ApproveAmendment?
  }

  lemma AcknowledgedAmendments(t: Tables, q: AckRequest, now: Time)
    requires Acknowledged(t, q, now).Success?
    ensures Acknowledged(t, q, now).value.amendments == t.amendments
  {
    hide AckError, AckReasons, AckSequences;
  }

  lemma OtherAmendments(t: Tables, e: Event, hash: SnapshotHash)
    requires !IsAmendmentStep(e.step) || !Accepted(t, e, hash)
    ensures Next(t, e, hash).amendments == t.amendments
  {
    hide ShiftOpened, DraftClaimed, LeaseExtended, RowWritten, Submitted, MarkedFailed, LeftInProgress,
      Acknowledged, AmendmentRequested, AmendmentRejected, AmendmentApproved;
    if Outcome(t, e, hash).Success? {
      match e.step
      case Submit(q) => SubmittedFrame(t, q, e.now);
      case Acknowledge(q) => AcknowledgedAmendments(t, q, e.now);
      case MarkFailed(k, requestHash) => MarkedTables(t, k, requestHash);
      case LeaveInProgress(k, row) => LeftTables(t, k, row);
      case _ => DraftStepsFrame(t, e, hash);
    }
  }

  lemma NoNewAmendment(t: Tables, e: Event, a: Id, hash: SnapshotHash)
    requires a !in t.amendments && (e.step.RejectAmendment? || e.step.ApproveAmendment?)
    ensures a !in Next(t, e, hash).amendments
  {
    hide CopiedChildren, StationIsFree, ItemsError, SnapshotOf;
  }

  lemma StepAmendments(t: Tables, e: Event, a: Id, hash: SnapshotHash)
    requires KeysOk(t)
    ensures a in t.amendments ==> a in Next(t, e, hash).amendments && AmendmentAfter(t, e, a, Next(t, e, hash).amendments[a], hash)
    ensures a in Next(t, e, hash).amendments && a !in t.amendments ==>
              var x := Next(t, e, hash).amendments[a];
              RequestsAmendment(t, e, a, x, hash) && x.status == Pending && x.approver.None? && x.applied.None?
  {
    hide Next, RequestsAmendment, Accepted, KeysOk;
    if IsAmendmentStep(e.step) && Accepted(t, e, hash) {
      if e.step.RequestAmendment? {
        RequestedAmendments(t, e, hash);
      } else if a in t.amendments {
        if e.step.RejectAmendment? {
          RejectedAmendment(t, e, a, hash);
        } else {
          ApprovedAmendment(t, e, a, hash);
        }
      } else {
        NoNewAmendment(t, e, a, hash);
      }
    } else {
      OtherAmendments(t, e, hash);
    }
  }

  /** Once decided, an amendment never changes again: a rejected one is never approved, and no report comes of it. */
  lemma {:induction false} DecidedAmendmentIsFinal(t: Tables, run: seq<Event>, a: Id, hash: SnapshotHash)
    requires Inv(t, hash) && a in t.amendments && t.amendments[a].status != Pending
    ensures a in After(t, run, hash).amendments && After(t, run, hash).amendments[a] == t.amendments[a]
    ensures forall e: Event :: !Approves(After(t, run, hash), e, a, hash) && !Rejects(After(t, run, hash), e, a, hash)
  {
    hide Inv, After, Next, Approves, Rejects;
    AfterStart(t, hash);
    if run != [] {
      var front := run[..|run| - 1];
      DecidedAmendmentIsFinal(t, front, a, hash);
      RunKeeps(t, front, hash);
      KeysOfInv(After(t, front, hash), hash);
      AfterLast(t, run, hash);
      StepAmendments(After(t, front, hash), run[|run| - 1], a, hash);
    }
    RunKeeps(t, run, hash);
    var later := After(t, run, hash);
    KeysOfInv(later, hash);
    forall e: Event ensures !Approves(later, e, a, hash) && !Rejects(later, e, a, hash) {
      StepAmendments(later, e, a, hash);
    }
  }

  lemma RejectedIsThere(t: Tables, e: Event, a: Id, hash: SnapshotHash)
    requires Rejects(t, e, a, hash)
    ensures a in t.amendments
  {
  }

  /** An accepted rejection is the last word: whatever runs afterwards, the amendment stays rejected by that approver and is never approved. */
  lemma RejectionIsFinal(t: Tables, e: Event, run: seq<Event>, a: Id, hash: SnapshotHash)
    requires Inv(t, hash) && Rejects(t, e, a, hash)
    ensures var later := After(Next(t, e, hash), run, hash);
            && a in later.amendments && later.amendments[a].status == Rejected
            && later.amendments[a].approver == Some(e.step.approver)
            && forall x: Event :: !Approves(later, x, a, hash)
  {
    hide Inv, After, Next, Approves, Accepted;
    KeysOfInv(t, hash);
    RejectedIsThere(t, e, a, hash);
    StepAmendments(t, e, a, hash);
    StepKeeps(t, e, hash);
    DecidedAmendmentIsFinal(Next(t, e, hash), run, a, hash);
  }

  /** The fields an amendment is requested with. */
  ghost predicate SameRequest(x: Amendment, y: Amendment) {
    x == y.(status := x.status, approver := x.approver, applied := x.applied)
  }

  lemma RequestedAsWell(t: Tables, e: Event, a: Id, x: Amendment, y: Amendment, hash: SnapshotHash)
    requires RequestsAmendment(t, e, a, y, hash) && SameRequest(x, y)
    ensures RequestsAmendment(t, e, a, x, hash)
  {
    hide Accepted;
  }

  /** Every amendment was made by one accepted request, and still says what that request said. */
  lemma {:induction false} EveryAmendmentHasItsRequest(t: Tables, run: seq<Event>, a: Id, hash: SnapshotHash)
    requires Inv(t, hash) && a in After(t, run, hash).amendments && a !in t.amendments
    ensures exists i :: 0 <= i < |run| && RequestsAmendment(After(t, run[..i], hash), run[i], a, After(t, run, hash).amendments[a], hash)
  {
    hide Inv, After, Next, RequestsAmendment, Approves, Rejects;
    AfterStart(t, hash);
    if run != [] {
      var n := |run| - 1;
      var front := run[..n];
      RunKeeps(t, front, hash);
      KeysOfInv(After(t, front, hash), hash);
      AfterLast(t, run, hash);
      StepAmendments(After(t, front, hash), run[n], a, hash);
      if a in After(t, front, hash).amendments {
        EveryAmendmentHasItsRequest(t, front, a, hash);
        var before, after := After(t, front, hash).amendments[a], After(t, run, hash).amendments[a];
        var i :| 0 <= i < |front| && RequestsAmendment(After(t, front[..i], hash), front[i], a, before, hash);
        assert front[..i] == run[..i] && front[i] == run[i];
        RequestedAsWell(After(t, front[..i], hash), front[i], a, after, before, hash);
      }
    }
  }

  // ----- Shifts -----

  /** Everything about a shift but its status, its current report and when it was closed. */
  ghost predicate SameOpening(x: Shift, y: Shift) {
    x == y.(status := x.status, current := x.current, closedAt := x.closedAt)
  }

  /** The event opens this shift, as its request says. */
  ghost predicate OpensShift(t: Tables, e: Event, s: Id, x: Shift, hash: SnapshotHash) {
    && e.step.OpenShift? && Accepted(t, e, hash) && s == t.nextId
    && var q := e.step.open;
    && x.station == q.station && x.supervisor == q.actor && x.openedAt == q.openedAt && x.businessDate == q.businessDate
    && x.catalog == q.catalog && q.catalog != [] && q.station in t.enabled
    && (q.backfilled ==> q.eventDate.OnDay? && x.backfill == Some(BackfillKey(q.eventDate.day, q.ordinal)))
    && (!q.backfilled ==> x.backfill.None?)
    && x.sequence > 0
    && (x.sequence > 1 ==> exists u :: u in t.shifts && t.shifts[u].station == q.station && t.shifts[u].sequence + 1 == x.sequence)
    && (forall u | u in t.shifts && t.shifts[u].station == q.station :: t.shifts[u].sequence < x.sequence)
  }

  /** What one event can do to a shift: hand it in, decide its report, replace its report, or nothing. */
  ghost predicate ShiftAfter(t: Tables, e: Event, s: Id, x: Shift, hash: SnapshotHash)
    requires s in t.shifts
  {
    var was := t.shifts[s];
    if e.step.Submit? && e.step.submit.shift == s && SubmitsAs(t, e, t.nextId, hash) then
      && was.status == Open
      && x == was.(status := AwaitingConfirmation, current := Some(t.nextId), closedAt := Some(e.now))
    else if e.step.Acknowledge? && e.step.ack.shift == s && Accepted(t, e, hash) then
      && was.status == AwaitingConfirmation
      && x == was.(status := if e.step.ack.acked then Locked else NeedsCorrection)
    else if ApprovesAs(t, e, t.nextId, hash) && e.step.approve.amendment in t.amendments
            && t.amendments[e.step.approve.amendment].shift == s then
      x == was.(status := AwaitingConfirmation, current := Some(t.nextId))
    else x == was
  }

  lemma OpenedShifts(t: Tables, e: Event, s: Id, hash: SnapshotHash)
    requires KeysOk(t) && e.step.OpenShift? && Accepted(t, e, hash)
    ensures var t' := Next(t, e, hash);
            && t.nextId !in t.shifts && t.nextId in t'.shifts
            && t'.shifts == t.shifts[t.nextId := t'.shifts[t.nextId]]
            && t'.shifts[t.nextId].status == Open && t'.shifts[t.nextId].closedAt.None?
            && OpensShift(t, e, t.nextId, t'.shifts[t.nextId], hash)
  {
    hide BackfillIsFree, StationIsFree, LaterChained;
    var q := e.step.open;
    var numbers := Sequences(t.shifts, q.station);
    assert forall u | u in t.shifts && t.shifts[u].station == q.station :: t.shifts[u].sequence in numbers;
    assert numbers != {} ==> CoalesceMax(numbers) in numbers;
  }

  lemma SubmittedShifts(t: Tables, e: Event, s: Id, hash: SnapshotHash)
    requires e.step.Submit? && Accepted(t, e, hash) && s in t.shifts
    ensures Next(t, e, hash).shifts.Keys == t.shifts.Keys
    ensures ShiftAfter(t, e, s, Next(t, e, hash).shifts[s], hash)
  {
    hide PromotedChildren, CheckIdempotency, Holds;
  }

  lemma AcknowledgedShifts(t: Tables, e: Event, s: Id, hash: SnapshotHash)
    requires e.step.Acknowledge? && Accepted(t, e, hash) && s in t.shifts
    ensures Next(t, e, hash).shifts.Keys == t.shifts.Keys
    ensures ShiftAfter(t, e, s, Next(t, e, hash).shifts[s], hash)
  {
    hide AckReasons, AckSequences, CreatedRows;
  }

  lemma ApprovedShifts(t: Tables, e: Event, s: Id, hash: SnapshotHash)
    requires e.step.ApproveAmendment? && Accepted(t, e, hash) && s in t.shifts
    ensures Next(t, e, hash).shifts.Keys == t.shifts.Keys
    ensures ShiftAfter(t, e, s, Next(t, e, hash).shifts[s], hash)
  {
    hide CopiedChildren, StationIsFree, ItemsError, SnapshotOf;
  }

  ghost predicate IsShiftStep(step: Step) {
    step.OpenShift? || step.Submit? || step.Acknowledge? || step.ApproveAmendment?
  }

  lemma RequestedShifts(t: Tables, q: AmendRequest, hash: SnapshotHash)
    requires AmendmentRequested(t, q, hash).Success?
    ensures AmendmentRequested(t, q, hash).value.shifts == t.shifts
  {
    hide RequestError, SnapshotOf;
  }

  lemma RejectedShifts(t: Tables, station: Station, a: Id, approver: User, role: Role, reason: string)
    requires AmendmentRejected(t, station, a, approver, role, reason).Success?
    ensures AmendmentRejected(t, station, a, approver, role, reason).value.shifts == t.shifts
  {
    hide DecideError;
  }

  lemma OtherShifts(t: Tables, e: Event, hash: SnapshotHash)
    requires !IsShiftStep(e.step) || !Accepted(t, e, hash)
    ensures Next(t, e, hash).shifts == t.shifts
  {
    hide ShiftOpened, DraftClaimed, LeaseExtended, RowWritten, Submitted, MarkedFailed, LeftInProgress,
      Acknowledged, AmendmentRequested, AmendmentRejected, AmendmentApproved;
    if Outcome(t, e, hash).Success? {
      match e.step
      case RequestAmendment(q) => RequestedShifts(t, q, hash);
      case RejectAmendment(station, a, approver, role, reason) => RejectedShifts(t, station, a, approver, role, reason);
      case MarkFailed(k, requestHash) => MarkedTables(t, k, requestHash);
      case LeaveInProgress(k, row) => LeftTables(t, k, row);
      case _ => DraftStepsFrame(t, e, hash);
    }
  }

  lemma NoNewShift(t: Tables, e: Event, s: Id, hash: SnapshotHash)
    requires s !in t.shifts && (e.step.Submit? || e.step.Acknowledge? || e.step.ApproveAmendment?)
    ensures s !in Next(t, e, hash).shifts
  {
    hide CopiedChildren, StationIsFree, ItemsError, SnapshotOf, AckReasons, AckSequences, CreatedRows, PromotedChildren,
      CheckIdempotency, Holds;
  }

  lemma StepShifts(t: Tables, e: Event, s: Id, hash: SnapshotHash)
    requires KeysOk(t)
    ensures s in t.shifts ==> s in Next(t, e, hash).shifts && ShiftAfter(t, e, s, Next(t, e, hash).shifts[s], hash)
    ensures s in Next(t, e, hash).shifts && s !in t.shifts ==>
              var x := Next(t, e, hash).shifts[s];
              OpensShift(t, e, s, x, hash) && x.status == Open && x.closedAt.None?
  {
    hide Next, OpensShift, Accepted, KeysOk, CheckIdempotency;
    if IsShiftStep(e.step) && Accepted(t, e, hash) {
      if e.step.OpenShift? {
        OpenedShifts(t, e, s, hash);
      } else if s in t.shifts {
        if e.step.Submit? {
          SubmittedShifts(t, e, s, hash);
        } else if e.step.Acknowledge? {
          AcknowledgedShifts(t, e, s, hash);
        } else {
          ApprovedShifts(t, e, s, hash);
        }
      } else {
        NoNewShift(t, e, s, hash);
      }
    } else {
      OtherShifts(t, e, hash);
    }
  }

  lemma OpenedAsWell(t: Tables, e: Event, s: Id, x: Shift, y: Shift, hash: SnapshotHash)
    requires OpensShift(t, e, s, y, hash) && SameOpening(x, y)
    ensures OpensShift(t, e, s, x, hash)
  {
    hide Accepted;
  }

  /** Every shift was opened by one accepted request, and still says what that request said. */
  lemma {:induction false} EveryShiftHasItsOpening(t: Tables, run: seq<Event>, s: Id, hash: SnapshotHash)
    requires Inv(t, hash) && s in After(t, run, hash).shifts && s !in t.shifts
    ensures exists i :: 0 <= i < |run| && OpensShift(After(t, run[..i], hash), run[i], s, After(t, run, hash).shifts[s], hash)
  {
    hide Inv, After, Next, OpensShift, Accepted, SubmitsAs, ApprovesAs;
    AfterStart(t, hash);
    if run != [] {
      var n := |run| - 1;
      var front := run[..n];
      RunKeeps(t, front, hash);
      KeysOfInv(After(t, front, hash), hash);
      AfterLast(t, run, hash);
      StepShifts(After(t, front, hash), run[n], s, hash);
      if s in After(t, front, hash).shifts {
        EveryShiftHasItsOpening(t, front, s, hash);
        var before, after := After(t, front, hash).shifts[s], After(t, run, hash).shifts[s];
        var i :| 0 <= i < |front| && OpensShift(After(t, front[..i], hash), front[i], s, before, hash);
        assert front[..i] == run[..i] && front[i] == run[i];
        OpenedAsWell(After(t, front[..i], hash), front[i], s, after, before, hash);
      }
    }
  }

  /** The event hands the shift in at the given time. */
  ghost predicate Closes(t: Tables, e: Event, s: Id, at: Time, hash: SnapshotHash) {
    e.step.Submit? && e.step.submit.shift == s && SubmitsAs(t, e, t.nextId, hash) && e.now == at
  }

  lemma OpenHasNoReport(t: Tables, e: Event, s: Id, hash: SnapshotHash)
    requires Inv(t, hash) && s in t.shifts && ApprovesAs(t, e, t.nextId, hash)
    ensures e.step.approve.amendment in t.amendments && (t.amendments[e.step.approve.amendment].shift == s ==> t.shifts[s].status != Open)
  {
    hide KeysOk, ShiftsOk, DraftsOk, RevisionsOk, ReportsOk, HeadsOk, StatusOk, DecisionsOk, SeparationOk,
      PendingOk, DigestsOk, AppliedOk, OriginOk, IdemOk, IdemKeysOk, ItemsOk, RowIdsOk, CopiedChildren, StationIsFree, ItemsError, SnapshotOf;
  }

  /** A shift's closing time is the time of the accepted first submission, and it has none before. */
  lemma {:induction false} ClosedBySubmission(t: Tables, run: seq<Event>, s: Id, hash: SnapshotHash)
    requires Inv(t, hash) && s in After(t, run, hash).shifts && s !in t.shifts
    ensures var x := After(t, run, hash).shifts[s];
            && (x.closedAt.None? <==> x.status == Open)
            && (x.closedAt.Some? ==> exists i :: 0 <= i < |run| && Closes(After(t, run[..i], hash), run[i], s, x.closedAt.value, hash))
  {
    hide Inv, After, Next, OpensShift, Accepted, SubmitsAs, ApprovesAs;
    AfterStart(t, hash);
    if run != [] {
      var n := |run| - 1;
      var front := run[..n];
      var before := After(t, front, hash);
      RunKeeps(t, front, hash);
      RunKeeps(t, run, hash);
      KeysOfInv(before, hash);
      AfterLast(t, run, hash);
      StepShifts(before, run[n], s, hash);
      if s in before.shifts {
        ClosedBySubmission(t, front, s, hash);
        if before.shifts[s].closedAt.Some? {
          var i :| 0 <= i < |front| && Closes(After(t, front[..i], hash), front[i], s, before.shifts[s].closedAt.value, hash);
          assert front[..i] == run[..i] && front[i] == run[i];
        }
        if ApprovesAs(before, run[n], before.nextId, hash) {
          OpenHasNoReport(before, run[n], s, hash);
        }
      }
    }
  }

  /** A shift of the station has the number. */
  predicate IsTaken(shifts: map<Id, Shift>, station: Station, n: nat) {
    exists u :: u in shifts && shifts[u].station == station && shifts[u].sequence == n
  }

  /** Below the number of a shift every number is taken at its station. */
  ghost predicate NoGaps(shifts: map<Id, Shift>) {
    forall s, n: nat :: s in shifts && 0 < n <= shifts[s].sequence ==> IsTaken(shifts, shifts[s].station, n)
  }

  lemma OpenedNext(t: Tables, e: Event, s: Id, x: Shift, hash: SnapshotHash) returns (u: Id)
    requires OpensShift(t, e, s, x, hash) && x.sequence > 1
    ensures u in t.shifts && t.shifts[u].station == x.station && t.shifts[u].sequence + 1 == x.sequence
  {
    u :| u in t.shifts && t.shifts[u].station == x.station && t.shifts[u].sequence + 1 == x.sequence;
  }

  lemma StillTaken(t: Tables, e: Event, hash: SnapshotHash, station: Station, n: nat)
    requires KeysOk(t) && IsTaken(t.shifts, station, n)
    ensures IsTaken(Next(t, e, hash).shifts, station, n)
  {
    hide Next, OpensShift, KeysOk, Accepted, SubmitsAs, ApprovesAs;
    var u :| u in t.shifts && t.shifts[u].station == station && t.shifts[u].sequence == n;
    StepShifts(t, e, u, hash);
  }

  lemma NumberIsTaken(t: Tables, e: Event, hash: SnapshotHash, s: Id, n: nat)
    requires KeysOk(t) && NoGaps(t.shifts)
    requires s in Next(t, e, hash).shifts && 0 < n <= Next(t, e, hash).shifts[s].sequence
    ensures IsTaken(Next(t, e, hash).shifts, Next(t, e, hash).shifts[s].station, n)
  {
    hide Next, OpensShift, KeysOk, Accepted, SubmitsAs, ApprovesAs;
    var after := Next(t, e, hash).shifts;
    StepShifts(t, e, s, hash);
    if s in t.shifts {
      assert IsTaken(t.shifts, t.shifts[s].station, n);
      StillTaken(t, e, hash, t.shifts[s].station, n);
    } else if n < after[s].sequence {
      var v := OpenedNext(t, e, s, after[s], hash);
      assert IsTaken(t.shifts, t.shifts[v].station, n);
      StillTaken(t, e, hash, t.shifts[v].station, n);
    }
  }

  lemma GaplessMap(shifts: map<Id, Shift>)
    requires forall s, n: nat :: s in shifts && 0 < n <= shifts[s].sequence ==> IsTaken(shifts, shifts[s].station, n)
    ensures NoGaps(shifts)
  {
  }

  lemma StepLeavesNoGaps(t: Tables, e: Event, hash: SnapshotHash)
    requires KeysOk(t) && NoGaps(t.shifts)
    ensures NoGaps(Next(t, e, hash).shifts)
  {
    hide Next, KeysOk, NoGaps, IsTaken;
    var after := Next(t, e, hash).shifts;
    forall s, n: nat | s in after && 0 < n <= after[s].sequence ensures IsTaken(after, after[s].station, n) {
      NumberIsTaken(t, e, hash, s, n);
    }
    GaplessMap(after);
  }

  /** The shifts of a station are numbered 1, 2, 3 and so on without a gap. */
  lemma {:induction false} SequencesHaveNoGaps(t: Tables, run: seq<Event>, hash: SnapshotHash)
    requires Inv(t, hash) && NoGaps(t.shifts)
    ensures NoGaps(After(t, run, hash).shifts)
  {
    hide Inv, After, Next, NoGaps;
    AfterStart(t, hash);
    if run != [] {
      var front := run[..|run| - 1];
      SequencesHaveNoGaps(t, front, hash);
      RunKeeps(t, front, hash);
      KeysOfInv(After(t, front, hash), hash);
      AfterLast(t, run, hash);
      StepLeavesNoGaps(After(t, front, hash), run[|run| - 1], hash);
    }
  }
}
