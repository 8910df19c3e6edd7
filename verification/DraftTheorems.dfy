/** Fencing of drafts along every run: retired tokens, exclusive leases and consecutive revisions. */
module DraftTheorems {
  import opened Wrappers
  import opened LedgerTables
  import opened DraftSteps
  import opened SubmitSteps
  import opened GovernanceSteps
  import opened LedgerInvariant
  import opened LedgerRuns

  // ----- One step seen from one draft -----

  ghost predicate Accepted(t: Tables, e: Event, hash: SnapshotHash) {
    Outcome(t, e, hash).Success?
  }

  /** The event writes a row to the draft, and the write is accepted. */
  ghost predicate WritesTo(t: Tables, e: Event, d: Id, hash: SnapshotHash) {
    e.step.WriteRow? && e.step.write.draft == d && Accepted(t, e, hash)
  }

  /** The event claims the draft. */
  ghost predicate Claims(t: Tables, e: Event, d: Id, hash: SnapshotHash) {
    e.step.Claim? && e.step.draft == d && Accepted(t, e, hash)
  }

  ghost predicate Extends(t: Tables, e: Event, d: Id, hash: SnapshotHash) {
    e.step.Heartbeat? && e.step.held == d && Accepted(t, e, hash)
  }

  /** The event hands the draft in with a first submission. */
  ghost predicate HandsIn(t: Tables, e: Event, d: Id, hash: SnapshotHash) {
    && e.step.Submit? && e.step.submit.draft == d && Accepted(t, e, hash)
    && CheckIdempotency(t, e.step.submit, e.now).Proceed?
  }

  /** What one event can do to a draft: write, claim, extend, hand in, or nothing. */
  ghost function DraftAfter(t: Tables, e: Event, d: Id, hash: SnapshotHash): Draft
    requires d in t.drafts
  {
    var x := t.drafts[d];
    if WritesTo(t, e, d, hash) then x.(revision := x.revision + 1)
    else if Claims(t, e, d, hash) then
      x.(ownedBy := Some(e.step.actor), token := Some(t.nextId), expires := Some(e.now + DRAFT_LEASE), status := Editing)
    else if Extends(t, e, d, hash) then x.(expires := Some(e.now + DRAFT_LEASE))
    else if HandsIn(t, e, d, hash) then x.(status := Handed, token := None, expires := None)
    else x
  }

  lemma OpenedDrafts(t: Tables, q: OpenRequest, d: Id)
    requires KeysOk(t) && ShiftOpened(t, q).Success? && d in t.drafts
    ensures var t' := ShiftOpened(t, q).value; d in t'.drafts && t'.drafts[d] == t.drafts[d] && t'.nextId >= t.nextId
  {
    hide StationIsFree, Sequences;
  }

  lemma ClaimedDrafts(t: Tables, draft: Id, shift: Id, actor: User, now: Time)
    requires DraftClaimed(t, draft, shift, actor, now).Success?
    ensures var t' := DraftClaimed(t, draft, shift, actor, now).value;
            && draft in t.drafts && t'.nextId >= t.nextId
            && t'.drafts == t.drafts[draft := t.drafts[draft].(ownedBy := Some(actor), token := Some(t.nextId),
                                                               expires := Some(now + DRAFT_LEASE), status := Editing)]
  {
  }

  lemma ExtendedDrafts(t: Tables, draft: Id, actor: User, token: Id, now: Time)
    requires LeaseExtended(t, draft, actor, token, now).Success?
    ensures var t' := LeaseExtended(t, draft, actor, token, now).value;
            && draft in t.drafts && t'.nextId == t.nextId
            && t'.drafts == t.drafts[draft := t.drafts[draft].(expires := Some(now + DRAFT_LEASE))]
  {
  }

  lemma WrittenDrafts(t: Tables, w: Write, row: Row, now: Time)
    requires RowWritten(t, w, row, now).Success?
    ensures var t' := RowWritten(t, w, row, now).value;
            && w.draft in t.drafts && t'.nextId >= t.nextId
            && t'.drafts == t.drafts[w.draft := t.drafts[w.draft].(revision := t.drafts[w.draft].revision + 1)]
            && t.drafts[w.draft].revision == w.revision && Holds(t.drafts[w.draft], w.actor, w.token, now)
  {
    hide RowFits, WithRow;
  }

  lemma SubmittedDrafts(t: Tables, q: SubmitRequest, now: Time)
    requires Submitted(t, q, now).Success?
    ensures var t' := Submitted(t, q, now).value;
            && t'.nextId >= t.nextId
            && if CheckIdempotency(t, q, now).Proceed? then
                 && q.draft in t.drafts && Holds(t.drafts[q.draft], q.actor, q.token, now)
                 && t'.drafts == t.drafts[q.draft := t.drafts[q.draft].(status := Handed, token := None, expires := None)]
               else t'.drafts == t.drafts
  {
    hide PromotedChildren, CheckIdempotency;
  }

  lemma DraftAfterStep(t: Tables, e: Event, d: Id, hash: SnapshotHash)
    requires KeysOk(t) && d in t.drafts
    ensures d in Next(t, e, hash).drafts && Next(t, e, hash).drafts[d] == DraftAfter(t, e, d, hash)
    ensures Next(t, e, hash).nextId >= t.nextId
  {
    hide ShiftOpened, DraftClaimed, LeaseExtended, RowWritten, Submitted, MarkedFailed, LeftInProgress,
      Acknowledged, AmendmentRequested, AmendmentRejected, AmendmentApproved, CheckIdempotency;
    if Outcome(t, e, hash).Success? {
      match e.step
      case OpenShift(q) => OpenedDrafts(t, q, d);
      case Claim(draft, shift, actor) => ClaimedDrafts(t, draft, shift, actor, e.now);
      case Heartbeat(draft, actor, token) => ExtendedDrafts(t, draft, actor, token, e.now);
      case WriteRow(w, row) => WrittenDrafts(t, w, row, e.now);
      case Submit(q) => SubmittedDrafts(t, q, e.now);
      case MarkFailed(k, requestHash) => MarkedTables(t, k, requestHash);
      case LeaveInProgress(k, row) => LeftTables(t, k, row);
      case Acknowledge(q) => AcknowledgedFrame(t, q, e.now);
      case RequestAmendment(q) => RequestFrame(t, q, hash);
      case RejectAmendment(station, a, approver, role, reason) => RejectFrame(t, station, a, approver, role, reason);
      case ApproveAmendment(q) => ApproveFrame(t, q, hash, e.now);
      case ChangeScope(_, _) =>
    }
  }

  // ----- Tokens -----

  lemma AfterStart(t: Tables, hash: SnapshotHash)
    ensures After(t, [], hash) == t
  {
  }

  lemma AfterLast(t: Tables, run: seq<Event>, hash: SnapshotHash)
    requires run != []
    ensures After(t, run, hash) == Next(After(t, run[..|run| - 1], hash), run[|run| - 1], hash)
  {
  }

  lemma RetiredAfterStep(t: Tables, e: Event, d: Id, token: Id, hash: SnapshotHash)
    requires Inv(t, hash) && d in t.drafts && token < t.nextId && t.drafts[d].token != Some(token)
    ensures var t' := Next(t, e, hash);
            d in t'.drafts && token < t'.nextId && t'.drafts[d].token != Some(token)
  {
    hide Next, WritesTo, Claims, Extends, HandsIn;
    hide KeysOk, ShiftsOk, DraftsOk, RevisionsOk, ReportsOk, CurrentOk, HeadsOk, StatusOk, DecisionsOk, SeparationOk,
      PendingOk, DigestsOk, AppliedOk, OriginOk, IdemOk, IdemKeysOk, ItemsOk, RowIdsOk;
    DraftAfterStep(t, e, d, hash);
  }

  /** A token that a draft does not carry now is never carried by it again. */
  lemma {:induction false} RetiredTokenStaysRetired(t: Tables, run: seq<Event>, d: Id, token: Id, hash: SnapshotHash)
    requires Inv(t, hash) && d in t.drafts && token < t.nextId && t.drafts[d].token != Some(token)
    ensures var t' := After(t, run, hash);
            && d in t'.drafts && token < t'.nextId && t'.drafts[d].token != Some(token)
  {
    hide *;
    AfterStart(t, hash);
    if run != [] {
      var front := run[..|run| - 1];
      RetiredTokenStaysRetired(t, front, d, token, hash);
      RunKeeps(t, front, hash);
      AfterLast(t, run, hash);
      RetiredAfterStep(After(t, front, hash), run[|run| - 1], d, token, hash);
    }
  }

  lemma TokenReplaced(t: Tables, e: Event, d: Id, token: Id, hash: SnapshotHash)
    requires Inv(t, hash) && d in t.drafts && t.drafts[d].token == Some(token)
    requires Claims(t, e, d, hash) || HandsIn(t, e, d, hash)
    ensures var t' := Next(t, e, hash);
            d in t'.drafts && token < t'.nextId && t'.drafts[d].token != Some(token)
  {
    hide ShiftsOk, DraftsOk, RevisionsOk, ReportsOk, CurrentOk, HeadsOk, StatusOk, DecisionsOk, SeparationOk,
      PendingOk, DigestsOk, AppliedOk, OriginOk, IdemOk, IdemKeysOk, ItemsOk, RowIdsOk, Next, Outcome, CheckIdempotency;
    assert token < t.nextId;
    hide KeysOk;
    DraftAfterStep(t, e, d, hash);
  }

  lemma HeartbeatHolds(t: Tables, draft: Id, actor: User, token: Id, now: Time)
    requires LeaseExtended(t, draft, actor, token, now).Success?
    ensures draft in t.drafts && Holds(t.drafts[draft], actor, token, now)
  {
  }

  lemma WrongTokenIsRefused(t: Tables, d: Id, token: Id, later: Event, hash: SnapshotHash)
    requires d in t.drafts && t.drafts[d].token != Some(token)
    ensures later.step.WriteRow? && later.step.write.draft == d && later.step.write.token == token ==> !Accepted(t, later, hash)
    ensures later.step.Heartbeat? && later.step.held == d && later.step.token == token ==> !Accepted(t, later, hash)
    ensures later.step.Submit? && later.step.submit.draft == d && later.step.submit.token == token ==> !HandsIn(t, later, d, hash)
  {
    hide ShiftOpened, DraftClaimed, LeaseExtended, RowWritten, Submitted, MarkedFailed, LeftInProgress,
      Acknowledged, AmendmentRequested, AmendmentRejected, AmendmentApproved, CheckIdempotency;
    if Outcome(t, later, hash).Success? {
      match later.step
      case WriteRow(w, row) => WrittenDrafts(t, w, row, later.now);
      case Heartbeat(draft, actor, other) => HeartbeatHolds(t, draft, actor, other, later.now);
      case Submit(q) => SubmittedDrafts(t, q, later.now);
      case _ =>
    }
  }

  /**
   The token a later claim replaced, or a first submission cleared, authorises
   no write, heartbeat or first submission in any later state of any run.
   */
  lemma RetiredTokenIsRefused(t: Tables, e: Event, run: seq<Event>, d: Id, token: Id, later: Event, hash: SnapshotHash)
    requires Inv(t, hash) && d in t.drafts && t.drafts[d].token == Some(token)
    requires Claims(t, e, d, hash) || HandsIn(t, e, d, hash)
    ensures var t' := After(Next(t, e, hash), run, hash);
            && (later.step.WriteRow? && later.step.write.draft == d && later.step.write.token == token ==>
                  !Accepted(t', later, hash))
            && (later.step.Heartbeat? && later.step.held == d && later.step.token == token ==> !Accepted(t', later, hash))
            && (later.step.Submit? && later.step.submit.draft == d && later.step.submit.token == token ==>
                  !HandsIn(t', later, d, hash))
  {
    hide *;
    TokenReplaced(t, e, d, token, hash);
    StepKeeps(t, e, hash);
    RetiredTokenStaysRetired(Next(t, e, hash), run, d, token, hash);
    WrongTokenIsRefused(After(Next(t, e, hash), run, hash), d, token, later, hash);
  }

  // ----- Leases -----

  /** Clock readings that never go back, from a start on. */
  ghost predicate ClockRuns(start: Time, run: seq<Event>) {
    && (forall i | 0 <= i < |run| :: start <= run[i].now)
    && (forall i, j | 0 <= i < j < |run| :: run[i].now <= run[j].now)
  }

  /** No event of the run hands the draft in. */
  ghost predicate NeverHandedIn(t: Tables, run: seq<Event>, d: Id, hash: SnapshotHash) {
    forall i | 0 <= i < |run| :: !HandsIn(After(t, run[..i], hash), run[i], d, hash)
  }

  ghost predicate Leased(d: Draft, owner: User, until: Time) {
    d.ownedBy == Some(owner) && d.expires.Some? && d.expires.value >= until
  }

  lemma ClaimOfLeased(t: Tables, d: Id, shift: Id, actor: User, now: Time)
    requires DraftClaimed(t, d, shift, actor, now).Success? && d in t.drafts
    requires t.drafts[d].ownedBy.Some? && t.drafts[d].expires.Some? && t.drafts[d].expires.value > now
    ensures t.drafts[d].ownedBy == Some(actor)
  {
  }

  lemma LeaseAfterStep(t: Tables, e: Event, d: Id, owner: User, until: Time, hash: SnapshotHash)
    requires Inv(t, hash) && d in t.drafts && Leased(t.drafts[d], owner, until)
    requires e.now < until <= e.now + 600 * 1000000 && !HandsIn(t, e, d, hash)
    ensures d in Next(t, e, hash).drafts && Leased(Next(t, e, hash).drafts[d], owner, until)
  {
    hide KeysOk, ShiftsOk, DraftsOk, RevisionsOk, ReportsOk, CurrentOk, HeadsOk, StatusOk, DecisionsOk, SeparationOk,
      PendingOk, DigestsOk, AppliedOk, OriginOk, IdemOk, IdemKeysOk, ItemsOk, RowIdsOk, Next, HandsIn, WritesTo, Extends;
    DraftAfterStep(t, e, d, hash);
    hide ShiftOpened, LeaseExtended, RowWritten, Submitted, MarkedFailed, LeftInProgress,
      Acknowledged, AmendmentRequested, AmendmentRejected, AmendmentApproved;
    if Claims(t, e, d, hash) {
      ClaimOfLeased(t, d, e.step.shift, e.step.actor, e.now);
    }
  }

  /**
   Until a lease of at most ten minutes runs out, nobody but its owner comes to
   own the draft, unless a submission hands it in: the owner still has it, for
   at least as long.
   */
  lemma {:induction false} LeaseIsExclusive(t: Tables, run: seq<Event>, d: Id, owner: User, until: Time, start: Time, hash: SnapshotHash)
    requires Inv(t, hash) && d in t.drafts && Leased(t.drafts[d], owner, until) && until <= start + 600 * 1000000
    requires ClockRuns(start, run) && (forall i | 0 <= i < |run| :: run[i].now < until)
    requires NeverHandedIn(t, run, d, hash)
    ensures var t' := After(t, run, hash); d in t'.drafts && Leased(t'.drafts[d], owner, until)
  {
    hide Inv, After, Next, Leased, HandsIn;
    AfterStart(t, hash);
    if run != [] {
      var front := run[..|run| - 1];
      assert forall i | 0 <= i < |front| :: front[..i] == run[..i];
      LeaseIsExclusive(t, front, d, owner, until, start, hash);
      RunKeeps(t, front, hash);
      AfterLast(t, run, hash);
      assert !HandsIn(After(t, front, hash), run[|run| - 1], d, hash);
      LeaseAfterStep(After(t, front, hash), run[|run| - 1], d, owner, until, hash);
    }
  }

  // ----- Revisions -----

  /** How many writes to the draft the run accepts. */
  ghost function AcceptedWrites(t: Tables, run: seq<Event>, d: Id, hash: SnapshotHash): nat {
    if run == [] then 0
    else
      var front := run[..|run| - 1];
      AcceptedWrites(t, front, d, hash)
      + if WritesTo(After(t, front, hash), run[|run| - 1], d, hash) then 1 else 0
  }

  /** The revision counts the accepted writes, so no accepted write is ever lost. */
  lemma {:induction false} RevisionCountsWrites(t: Tables, run: seq<Event>, d: Id, hash: SnapshotHash)
    requires Inv(t, hash) && d in t.drafts
    ensures d in After(t, run, hash).drafts
    ensures After(t, run, hash).drafts[d].revision == t.drafts[d].revision + AcceptedWrites(t, run, d, hash)
  {
    hide Inv, After, Next, WritesTo, Claims, Extends, HandsIn;
    AfterStart(t, hash);
    if run != [] {
      var front := run[..|run| - 1];
      RevisionCountsWrites(t, front, d, hash);
      RunKeeps(t, front, hash);
      AfterLast(t, run, hash);
      KeysOfInv(After(t, front, hash), hash);
      DraftAfterStep(After(t, front, hash), run[|run| - 1], d, hash);
    }
  }

  /** The n-th accepted write after a state names exactly the n-th revision from there. */
  lemma WritesAreConsecutive(t: Tables, run: seq<Event>, d: Id, e: Event, hash: SnapshotHash)
    requires Reachable(t, hash) && d in t.drafts && WritesTo(After(t, run, hash), e, d, hash)
    ensures e.step.write.revision == t.drafts[d].revision + AcceptedWrites(t, run, d, hash)
  {
    hide Reachable, Inv, After, AcceptedWrites;
    ReachableIsGood(t, hash);
    RevisionCountsWrites(t, run, d, hash);
    hide ShiftOpened, DraftClaimed, LeaseExtended, RowWritten, Submitted, MarkedFailed, LeftInProgress,
      Acknowledged, AmendmentRequested, AmendmentRejected, AmendmentApproved;
    WrittenDrafts(After(t, run, hash), e.step.write, e.step.row, e.now);
  }

  /** In every reachable state the revision is one more than the number of the draft's rows. */
  lemma RevisionCountsRows(t: Tables, d: Id, hash: SnapshotHash)
    requires Reachable(t, hash) && d in t.drafts
    ensures d in t.draftRows && t.drafts[d].revision == 1 + t.draftRows[d].Count()
  {
    hide Reachable, ShiftsOk, DraftsOk, ReportsOk, CurrentOk, HeadsOk, StatusOk, DecisionsOk, SeparationOk,
      PendingOk, DigestsOk, AppliedOk, OriginOk, IdemOk, IdemKeysOk, ItemsOk, RowIdsOk;
    ReachableIsGood(t, hash);
  }
}
