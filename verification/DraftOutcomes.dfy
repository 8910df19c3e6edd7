/** When opening a shift and each draft transaction are accepted, and how long a lease lasts along a run. */
module DraftOutcomes {
  import opened Wrappers
  import opened DecimalText
  import opened TextTrim
  import opened LedgerTables
  import opened DraftSteps
  import opened SubmitSteps
  import opened GovernanceSteps
  import opened LedgerInvariant
  import opened LedgerRuns
  import opened DraftTheorems

  const TEN_MINUTES: Time := 600000000

  // ----- Opening a shift -----

  /** A backfilled shift's day, number, reason and approval are in order, and its day comes before every chained one. */
  predicate BackfillInOrder(t: Tables, q: OpenRequest) {
    && q.eventDate.OnDay? && q.ordinal >= 1 && !IsBlank(q.reason) && q.approver != 0
    && (Grant(q.station, q.approver, Owner) in t.grants <==> Grant(q.station, q.approver, Superadmin) !in t.grants)
    && (forall s | s in t.shifts && t.shifts[s].station == q.station && t.shifts[s].status == Locked
                   && t.shifts[s].businessDate > q.eventDate.day
                   && t.shifts[s].current.Some? && t.shifts[s].current.value in t.children ::
          forall i | 0 <= i < |t.children[t.shifts[s].current.value].readings| ::
            t.children[t.shifts[s].current.value].readings[i].source.None?)
    && (forall s | s in t.shifts && t.shifts[s].station == q.station ::
          t.shifts[s].backfill != Some(BackfillKey(q.eventDate.day, q.ordinal)))
  }

  /** A shift opened on time names nothing of the sort. */
  predicate NamesNoBackfill(q: OpenRequest) {
    q.eventDate == NoDate && q.ordinal == 0 && q.approver == 0 && IsBlank(q.reason)
  }

  lemma LaterChainedIff(t: Tables, station: Station, day: Day)
    ensures !LaterChained(t, station, day) <==>
            forall s | s in t.shifts && t.shifts[s].station == station && t.shifts[s].status == Locked
                       && t.shifts[s].businessDate > day
                       && t.shifts[s].current.Some? && t.shifts[s].current.value in t.children ::
              forall i | 0 <= i < |t.children[t.shifts[s].current.value].readings| ::
                t.children[t.shifts[s].current.value].readings[i].source.None?
  {
  }

  lemma BackfillIff(t: Tables, q: OpenRequest)
    ensures BackfillError(t, q).None? && BackfillIsFree(t.shifts, q.station, BackfillOf(q)) <==>
            if q.backfilled then BackfillInOrder(t, q) else NamesNoBackfill(q)
  {
    hide LaterChained, TrimSpace, IsBlank;
    TrimmedAwayIffBlank(q.reason);
    if q.eventDate.OnDay? {
      LaterChainedIff(t, q.station, q.eventDate.day);
    }
  }

  /** Opening succeeds exactly at an enabled station with nozzles and no active shift, when the backfill, if any, is in order. */
  lemma ShiftOpenedIff(t: Tables, q: OpenRequest)
    requires KeysOk(t)
    ensures ShiftOpened(t, q).Success? <==>
            && q.station in t.enabled && q.catalog != []
            && (forall s | s in t.shifts && t.shifts[s].station == q.station :: t.shifts[s].status !in {Open, AwaitingConfirmation})
            && if q.backfilled then BackfillInOrder(t, q) else NamesNoBackfill(q)
  {
    hide BackfillError, BackfillIsFree, BackfillInOrder, NamesNoBackfill, BackfillOf;
    BackfillIff(t, q);
  }

  /** An opened shift comes with one empty draft, owned by its opener and not yet claimed. */
  lemma OpenedDraft(t: Tables, q: OpenRequest, t': Tables)
    requires KeysOk(t) && ShiftOpened(t, q) == Success(t')
    ensures exists d :: d !in t.drafts && d in t'.drafts && t'.drafts == t.drafts[d := t'.drafts[d]]
                        && t'.drafts[d] == Draft(q.station, t.nextId, Some(q.actor), None, None, Editing, 1)
                        && t'.draftRows == t.draftRows[d := DraftRows([], [], [], [])]
  {
    hide BackfillError, BackfillIsFree, StationIsFree, Sequences;
    var d := t.nextId + 1;
    assert d !in t.drafts && d in t'.drafts;
  }

  // ----- Claims, heartbeats and writes -----

  /** Nobody else's lease is running. */
  predicate IsClaimable(d: Draft, actor: User, now: Time) {
    d.expires.None? || d.expires.value <= now || d.ownedBy.None? || d.ownedBy == Some(actor)
  }

  lemma DraftClaimedIff(t: Tables, draft: Id, shift: Id, actor: User, now: Time)
    ensures DraftClaimed(t, draft, shift, actor, now).Success? <==>
            && draft in t.drafts && t.drafts[draft].shift == shift && t.drafts[draft].station in t.enabled
            && IsClaimable(t.drafts[draft], actor, now)
  {
  }

  /** The caller's own lease is running. */
  predicate IsHeld(d: Draft, actor: User, token: Id, now: Time) {
    d.ownedBy == Some(actor) && d.token == Some(token) && d.expires.Some? && now < d.expires.value
  }

  lemma LeaseExtendedIff(t: Tables, draft: Id, actor: User, token: Id, now: Time)
    ensures LeaseExtended(t, draft, actor, token, now).Success? <==>
            && draft in t.drafts && t.drafts[draft].station in t.enabled
            && IsHeld(t.drafts[draft], actor, token, now) && t.drafts[draft].status == Editing
  {
  }

  /** No row of its kind with its key yet, numbers where numbers belong, and a loss row for a piece of evidence. */
  predicate IsNewRow(rows: DraftRows, row: Row) {
    match row
    case ReadingRow(nozzle, s, e) => IsDecimal(s) && IsDecimal(e) && forall r | r in rows.readings :: r.nozzle != nozzle
    case SaleRow(dispenser, cash, cashless) => IsDecimal(cash) && IsDecimal(cashless) && forall r | r in rows.sales :: r.dispenser != dispenser
    case LossRow(loss, direction, reason, liters, cash, _) =>
      && direction in {"loss", "gain"} && (exists c :: c in reason && c != ' ') && IsDecimal(liters) && (cash != "" ==> IsDecimal(cash))
      && forall r | r in rows.losses :: r.loss != loss
    case EvidenceRow(lossRow, kind, mime) =>
      (exists c :: c in kind && c != ' ') && (exists c :: c in mime && c != ' ') && exists r :: r in rows.losses && r.row == lossRow
  }

  lemma FilledIff(s: string)
    ensures IsFilled(s) <==> exists c :: c in s && c != ' '
  {
    if c :| c in s && c != ' ' {
      var i :| 0 <= i < |s| && s[i] == c;
    }
    if IsFilled(s) {
      var i :| 0 <= i < |s| && s[i] != ' ';
      assert s[i] in s;
    }
  }

  lemma RowFitsIff(rows: DraftRows, row: Row)
    ensures RowFits(rows, row) <==> IsNewRow(rows, row)
  {
    hide IsDecimal, IsFilled;
    match row
    case ReadingRow(nozzle, s, e) => assert forall i | 0 <= i < |rows.readings| :: rows.readings[i] in rows.readings;
    case SaleRow(dispenser, cash, cashless) => assert forall i | 0 <= i < |rows.sales| :: rows.sales[i] in rows.sales;
    case LossRow(loss, direction, reason, liters, cash, _) =>
      FilledIff(reason);
      assert forall i | 0 <= i < |rows.losses| :: rows.losses[i] in rows.losses;
    case EvidenceRow(lossRow, kind, mime) =>
      FilledIff(kind);
      FilledIff(mime);
      assert forall i | 0 <= i < |rows.losses| :: rows.losses[i] in rows.losses;
  }

  /** A write is accepted exactly from the holder of the lease who saw the last revision, for a row the draft can take. */
  lemma RowWrittenIff(t: Tables, w: Write, row: Row, now: Time)
    requires KeysOk(t)
    ensures RowWritten(t, w, row, now).Success? <==>
            && w.draft in t.drafts && t.drafts[w.draft].station in t.enabled
            && IsHeld(t.drafts[w.draft], w.actor, w.token, now) && t.drafts[w.draft].revision == w.revision
            && IsNewRow(t.draftRows[w.draft], row)
  {
    hide RowFits, WithRow, IsNewRow;
    if w.draft in t.drafts {
      RowFitsIff(t.draftRows[w.draft], row);
    }
  }

  /** The rows after a write: one more of its kind, which says what was written and by whom. */
  ghost predicate IsWritten(was: DraftRows, row: Row, actor: User, now: DraftRows) {
    match row
    case ReadingRow(nozzle, s, e) =>
      && now == was.(readings := now.readings) && |now.readings| == |was.readings| + 1 && was.readings <= now.readings
      && var last := now.readings[|was.readings|];
      last.nozzle == nozzle && last.meterStart == s && last.meterEnd == e && last.createdBy == actor
    case SaleRow(dispenser, cash, cashless) =>
      && now == was.(sales := now.sales) && |now.sales| == |was.sales| + 1 && was.sales <= now.sales
      && var last := now.sales[|was.sales|];
      last.dispenser == dispenser && last.cash == cash && last.cashless == cashless && last.createdBy == actor
    case LossRow(loss, direction, reason, liters, cash, note) =>
      && now == was.(losses := now.losses) && |now.losses| == |was.losses| + 1 && was.losses <= now.losses
      && var last := now.losses[|was.losses|];
      && last.loss == loss && last.direction == direction && last.reasonCode == reason && last.liters == liters
      && last.createdBy == actor
      && (if cash == "" then last.cash.None? else last.cash == Some(cash))
      && (if note == "" then last.note.None? else last.note == Some(note))
    case EvidenceRow(lossRow, kind, mime) =>
      && now == was.(evidence := now.evidence) && |now.evidence| == |was.evidence| + 1 && was.evidence <= now.evidence
      && var last := now.evidence[|was.evidence|];
      last.lossRow == lossRow && last.kind == kind && last.mime == mime && last.status == Uploaded && last.uploadedBy == actor
  }

  /** An accepted write adds its row, moves the revision on by one and touches no other draft. */
  lemma RowWrittenMeaning(t: Tables, w: Write, row: Row, now: Time, t': Tables)
    requires RowWritten(t, w, row, now) == Success(t')
    ensures w.draft in t.drafts && w.draft in t.draftRows && w.draft in t'.draftRows
    ensures IsWritten(t.draftRows[w.draft], row, w.actor, t'.draftRows[w.draft])
    ensures t' == t.(nextId := t'.nextId, draftRows := t.draftRows[w.draft := t'.draftRows[w.draft]],
                     drafts := t.drafts[w.draft := t.drafts[w.draft].(revision := w.revision + 1)])
  {
    hide RowFits;
  }

  // ----- Leases along a run -----

  /** The event is an accepted heartbeat of this holder. */
  ghost predicate Beats(t: Tables, e: Event, d: Id, actor: User, token: Id, hash: SnapshotHash) {
    Extends(t, e, d, hash) && e.step.holder == actor && e.step.token == token
  }

  /** Claim i of the run gave the draft its owner and token, and the lease runs ten minutes from it or from heartbeat k. */
  ghost predicate IsLease(t: Tables, run: seq<Event>, d: Id, x: Draft, i: nat, k: nat, hash: SnapshotHash) {
    && i <= k < |run|
    && var before := After(t, run[..i], hash);
    && Claims(before, run[i], d, hash)
    && x.ownedBy == Some(run[i].step.actor) && x.token == Some(before.nextId)
    && (k == i || Beats(After(t, run[..k], hash), run[k], d, run[i].step.actor, before.nextId, hash))
    && x.expires == Some(run[k].now + TEN_MINUTES)
  }

  ghost predicate HasLease(t: Tables, run: seq<Event>, d: Id, x: Draft, hash: SnapshotHash) {
    exists i: nat, k: nat :: IsLease(t, run, d, x, i, k, hash)
  }

  lemma LeaseGrows(t: Tables, run: seq<Event>, more: seq<Event>, d: Id, x: Draft, i: nat, k: nat, hash: SnapshotHash)
    requires IsLease(t, run, d, x, i, k, hash) && run <= more
    ensures IsLease(t, more, d, x, i, k, hash)
  {
    hide After, Claims, Beats;
    assert more[..i] == run[..i] && more[..k] == run[..k] && more[i] == run[i] && more[k] == run[k];
  }

  lemma SameLease(t: Tables, run: seq<Event>, d: Id, x: Draft, y: Draft, i: nat, k: nat, hash: SnapshotHash)
    requires IsLease(t, run, d, x, i, k, hash)
    requires y.ownedBy == x.ownedBy && y.token == x.token && y.expires == x.expires
    ensures IsLease(t, run, d, y, i, k, hash)
  {
    hide After, Claims, Beats;
  }

  lemma LeaseKept(t: Tables, run: seq<Event>, more: seq<Event>, d: Id, x: Draft, y: Draft, hash: SnapshotHash)
    requires HasLease(t, run, d, x, hash) && run <= more
    requires y.ownedBy == x.ownedBy && y.token == x.token && y.expires == x.expires
    ensures HasLease(t, more, d, y, hash)
  {
    hide IsLease;
    var i: nat, k: nat :| IsLease(t, run, d, x, i, k, hash);
    LeaseGrows(t, run, more, d, x, i, k, hash);
    SameLease(t, more, d, x, y, i, k, hash);
  }

  lemma LeaseClaimed(t: Tables, run: seq<Event>, d: Id, y: Draft, hash: SnapshotHash)
    requires run != []
    requires var n := |run| - 1;
             var before := After(t, run[..n], hash);
             && Claims(before, run[n], d, hash)
             && y.ownedBy == Some(run[n].step.actor) && y.token == Some(before.nextId) && y.expires == Some(run[n].now + TEN_MINUTES)
    ensures HasLease(t, run, d, y, hash)
  {
    hide After, Accepted, Beats;
    assert IsLease(t, run, d, y, |run| - 1, |run| - 1, hash);
  }

  lemma LeaseBeaten(t: Tables, run: seq<Event>, d: Id, x: Draft, y: Draft, hash: SnapshotHash)
    requires run != []
    requires var n := |run| - 1;
             && HasLease(t, run[..n], d, x, hash)
             && x.ownedBy.Some? && x.token.Some? && Beats(After(t, run[..n], hash), run[n], d, x.ownedBy.value, x.token.value, hash)
             && y == x.(expires := Some(run[n].now + TEN_MINUTES))
    ensures HasLease(t, run, d, y, hash)
  {
    hide After, Claims, Beats;
    var n := |run| - 1;
    var i: nat, k: nat :| IsLease(t, run[..n], d, x, i, k, hash);
    LeaseGrows(t, run[..n], run, d, x, i, k, hash);
    assert IsLease(t, run, d, y, i, n, hash);
  }

  lemma HeldWhenBeaten(t: Tables, e: Event, d: Id, hash: SnapshotHash)
    requires Extends(t, e, d, hash) && d in t.drafts
    ensures t.drafts[d].ownedBy == Some(e.step.holder) && t.drafts[d].token == Some(e.step.token)
    ensures Beats(t, e, d, e.step.holder, e.step.token, hash)
  {
  }

  lemma DraftsOfDraftSteps(t: Tables, e: Event, d: Id, hash: SnapshotHash)
    requires e.step.Claim? || e.step.Heartbeat? || e.step.WriteRow? || e.step.Submit?
    ensures d in Next(t, e, hash).drafts ==> d in t.drafts
  {
    hide Holds, ShiftOpened, DraftClaimed, LeaseExtended, RowWritten, Submitted, MarkedFailed, LeftInProgress,
      Acknowledged, AmendmentRequested, AmendmentRejected, AmendmentApproved, CheckIdempotency;
    if Outcome(t, e, hash).Success? {
      match e.step
      case Claim(draft, shift, actor) => ClaimedDrafts(t, draft, shift, actor, e.now);
      case Heartbeat(draft, actor, token) => ExtendedDrafts(t, draft, actor, token, e.now);
      case WriteRow(w, row) => WrittenDrafts(t, w, row, e.now);
      case Submit(q) => SubmittedDrafts(t, q, e.now);
    }
  }

  /** Only opening a shift adds a draft. */
  lemma OnlyOpeningsAddDrafts(t: Tables, e: Event, d: Id, hash: SnapshotHash)
    requires !e.step.OpenShift?
    ensures d in Next(t, e, hash).drafts ==> d in t.drafts
  {
    hide Next;
    if IsRowStep(e.step) {
      MarkFrame(t, e, hash);
    } else if IsGovernance(e.step) {
      GovernanceFrame(t, e, hash);
    } else if e.step.ChangeScope? {
      DraftStepsFrame(t, e, hash);
    } else {
      DraftsOfDraftSteps(t, e, d, hash);
    }
  }

  lemma NewDraftIsFree(t: Tables, e: Event, d: Id, hash: SnapshotHash)
    requires KeysOk(t) && d !in t.drafts && d in Next(t, e, hash).drafts
    ensures Next(t, e, hash).drafts[d].token.None? && Next(t, e, hash).drafts[d].expires.None?
  {
    hide KeysOk, ShiftOpened;
    if e.step.OpenShift? {
      OpenedDraft(t, e.step.open, Next(t, e, hash));
    } else {
      OnlyOpeningsAddDrafts(t, e, d, hash);
    }
  }

  /** A draft has a token and an end of its lease together, and then some claim of the run gave them. */
  ghost predicate IsFreeOrLeased(t: Tables, run: seq<Event>, d: Id, x: Draft, hash: SnapshotHash) {
    if x.token.None? then x.expires.None? else HasLease(t, run, d, x, hash)
  }

  lemma LeaseAfterEvent(t: Tables, run: seq<Event>, d: Id, hash: SnapshotHash)
    requires run != []
    requires var before := After(t, run[..|run| - 1], hash);
             KeysOk(before) && d in before.drafts && IsFreeOrLeased(t, run[..|run| - 1], d, before.drafts[d], hash)
    ensures d in After(t, run, hash).drafts && IsFreeOrLeased(t, run, d, After(t, run, hash).drafts[d], hash)
  {
    hide KeysOk, After, Next, Accepted, HasLease, HandsIn;
    var n := |run| - 1;
    var before := After(t, run[..n], hash);
    AfterLast(t, run, hash);
    DraftAfterStep(before, run[n], d, hash);
    var x, y := before.drafts[d], After(t, run, hash).drafts[d];
    if Claims(before, run[n], d, hash) {
      LeaseClaimed(t, run, d, y, hash);
    } else if Extends(before, run[n], d, hash) {
      HeldWhenBeaten(before, run[n], d, hash);
      LeaseBeaten(t, run, d, x, y, hash);
    } else if y.token.Some? {
      LeaseKept(t, run[..n], run, d, x, y, hash);
    }
  }

  lemma {:induction false} LeaseOfDraft(t: Tables, run: seq<Event>, d: Id, hash: SnapshotHash)
    requires Inv(t, hash) && d !in t.drafts && d in After(t, run, hash).drafts
    ensures IsFreeOrLeased(t, run, d, After(t, run, hash).drafts[d], hash)
  {
    hide Inv, After, Next, HasLease;
    AfterStart(t, hash);
    if run != [] {
      var front := run[..|run| - 1];
      RunKeeps(t, front, hash);
      KeysOfInv(After(t, front, hash), hash);
      AfterLast(t, run, hash);
      if d in After(t, front, hash).drafts {
        LeaseOfDraft(t, front, d, hash);
        LeaseAfterEvent(t, run, d, hash);
      } else {
        NewDraftIsFree(After(t, front, hash), run[|run| - 1], d, hash);
      }
    }
  }

  /** The caller of a heartbeat, a write or a first submission, and the token it shows. */
  ghost predicate UsesDraft(t: Tables, e: Event, d: Id, actor: User, token: Id, hash: SnapshotHash) {
    || (Extends(t, e, d, hash) && actor == e.step.holder && token == e.step.token)
    || (WritesTo(t, e, d, hash) && actor == e.step.write.actor && token == e.step.write.token)
    || (HandsIn(t, e, d, hash) && actor == e.step.submit.actor && token == e.step.submit.token)
  }

  lemma UserHolds(t: Tables, e: Event, d: Id, actor: User, token: Id, hash: SnapshotHash)
    requires UsesDraft(t, e, d, actor, token, hash)
    ensures d in t.drafts && IsHeld(t.drafts[d], actor, token, e.now)
  {
    hide ShiftOpened, DraftClaimed, LeaseExtended, RowWritten, Submitted, MarkedFailed, LeftInProgress,
      Acknowledged, AmendmentRequested, AmendmentRejected, AmendmentApproved, CheckIdempotency;
    match e.step
    case Heartbeat(draft, holder, shown) => HeartbeatHolds(t, draft, holder, shown, e.now);
    case WriteRow(w, row) => WrittenDrafts(t, w, row, e.now);
    case Submit(q) => SubmittedDrafts(t, q, e.now);
  }

  /**
   Every accepted heartbeat, write and first submission rests on a lease: an
   accepted claim by the same user, whose token it shows, and less than ten
   minutes since that claim or since that user's last accepted heartbeat.
   */
  lemma EveryUseHasItsLease(t: Tables, run: seq<Event>, e: Event, d: Id, actor: User, token: Id, hash: SnapshotHash)
    requires Inv(t, hash) && d !in t.drafts && UsesDraft(After(t, run, hash), e, d, actor, token, hash)
    ensures exists i: nat, k: nat :: i <= k < |run|
                           && Claims(After(t, run[..i], hash), run[i], d, hash)
                           && run[i].step.actor == actor && After(t, run[..i], hash).nextId == token
                           && (k == i || Beats(After(t, run[..k], hash), run[k], d, actor, token, hash))
                           && e.now < run[k].now + 600 * 1000000
  {
    hide Inv, After, Claims, Beats, UsesDraft;
    UserHolds(After(t, run, hash), e, d, actor, token, hash);
    LeaseOfDraft(t, run, d, hash);
    var x := After(t, run, hash).drafts[d];
    var i: nat, k: nat :| IsLease(t, run, d, x, i, k, hash);
    assert i <= k < |run| && Claims(After(t, run[..i], hash), run[i], d, hash);
  }

  /** Ten minutes after the last accepted claim or heartbeat anybody may claim the draft of an enabled station. */
  lemma LeaseRunsOut(t: Tables, run: seq<Event>, d: Id, actor: User, now: Time, hash: SnapshotHash)
    requires Inv(t, hash) && d !in t.drafts && d in After(t, run, hash).drafts
    requires forall k | 0 <= k < |run| && (Claims(After(t, run[..k], hash), run[k], d, hash)
                                           || Extends(After(t, run[..k], hash), run[k], d, hash)) ::
               run[k].now + 600 * 1000000 <= now
    requires After(t, run, hash).drafts[d].station in After(t, run, hash).enabled
    ensures var later := After(t, run, hash);
            DraftClaimed(later, d, later.drafts[d].shift, actor, now).Success?
  {
    hide Inv, After, Claims, Extends, DraftClaimed;
    var later := After(t, run, hash);
    LeaseOfDraft(t, run, d, hash);
    var x := later.drafts[d];
    if x.token.Some? {
      var i: nat, k: nat :| IsLease(t, run, d, x, i, k, hash);
      assert x.expires == Some(run[k].now + TEN_MINUTES);
    }
    DraftClaimedIff(later, d, x.shift, actor, now);
  }
}
