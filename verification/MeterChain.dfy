/** Meters along the ledger: what a submission fixes stays fixed, and deltas add up over shifts. */
module MeterChain {
  import opened Wrappers
  import opened DecimalText
  import opened Reconciliation
  import opened LedgerTables
  import opened DraftSteps
  import opened SubmitSteps
  import opened GovernanceSteps
  import opened LedgerInvariant
  import opened LedgerSteps
  import opened LedgerRuns

  datatype Meter = Meter(start: string, end: string)

  function MeterIn(rows: seq<Reading>, nozzle: Id): Option<Meter> {
    match ReadingFor(rows, nozzle)
    case None => None
    case Some(r) => Some(Meter(r.meterStart, r.meterEnd))
  }

  /** The meter pair a shift's current report records for a nozzle. */
  function MeterOf(t: Tables, s: Id, nozzle: Id): Option<Meter> {
    if s in t.shifts && t.shifts[s].current.Some? && t.shifts[s].current.value in t.children then
      MeterIn(t.children[t.shifts[s].current.value].readings, nozzle)
    else None
  }

  // ----- Meters never change once submitted -----

  /** Both tables agree on the current report of a shift and on its rows. */
  ghost predicate SameCurrent(t: Tables, t': Tables, s: Id) {
    && s in t.shifts && s in t'.shifts && t'.shifts[s].current == t.shifts[s].current
    && t.shifts[s].current.Some?
    && t.shifts[s].current.value in t.children && t.shifts[s].current.value in t'.children
    && t'.children[t.shifts[s].current.value] == t.children[t.shifts[s].current.value]
  }

  ghost predicate HasReport(t: Tables, s: Id) {
    s in t.shifts && t.shifts[s].current.Some? && t.shifts[s].current.value in t.children
  }

  lemma {:induction false} CopyKeepsMeter(rows: seq<Reading>, copies: seq<Reading>, nozzle: Id)
    requires |copies| == |rows|
    requires forall i | 0 <= i < |rows| :: copies[i].(id := 0) == rows[i].(id := 0)
    ensures MeterIn(copies, nozzle) == MeterIn(rows, nozzle)
  {
    if rows != [] {
      assert copies[0].(id := 0) == rows[0].(id := 0);
      CopyKeepsMeter(rows[1..], copies[1..], nozzle);
    }
  }

  lemma OpenKeepsMeter(t: Tables, q: OpenRequest, s: Id)
    requires KeysOk(t) && HasReport(t, s) && ShiftOpened(t, q).Success?
    ensures SameCurrent(t, ShiftOpened(t, q).value, s)
  {
    hide StationIsFree, Sequences;
  }

  lemma AckKeepsMeter(t: Tables, q: AckRequest, now: Time, s: Id)
    requires HasReport(t, s) && Acknowledged(t, q, now).Success?
    ensures SameCurrent(t, Acknowledged(t, q, now).value, s)
  {
    hide AckReasons, AckSequences, CreatedRows;
  }

  lemma SubmitKeepsMeter(t: Tables, q: SubmitRequest, now: Time, s: Id)
    requires KeysOk(t) && CurrentOk(t.shifts, t.reports) && HasReport(t, s) && Submitted(t, q, now).Success?
    ensures SameCurrent(t, Submitted(t, q, now).value, s)
  {
    hide PromotedChildren, Holds, CheckIdempotency;
    assert t.shifts[s].status != Open;
    assert t.nextId !in t.children;
    hide KeysOk, CurrentOk;
  }

  lemma AmendedReadings(c: Children, items: seq<Item>, version: nat, firstId: Id, nozzle: Id)
    requires CopiedChildren(c, items, version, firstId).Success?
    ensures MeterIn(CopiedChildren(c, items, version, firstId).value.readings, nozzle) == MeterIn(c.readings, nozzle)
  {
    hide CopiedSales, CopiedLosses, MeterIn;
    CopyKeepsMeter(c.readings, CopiedReadings(c.readings, firstId), nozzle);
  }

  lemma ApproveKeepsMeter(t: Tables, q: ApproveRequest, hash: SnapshotHash, now: Time, s: Id, nozzle: Id)
    requires KeysOk(t) && HasReport(t, s) && AmendmentApproved(t, q, hash, now).Success?
    ensures var t' := AmendmentApproved(t, q, hash, now).value;
            HasReport(t', s) && MeterOf(t', s, nozzle) == MeterOf(t, s, nozzle)
  {
    hide CopiedChildren, StationIsFree, ItemsError, SnapshotOf, MeterIn;
    assert t.nextId !in t.children;
    hide KeysOk;
    ApproveFacts(t, q, hash, now);
    hide ApproveError;
    var a := t.amendments[q.amendment];
    if s == a.shift {
      AmendedReadings(t.children[a.base], a.items, t.reports[a.base].version + 1, t.nextId + 1, nozzle);
    }
  }

  lemma RequestKeepsMeter(t: Tables, q: AmendRequest, hash: SnapshotHash, s: Id)
    requires HasReport(t, s) && AmendmentRequested(t, q, hash).Success?
    ensures SameCurrent(t, AmendmentRequested(t, q, hash).value, s)
  {
    hide RequestError, SnapshotOf;
  }

  lemma RejectKeepsMeter(t: Tables, station: Station, a: Id, approver: User, role: Role, reason: string, s: Id)
    requires HasReport(t, s) && AmendmentRejected(t, station, a, approver, role, reason).Success?
    ensures SameCurrent(t, AmendmentRejected(t, station, a, approver, role, reason).value, s)
  {
    hide DecideError;
  }

  lemma StepKeepsMeter(t: Tables, e: Event, hash: SnapshotHash, s: Id, nozzle: Id)
    requires Inv(t, hash) && HasReport(t, s)
    ensures HasReport(Next(t, e, hash), s) && MeterOf(Next(t, e, hash), s, nozzle) == MeterOf(t, s, nozzle)
  {
    hide KeysOk, ShiftsOk, DraftsOk, RevisionsOk, ReportsOk, CurrentOk, HeadsOk, StatusOk, DecisionsOk, SeparationOk,
      PendingOk, DigestsOk, AppliedOk, OriginOk, IdemOk, IdemKeysOk, ItemsOk, RowIdsOk, MeterIn, MarkedRows;
    hide ShiftOpened, DraftClaimed, LeaseExtended, RowWritten, Submitted, MarkedFailed, LeftInProgress,
      Acknowledged, AmendmentRequested, AmendmentRejected, AmendmentApproved;
    if Outcome(t, e, hash).Success? {
      match e.step
      case OpenShift(q) => OpenKeepsMeter(t, q, s);
      case Claim(draft, shift, actor) => ClaimFrame(t, draft, shift, actor, e.now);
      case Heartbeat(draft, actor, token) => ExtendFrame(t, draft, actor, token, e.now);
      case WriteRow(w, row) => WriteFrame(t, w, row, e.now);
      case Submit(q) => SubmitKeepsMeter(t, q, e.now, s);
      case MarkFailed(k, requestHash) => MarkedTables(t, k, requestHash);
      case LeaveInProgress(k, row) => LeftTables(t, k, row);
      case Acknowledge(q) => AckKeepsMeter(t, q, e.now, s);
      case RequestAmendment(q) => RequestKeepsMeter(t, q, hash, s);
      case RejectAmendment(station, a, approver, role, reason) => RejectKeepsMeter(t, station, a, approver, role, reason, s);
      case ApproveAmendment(q) => ApproveKeepsMeter(t, q, hash, e.now, s, nozzle);
      case ChangeScope(_, _) =>
    }
  }

  /** Once a shift has a report, its meters are the same in every later state, whatever is amended. */
  lemma {:induction false} MetersAreFinal(t: Tables, run: seq<Event>, hash: SnapshotHash, s: Id, nozzle: Id)
    requires Inv(t, hash) && HasReport(t, s)
    ensures HasReport(After(t, run, hash), s) && MeterOf(After(t, run, hash), s, nozzle) == MeterOf(t, s, nozzle)
  {
    hide Inv, HasReport, MeterOf, Next;
    if run != [] {
      var front := run[..|run| - 1];
      MetersAreFinal(t, front, hash, s, nozzle);
      RunKeeps(t, front, hash);
      StepKeepsMeter(After(t, front, hash), run[|run| - 1], hash, s, nozzle);
    }
  }

  // ----- What a submission checks about a meter -----

  /** A first submission of a shift that is not backfilled, accepted in a state. */
  ghost predicate IsFirstSubmit(t: Tables, e: Event) {
    && e.step.Submit? && Submitted(t, e.step.submit, e.now).Success?
    && CheckIdempotency(t, e.step.submit, e.now).Proceed?
    && e.step.submit.shift in t.shifts && t.shifts[e.step.submit.shift].backfill.None?
  }

  /** The checks one accepted meter pair passed. */
  ghost predicate PassedChecks(t: Tables, q: SubmitRequest, nozzle: Id, m: Meter) {
    && q.shift in t.shifts && q.policies.threshold.Some?
    && SnapshotItem(t.shifts[q.shift].catalog, nozzle).Some?
    && ValidateMeterStart(m.start, PredecessorEnd(t, t.shifts[q.shift], nozzle),
                          ResetValue(q.policies.resets, t.shifts[q.shift].station, q.shift, nozzle),
                          BaselineValue(q.policies.baselines, t.shifts[q.shift].station, t.shifts[q.shift].sequence, nozzle)).None?
    && CalculateMeterDelta(m.start, m.end, SnapshotItem(t.shifts[q.shift].catalog, nozzle).value.modulus,
                           q.policies.threshold.value).Success?
  }

  lemma {:induction false} PromotedPassed(t: Tables, q: SubmitRequest, rows: seq<DraftReading>, firstId: Id, nozzle: Id)
    requires q.shift in t.shifts && q.payload.Some? && q.policies.threshold.Some?
    requires PromotedReadings(t, q.shift, t.shifts[q.shift], rows, q.payload.value, q.policies, q.policies.threshold.value, firstId).Success?
    ensures var readings := PromotedReadings(t, q.shift, t.shifts[q.shift], rows, q.payload.value, q.policies, q.policies.threshold.value, firstId).value;
            forall i | 0 <= i < |readings| ::
              PassedChecks(t, q, readings[i].nozzle, Meter(readings[i].meterStart, readings[i].meterEnd))
  {
    hide ValidateMeterStart, CalculateMeterDelta, CalculateExpectedSaleRupiah, PredecessorEnd, InputFor, SnapshotItem, ResetValue, BaselineValue;
    if rows != [] {
      PromotedPassed(t, q, rows[..|rows| - 1], firstId, nozzle);
      hide Override;
    }
  }

  lemma {:induction false} FoundReading(rows: seq<Reading>, nozzle: Id)
    requires MeterIn(rows, nozzle).Some?
    ensures exists i :: 0 <= i < |rows| && rows[i].nozzle == nozzle
                        && MeterIn(rows, nozzle) == Some(Meter(rows[i].meterStart, rows[i].meterEnd))
  {
    if rows[0].nozzle == nozzle {
      assert MeterIn(rows, nozzle) == Some(Meter(rows[0].meterStart, rows[0].meterEnd));
    } else {
      FoundReading(rows[1..], nozzle);
      var i :| 0 <= i < |rows[1..]| && rows[1..][i].nozzle == nozzle
               && MeterIn(rows[1..], nozzle) == Some(Meter(rows[1..][i].meterStart, rows[1..][i].meterEnd));
      assert rows[i + 1] == rows[1..][i];
    }
  }

  lemma SubmittedMeter(t: Tables, e: Event, hash: SnapshotHash, nozzle: Id)
    requires IsFirstSubmit(t, e) && MeterOf(Next(t, e, hash), e.step.submit.shift, nozzle).Some?
    ensures PassedChecks(t, e.step.submit, nozzle, MeterOf(Next(t, e, hash), e.step.submit.shift, nozzle).value)
  {
    hide PromotedReadings, PromotedLosses, PromotedEvidence, EvidenceValid, PassedChecks, Holds, CheckIdempotency, MeterIn;
    var q := e.step.submit;
    var rows := t.draftRows[q.draft].readings;
    var readings := PromotedReadings(t, q.shift, t.shifts[q.shift], rows, q.payload.value, q.policies, q.policies.threshold.value, t.nextId + 1).value;
    assert MeterOf(Next(t, e, hash), q.shift, nozzle) == MeterIn(readings, nozzle);
    hide MeterOf, Next, Submitted;
    PromotedPassed(t, q, rows, t.nextId + 1, nozzle);
    FoundReading(readings, nozzle);
  }

  // ----- Conservation -----

  ghost predicate GoodMeter(m: Meter, modulus: real) {
    && IsDecimal(m.start) && IsDecimal(m.end)
    && Value(m.start) < modulus && Value(m.end) < modulus
  }

  /** The delta of one meter pair. */
  ghost function Delta(m: Meter, modulus: real): real
    requires GoodMeter(m, modulus)
  {
    Forward(Value(m.start), Value(m.end), modulus)
  }

  ghost predicate RollsOver(m: Meter, modulus: real)
    requires GoodMeter(m, modulus)
  {
    Value(m.end) < Value(m.start)
  }

  ghost predicate GoodMeters(ms: seq<Meter>, modulus: real) {
    forall i | 0 <= i < |ms| :: GoodMeter(ms[i], modulus)
  }

  ghost function TotalDelta(ms: seq<Meter>, modulus: real): real
    requires GoodMeters(ms, modulus)
  {
    if ms == [] then 0.0 else TotalDelta(ms[..|ms| - 1], modulus) + Delta(ms[|ms| - 1], modulus)
  }

  ghost function Rollovers(ms: seq<Meter>, modulus: real): nat
    requires GoodMeters(ms, modulus)
  {
    if ms == [] then 0
    else Rollovers(ms[..|ms| - 1], modulus) + if RollsOver(ms[|ms| - 1], modulus) then 1 else 0
  }

  /** Each meter starts where the one before it ended. */
  ghost predicate Linked(ms: seq<Meter>, modulus: real)
    requires GoodMeters(ms, modulus)
  {
    forall i | 0 < i < |ms| :: Value(ms[i].start) == Value(ms[i - 1].end)
  }

  lemma OneMore(modulus: real, n: nat, more: bool)
    ensures modulus * (n + if more then 1 else 0) as real == modulus * n as real + (if more then modulus else 0.0)
  {
  }

  /** Linked deltas telescope: end minus start, plus the dial for each rollover. */
  lemma {:induction false} DeltasTelescope(ms: seq<Meter>, modulus: real)
    requires ms != [] && GoodMeters(ms, modulus) && Linked(ms, modulus)
    ensures TotalDelta(ms, modulus)
            == Value(ms[|ms| - 1].end) - Value(ms[0].start) + modulus * Rollovers(ms, modulus) as real
  {
    hide Value, IsDecimal;
    var last := |ms| - 1;
    var front := ms[..last];
    assert Delta(ms[last], modulus)
        == Value(ms[last].end) - Value(ms[last].start) + (if RollsOver(ms[last], modulus) then modulus else 0.0);
    if last > 0 {
      DeltasTelescope(front, modulus);
      assert front[last - 1] == ms[last - 1];
      assert Value(ms[last].start) == Value(ms[last - 1].end);
      hide Linked, GoodMeters, GoodMeter, Delta;
      OneMore(modulus, Rollovers(front, modulus), RollsOver(ms[last], modulus));
    } else {
      assert front == [];
    }
  }

  /** One link of a chain: the event of the run that submitted the shift. */
  datatype Link = Link(shift: Id, at: nat)

  ghost predicate DialOf(t: Tables, s: Id, nozzle: Id, modulus: real) {
    && s in t.shifts && SnapshotItem(t.shifts[s].catalog, nozzle).Some?
    && IsDecimal(SnapshotItem(t.shifts[s].catalog, nozzle).value.modulus)
    && Value(SnapshotItem(t.shifts[s].catalog, nozzle).value.modulus) == modulus
  }

  /** The link's event is a first submission of its shift, on a dial of the given size, with a reading for the nozzle. */
  ghost predicate IsLink(t: Tables, run: seq<Event>, hash: SnapshotHash, link: Link, nozzle: Id, modulus: real) {
    && link.at < |run|
    && IsFirstSubmit(After(t, run[..link.at], hash), run[link.at])
    && run[link.at].step.submit.shift == link.shift
    && DialOf(After(t, run[..link.at], hash), link.shift, nozzle, modulus)
    && MeterOf(After(t, run[..link.at + 1], hash), link.shift, nozzle).Some?
  }

  /** No reset and no baseline is in force for the nozzle of the shift. */
  ghost predicate NothingOverrides(t: Tables, q: SubmitRequest, nozzle: Id)
    requires q.shift in t.shifts
  {
    var shift := t.shifts[q.shift];
    && ResetValue(q.policies.resets, shift.station, q.shift, nozzle) == ""
    && BaselineValue(q.policies.baselines, shift.station, shift.sequence, nozzle) == ""
  }

  /** When it was submitted, the shift's predecessor was the one before it, with a reading and no reset or baseline. */
  ghost predicate Follows(t: Tables, run: seq<Event>, hash: SnapshotHash, before: Link, link: Link, nozzle: Id)
    requires link.at < |run| && run[link.at].step.Submit?
  {
    var prior := After(t, run[..link.at], hash);
    var q := run[link.at].step.submit;
    && link.shift in prior.shifts
    && Predecessor(prior.shifts, prior.shifts[link.shift].station, prior.shifts[link.shift].sequence, false) == Some(before.shift)
    && MeterOf(prior, before.shift, nozzle).Some?
    && q.shift in prior.shifts && NothingOverrides(prior, q, nozzle)
  }

  ghost predicate IsChain(t: Tables, run: seq<Event>, hash: SnapshotHash, links: seq<Link>, nozzle: Id, modulus: real) {
    && (forall i | 0 <= i < |links| :: IsLink(t, run, hash, links[i], nozzle, modulus))
    && (forall i | 0 < i < |links| :: IsLink(t, run, hash, links[i], nozzle, modulus)
          && Follows(t, run, hash, links[i - 1], links[i], nozzle))
  }

  /** The meters of a chain as the run leaves them. */
  ghost function MetersOf(t: Tables, links: seq<Link>, nozzle: Id): seq<Meter> {
    seq(|links|, i requires 0 <= i < |links| =>
      if MeterOf(t, links[i].shift, nozzle).Some? then MeterOf(t, links[i].shift, nozzle).value else Meter("", ""))
  }

  lemma SplitRun(t: Tables, run: seq<Event>, hash: SnapshotHash, i: nat)
    requires i <= |run|
    ensures After(t, run, hash) == After(After(t, run[..i], hash), run[i..], hash)
  {
    hide After;
    assert run == run[..i] + run[i..];
    RunInTwo(t, run[..i], run[i..], hash);
  }

  lemma LastEvent(t: Tables, run: seq<Event>, hash: SnapshotHash, i: nat)
    requires i < |run|
    ensures After(t, run[..i + 1], hash) == Next(After(t, run[..i], hash), run[i], hash)
  {
    hide Next;
    assert run[..i + 1][..i] == run[..i];
  }

  lemma MeterIsReported(t: Tables, s: Id, nozzle: Id)
    requires MeterOf(t, s, nozzle).Some?
    ensures HasReport(t, s)
  {
  }

  lemma LinkSubmits(t: Tables, run: seq<Event>, hash: SnapshotHash, link: Link, nozzle: Id, modulus: real)
    requires IsLink(t, run, hash, link, nozzle, modulus)
    ensures link.at < |run| && IsFirstSubmit(After(t, run[..link.at], hash), run[link.at])
    ensures run[link.at].step.Submit? && run[link.at].step.submit.shift == link.shift
    ensures MeterOf(After(t, run[..link.at + 1], hash), link.shift, nozzle).Some?
    ensures DialOf(After(t, run[..link.at], hash), link.shift, nozzle, modulus)
  {
    hide After, MeterOf, DialOf, Submitted, CheckIdempotency, Next;
  }

  /** The final meter of a link is the one its submission checked. */
  /** The meter some later tables report for a submitted shift passed that submission's checks. */
  ghost predicate LinkPassed(prior: Tables, e: Event, later: Tables, s: Id, nozzle: Id) {
    && e.step.Submit? && MeterOf(later, s, nozzle).Some?
    && PassedChecks(prior, e.step.submit, nozzle, MeterOf(later, s, nozzle).value)
  }

  lemma PassedIsLinked(prior: Tables, e: Event, later: Tables, s: Id, nozzle: Id)
    requires e.step.Submit? && MeterOf(later, s, nozzle).Some?
    requires PassedChecks(prior, e.step.submit, nozzle, MeterOf(later, s, nozzle).value)
    ensures LinkPassed(prior, e, later, s, nozzle)
  {
  }

  lemma LinkMeter(t: Tables, run: seq<Event>, hash: SnapshotHash, link: Link, nozzle: Id, modulus: real)
    requires Inv(t, hash) && IsLink(t, run, hash, link, nozzle, modulus)
    ensures link.at < |run|
    ensures LinkPassed(After(t, run[..link.at], hash), run[link.at], After(t, run, hash), link.shift, nozzle)
  {
    hide *;
    LinkSubmits(t, run, hash, link, nozzle, modulus);
    var prior := After(t, run[..link.at], hash);
    var after := After(t, run[..link.at + 1], hash);
    LastEvent(t, run, hash, link.at);
    MeterIsReported(after, link.shift, nozzle);
    SubmittedMeter(prior, run[link.at], hash, nozzle);
    RunKeeps(t, run[..link.at + 1], hash);
    MetersAreFinal(after, run[link.at + 1..], hash, link.shift, nozzle);
    SplitRun(t, run, hash, link.at + 1);
    PassedIsLinked(prior, run[link.at], After(t, run, hash), link.shift, nozzle);
  }

  lemma CheckedIsGood(t: Tables, q: SubmitRequest, nozzle: Id, m: Meter, modulus: real)
    requires PassedChecks(t, q, nozzle, m) && DialOf(t, q.shift, nozzle, modulus)
    ensures GoodMeter(m, modulus)
  {
    hide IsDecimal, Value, SnapshotItem, ValidateMeterStart, CalculateMeterDelta;
    MeterDeltaAccepts(m.start, m.end, SnapshotItem(t.shifts[q.shift].catalog, nozzle).value.modulus, q.policies.threshold.value);
  }

  /** The delta of the chain is the delta the submission calculated. */
  lemma CheckedDelta(t: Tables, q: SubmitRequest, nozzle: Id, m: Meter, modulus: real)
    requires PassedChecks(t, q, nozzle, m) && DialOf(t, q.shift, nozzle, modulus) && GoodMeter(m, modulus)
    ensures var r := CalculateMeterDelta(m.start, m.end, SnapshotItem(t.shifts[q.shift].catalog, nozzle).value.modulus,
                                         q.policies.threshold.value);
            IsDecimal(r.value) && Value(r.value) == Delta(m, modulus)
  {
    hide IsDecimal, Value, SnapshotItem, ValidateMeterStart, CalculateMeterDelta;
    var item := SnapshotItem(t.shifts[q.shift].catalog, nozzle).value;
    MeterDeltaAccepts(m.start, m.end, item.modulus, q.policies.threshold.value);
    MeterDeltaIsExact(m.start, m.end, item.modulus, q.policies.threshold.value);
  }

  /** A checked meter starts where the predecessor's reading ended. */
  lemma CheckedStartsAtEnd(t: Tables, q: SubmitRequest, nozzle: Id, m: Meter, before: Id)
    requires PassedChecks(t, q, nozzle, m)
    requires Predecessor(t.shifts, t.shifts[q.shift].station, t.shifts[q.shift].sequence, false) == Some(before)
    requires MeterOf(t, before, nozzle).Some? && IsDecimal(MeterOf(t, before, nozzle).value.end)
    requires NothingOverrides(t, q, nozzle)
    ensures IsDecimal(m.start) && Value(m.start) == Value(MeterOf(t, before, nozzle).value.end)
  {
    hide Value, CalculateMeterDelta, SnapshotItem, ReadingFor;
    assert PredecessorEnd(t, t.shifts[q.shift], nozzle) == MeterOf(t, before, nozzle).value.end;
    hide PredecessorEnd, MeterOf, CurrentEnd;
  }

  ghost predicate SameMark(before: Meter, m: Meter) {
    IsDecimal(before.end) && IsDecimal(m.start) && Value(m.start) == Value(before.end)
  }

  ghost predicate MarkAt(ms: seq<Meter>, i: int) {
    0 < i < |ms| && SameMark(ms[i - 1], ms[i])
  }

  lemma MarksLink(ms: seq<Meter>, modulus: real)
    requires GoodMeters(ms, modulus) && forall i | 0 < i < |ms| :: MarkAt(ms, i)
    ensures Linked(ms, modulus)
  {
    hide Value, IsDecimal;
    assert forall i | 0 < i < |ms| :: MarkAt(ms, i) ==> Value(ms[i].start) == Value(ms[i - 1].end);
  }

  lemma ChainMeter(t: Tables, run: seq<Event>, hash: SnapshotHash, link: Link, nozzle: Id, modulus: real)
    requires Inv(t, hash) && IsLink(t, run, hash, link, nozzle, modulus)
    ensures MeterOf(After(t, run, hash), link.shift, nozzle).Some?
    ensures GoodMeter(MeterOf(After(t, run, hash), link.shift, nozzle).value, modulus)
  {
    hide Inv, After, MeterOf, IsLink, IsFirstSubmit, DialOf, GoodMeter, PassedChecks;
    LinkMeter(t, run, hash, link, nozzle, modulus);
    LinkSubmits(t, run, hash, link, nozzle, modulus);
    CheckedIsGood(After(t, run[..link.at], hash), run[link.at].step.submit, nozzle,
                  MeterOf(After(t, run, hash), link.shift, nozzle).value, modulus);
  }

  lemma ChainStep(t: Tables, run: seq<Event>, hash: SnapshotHash, before: Link, link: Link, nozzle: Id, modulus: real)
    requires Inv(t, hash) && IsLink(t, run, hash, before, nozzle, modulus) && IsLink(t, run, hash, link, nozzle, modulus)
    requires link.at < |run| && run[link.at].step.Submit? && Follows(t, run, hash, before, link, nozzle)
    requires MeterOf(After(t, run, hash), before.shift, nozzle).Some? && MeterOf(After(t, run, hash), link.shift, nozzle).Some?
    requires GoodMeter(MeterOf(After(t, run, hash), before.shift, nozzle).value, modulus)
    ensures SameMark(MeterOf(After(t, run, hash), before.shift, nozzle).value, MeterOf(After(t, run, hash), link.shift, nozzle).value)
  {
    var prior := After(t, run[..link.at], hash);
    assert HasReport(prior, before.shift);
    hide Inv, After, MeterOf, IsLink, Value, IsDecimal, HasReport, PassedChecks;
    LinkMeter(t, run, hash, link, nozzle, modulus);
    LinkSubmits(t, run, hash, link, nozzle, modulus);
    RunKeeps(t, run[..link.at], hash);
    MetersAreFinal(prior, run[link.at..], hash, before.shift, nozzle);
    SplitRun(t, run, hash, link.at);
    CheckedStartsAtEnd(prior, run[link.at].step.submit, nozzle, MeterOf(After(t, run, hash), link.shift, nozzle).value, before.shift);
  }

  /**
   Over any chain of shifts, each the predecessor of the next when the next was
   submitted, the deltas recorded at the end of the run add up to the distance
   between the first start and the last end, plus the dial for each rollover,
   whatever amendments came in between.
   */
  lemma MeterConservation(t: Tables, run: seq<Event>, hash: SnapshotHash, links: seq<Link>, nozzle: Id, modulus: real)
    requires Inv(t, hash) && links != [] && IsChain(t, run, hash, links, nozzle, modulus)
    ensures var ms := MetersOf(After(t, run, hash), links, nozzle);
            && |ms| == |links| && GoodMeters(ms, modulus)
            && TotalDelta(ms, modulus)
               == Value(ms[|ms| - 1].end) - Value(ms[0].start) + modulus * Rollovers(ms, modulus) as real
  {
    var ms := MetersOf(After(t, run, hash), links, nozzle);
    hide Inv, After, MeterOf, IsLink, Follows, GoodMeter, Value, IsDecimal, TotalDelta, Rollovers;
    forall i | 0 <= i < |ms| ensures GoodMeter(ms[i], modulus) {
      ChainMeter(t, run, hash, links[i], nozzle, modulus);
    }
    forall i | 0 < i < |ms| ensures MarkAt(ms, i) {
      LinkSubmits(t, run, hash, links[i], nozzle, modulus);
      ChainMeter(t, run, hash, links[i - 1], nozzle, modulus);
      ChainMeter(t, run, hash, links[i], nozzle, modulus);
      ChainStep(t, run, hash, links[i - 1], links[i], nozzle, modulus);
    }
    hide IsChain, MetersOf;
    MarksLink(ms, modulus);
    DeltasTelescope(ms, modulus);
  }

  // ----- Backfilled shifts -----

  /** A backfilled shift's readings each repeat a reading of the last locked shift, and say which. */
  ghost predicate IsCarried(t: Tables, shift: Shift, nozzle: Id, r: Reading) {
    var p := Predecessor(t.shifts, shift.station, shift.sequence, true);
    && p.Some? && p.value in t.shifts && t.shifts[p.value].current.Some? && t.shifts[p.value].current.value in t.children
    && var report := t.shifts[p.value].current.value;
       var source := ReadingFor(t.children[report].readings, nozzle);
       source.Some? && r.nozzle == source.value.nozzle
       && r.meterStart == source.value.meterStart && r.meterEnd == source.value.meterEnd
       && r.price == source.value.price && r.expectedSale == source.value.expectedSale && !r.observed
       && r.source == Some(Source(p.value, report, source.value.id))
  }

  lemma {:induction false} BackfillRepeatsTheSource(t: Tables, shift: Shift, items: seq<CatalogItem>, firstId: Id)
    requires CarriedReadings(t, shift, items, firstId).Success?
    ensures var readings := CarriedReadings(t, shift, items, firstId).value;
            && |readings| == |items|
            && (forall i | 0 <= i < |items| :: IsCarried(t, shift, items[i].nozzle, readings[i]))
            && (forall i, j | 0 <= i < j < |items| :: readings[i].nozzle != readings[j].nozzle)
  {
    hide ReadingFor;
    if items != [] {
      BackfillRepeatsTheSource(t, shift, items[..|items| - 1], firstId);
    }
  }
}
