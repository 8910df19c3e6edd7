/**
 Alert events (internal/repository/governance): single occurrences recorded on
 request, and the scheduler's pass over overdue and locked shifts.
 */
module Alerts {
  import opened Wrappers
  import L = LedgerTables

  type Id = nat
  type Station = nat
  /** Microseconds. */
  type Time = int

  const HOUR: Time := 3600 * 1000000
  const DAY: Time := 24 * HOUR

  datatype SubjectKind = OfShift | OfReport

  datatype Subject = Subject(kind: SubjectKind, id: Id)

  datatype AlertKind = Fired | Cleared

  datatype SourceKind = ShiftTransition | OfReportVersion | Scheduler | OfAmendment

  datatype AlertEvent = AlertEvent(
    id: Id,
    station: Station,
    rule: Id,
    subject: Subject,
    kind: AlertKind,
    periodStart: Time,
    related: Option<Id>,
    source: SourceKind,
    version: Option<int>,
    createdAt: Time)

  datatype Rule = Rule(id: Id, station: Station, starvation: bool, enabled: bool)

  datatype Shift = Shift(id: Id, station: Station, status: L.ShiftStatus, openedAt: Time)

  /** The event table in insertion order, and the next generated identifier. */
  datatype State = State(events: seq<AlertEvent>, nextId: Id)

  datatype AlertError = InvalidRequest | RelatedRequired | ConstraintViolation

  // ----- The constraints of the table -----

  /** The hour a period starts in. */
  function Bucket(t: Time): int {
    t / HOUR
  }

  predicate SameKey(a: AlertEvent, b: AlertEvent) {
    && a.station == b.station && a.rule == b.rule && a.subject == b.subject && a.kind == b.kind
    && Bucket(a.periodStart) == Bucket(b.periodStart)
  }

  predicate SameRelation(a: AlertEvent, b: AlertEvent) {
    a.station == b.station && a.related.Some? && a.related == b.related && a.kind == b.kind
  }

  predicate IsCalled(events: seq<AlertEvent>, station: Station, id: Id) {
    exists i :: 0 <= i < |events| && events[i].station == station && events[i].id == id
  }

  /** Exactly the events about reports name a report version. */
  predicate VersionFits(source: SourceKind, version: Option<int>) {
    if source == Scheduler || source == ShiftTransition then version.None? else version.Some? && version.value > 0
  }

  /**
   The unique keys, the foreign key and the checks an inserted event must
   meet. A clear's own identifier is freshly generated, so it never is the one
   the clear names.
   */
  predicate Storable(events: seq<AlertEvent>, e: AlertEvent) {
    && (forall i | 0 <= i < |events| :: !SameKey(events[i], e) && !SameRelation(events[i], e))
    && e.related.Some?
    && (if e.kind == Fired then e.related == Some(e.id) else IsCalled(events, e.station, e.related.value))
    && VersionFits(e.source, e.version)
  }

  function Insert(s: State, e: AlertEvent): Result<State, AlertError> {
    if Storable(s.events, e) then Success(State(s.events + [e], s.nextId + 1)) else Failure(ConstraintViolation)
  }

  // ----- One occurrence -----

  datatype Occurrence = Occurrence(
    station: Station,
    rule: Id,
    subject: Subject,
    kind: AlertKind,
    periodStart: Time,
    related: Option<Id>,
    source: SourceKind,
    version: Option<int>)

  predicate Matches(e: AlertEvent, q: Occurrence) {
    if q.kind == Cleared then e.station == q.station && e.related == q.related && e.kind == Cleared
    else
      && e.station == q.station && e.rule == q.rule && e.subject == q.subject && e.kind == Fired
      && Bucket(e.periodStart) == Bucket(q.periodStart)
  }

  function RuleNamed(rules: seq<Rule>, station: Station, id: Id): Option<Rule> {
    if rules == [] then None
    else if rules[0].station == station && rules[0].id == id then Some(rules[0])
    else RuleNamed(rules[1..], station, id)
  }

  /** The event an occurrence adds; a fired event relates to itself. */
  function EventFor(s: State, q: Occurrence, now: Time): AlertEvent {
    AlertEvent(s.nextId, q.station, q.rule, q.subject, q.kind, q.periodStart,
               if q.kind == Fired then Some(s.nextId) else q.related, q.source, q.version, now)
  }

  function Occurred(s: State, rules: seq<Rule>, q: Occurrence, now: Time): Result<State, AlertError> {
    var rule := RuleNamed(rules, q.station, q.rule);
    if rule.None? then Failure(InvalidRequest)
    else if !rule.value.enabled && q.kind == Fired then Success(s)
    else if q.kind == Cleared && q.related.None? then Failure(RelatedRequired)
    else if exists i :: 0 <= i < |s.events| && Matches(s.events[i], q) then Success(s)
    else
      Insert(s, EventFor(s, q, now))
  }

  // ----- The scheduler's pass -----

  datatype Pair = Pair(shift: Shift, rule: Rule)

  /** The events of a rule about a shift. */
  predicate About(e: AlertEvent, p: Pair) {
    e.station == p.shift.station && e.rule == p.rule.id && e.subject == Subject(OfShift, p.shift.id)
  }

  predicate HasFired(events: seq<AlertEvent>, p: Pair) {
    exists i :: 0 <= i < |events| && About(events[i], p) && events[i].kind == Fired
                && Bucket(events[i].periodStart) == Bucket(p.shift.openedAt)
  }

  predicate HasClear(events: seq<AlertEvent>, fired: AlertEvent) {
    exists i :: 0 <= i < |events| && events[i].station == fired.station && events[i].related == Some(fired.id)
                && events[i].kind == Cleared
  }

  function FiredOf(events: seq<AlertEvent>, p: Pair): seq<AlertEvent> {
    if events == [] then []
    else
      var last := events[|events| - 1];
      FiredOf(events[..|events| - 1], p) + if About(last, p) && last.kind == Fired then [last] else []
  }

  function FireEvent(s: State, p: Pair, now: Time): AlertEvent {
    AlertEvent(s.nextId, p.shift.station, p.rule.id, Subject(OfShift, p.shift.id), Fired, p.shift.openedAt, Some(s.nextId),
               Scheduler, None, now)
  }

  function ClearEvent(s: State, p: Pair, fired: AlertEvent, now: Time): AlertEvent {
    AlertEvent(s.nextId, p.shift.station, p.rule.id, Subject(OfShift, p.shift.id), Cleared, fired.periodStart, Some(fired.id),
               ShiftTransition, None, now)
  }

  function ClearAll(s: State, p: Pair, fired: seq<AlertEvent>, now: Time): Result<State, AlertError> {
    if fired == [] then Success(s)
    else
      var last := fired[|fired| - 1];
      match ClearAll(s, p, fired[..|fired| - 1], now)
      case Failure(e) => Failure(e)
      case Success(done) => if HasClear(done.events, last) then Success(done) else Insert(done, ClearEvent(done, p, last, now))
  }

  predicate IsOverdue(p: Pair, now: Time) {
    L.IsActive(p.shift.status) && p.shift.openedAt <= now - DAY && p.rule.enabled
  }

  function EvaluatePair(s: State, p: Pair, now: Time): Result<State, AlertError> {
    if IsOverdue(p, now) then
      if HasFired(s.events, p) then Success(s) else Insert(s, FireEvent(s, p, now))
    else if p.shift.status == L.Locked then ClearAll(s, p, FiredOf(s.events, p), now)
    else Success(s)
  }

  function EvaluatePairs(s: State, pairs: seq<Pair>, now: Time): Result<State, AlertError> {
    if pairs == [] then Success(s)
    else
      match EvaluatePairs(s, pairs[..|pairs| - 1], now)
      case Failure(e) => Failure(e)
      case Success(done) => EvaluatePair(done, pairs[|pairs| - 1], now)
  }

  /** The starvation rules of a shift's station. */
  function PairsOf(shift: Shift, rules: seq<Rule>): seq<Pair> {
    if rules == [] then []
    else
      var last := rules[|rules| - 1];
      PairsOf(shift, rules[..|rules| - 1])
      + if last.starvation && last.station == shift.station then [Pair(shift, last)] else []
  }

  predicate IsLoaded(shift: Shift, now: Time) {
    shift.status != L.NeedsCorrection && shift.openedAt <= now
  }

  /** Every loaded shift with every rule of its station. */
  function AllPairs(shifts: seq<Shift>, rules: seq<Rule>, now: Time): seq<Pair> {
    if shifts == [] then []
    else
      var last := shifts[|shifts| - 1];
      AllPairs(shifts[..|shifts| - 1], rules, now) + if IsLoaded(last, now) then PairsOf(last, rules) else []
  }

  function Evaluated(s: State, shifts: seq<Shift>, rules: seq<Rule>, now: Time, window: Time): Result<State, AlertError> {
    if window != DAY then Failure(InvalidRequest) else EvaluatePairs(s, AllPairs(shifts, rules, now), now)
  }

  // ----- What every reachable table satisfies -----

  ghost predicate StateOk(s: State) {
    && (forall i | 0 <= i < |s.events| ::
          s.events[i].id < s.nextId && s.events[i].related.Some? && s.events[i].related.value < s.nextId)
    && (forall i, j | 0 <= i < j < |s.events| ::
          && s.events[i].id != s.events[j].id
          && !SameKey(s.events[i], s.events[j]) && !SameRelation(s.events[i], s.events[j]))
  }

  lemma InsertKeeps(s: State, e: AlertEvent)
    requires StateOk(s) && e.id == s.nextId && Insert(s, e).Success?
    ensures StateOk(Insert(s, e).value)
  {
    hide Bucket;
    var after := Insert(s, e).value;
    if e.related != Some(e.id) {
      var i :| 0 <= i < |s.events| && s.events[i].station == e.station && s.events[i].id == e.related.value;
      assert e.related.value < s.nextId;
    }
    forall i, j | 0 <= i < j < |after.events|
      ensures after.events[i].id != after.events[j].id
      ensures !SameKey(after.events[i], after.events[j]) && !SameRelation(after.events[i], after.events[j])
    {
      assert after.events[i] == s.events[i];
      if j < |s.events| {
        assert after.events[j] == s.events[j];
      }
    }
  }

  lemma {:induction false} ClearAllKeeps(s: State, p: Pair, fired: seq<AlertEvent>, now: Time)
    requires StateOk(s) && ClearAll(s, p, fired, now).Success?
    ensures StateOk(ClearAll(s, p, fired, now).value)
  {
    hide StateOk, Insert, HasClear;
    if fired != [] {
      var last := fired[|fired| - 1];
      ClearAllKeeps(s, p, fired[..|fired| - 1], now);
      var done := ClearAll(s, p, fired[..|fired| - 1], now).value;
      if !HasClear(done.events, last) {
        InsertKeeps(done, ClearEvent(done, p, last, now));
      }
    }
  }

  lemma PairKeeps(s: State, p: Pair, now: Time)
    requires StateOk(s) && EvaluatePair(s, p, now).Success?
    ensures StateOk(EvaluatePair(s, p, now).value)
  {
    hide StateOk, Insert, HasFired, ClearAll;
    if IsOverdue(p, now) {
      if !HasFired(s.events, p) {
        InsertKeeps(s, FireEvent(s, p, now));
      }
    } else if p.shift.status == L.Locked {
      ClearAllKeeps(s, p, FiredOf(s.events, p), now);
    }
  }

  lemma {:induction false} PairsKeep(s: State, pairs: seq<Pair>, now: Time)
    requires StateOk(s) && EvaluatePairs(s, pairs, now).Success?
    ensures StateOk(EvaluatePairs(s, pairs, now).value)
  {
    hide StateOk, EvaluatePair;
    if pairs != [] {
      PairsKeep(s, pairs[..|pairs| - 1], now);
      PairKeeps(EvaluatePairs(s, pairs[..|pairs| - 1], now).value, pairs[|pairs| - 1], now);
    }
  }

  lemma OccurrenceKeeps(s: State, rules: seq<Rule>, q: Occurrence, now: Time)
    requires StateOk(s) && Occurred(s, rules, q, now).Success?
    ensures StateOk(Occurred(s, rules, q, now).value)
  {
    hide StateOk, Insert, Matches, RuleNamed;
    if Occurred(s, rules, q, now).value != s {
      InsertKeeps(s, EventFor(s, q, now));
    }
  }

  /** Shifts and rules may change in any way between two steps. */
  datatype Step =
    | Record(recordRules: seq<Rule>, q: Occurrence, recordedAt: Time)
    | Evaluate(shifts: seq<Shift>, rules: seq<Rule>, now: Time, window: Time)

  function Next(s: State, step: Step): State {
    var r := match step
             case Record(rules, q, now) => Occurred(s, rules, q, now)
             case Evaluate(shifts, rules, now, window) => Evaluated(s, shifts, rules, now, window);
    if r.Success? then r.value else s
  }

  function After(s: State, steps: seq<Step>): State {
    if steps == [] then s else Next(After(s, steps[..|steps| - 1]), steps[|steps| - 1])
  }

  lemma {:induction false} RunKeeps(s: State, steps: seq<Step>)
    requires StateOk(s)
    ensures StateOk(After(s, steps))
  {
    hide StateOk, Occurred, EvaluatePairs;
    if steps != [] {
      var before, step := After(s, steps[..|steps| - 1]), steps[|steps| - 1];
      RunKeeps(s, steps[..|steps| - 1]);
      match step
      case Record(rules, q, now) =>
        if Occurred(before, rules, q, now).Success? {
          OccurrenceKeeps(before, rules, q, now);
        }
      case Evaluate(shifts, rules, now, window) =>
        if Evaluated(before, shifts, rules, now, window).Success? {
          PairsKeep(before, AllPairs(shifts, rules, now), now);
        }
    }
  }

  /** Two clears of one fired event. */
  predicate AnswersSame(a: AlertEvent, b: AlertEvent) {
    a.kind == Cleared && b.kind == Cleared && a.station == b.station && a.related == b.related
  }

  lemma KeyIsSymmetric(a: AlertEvent, b: AlertEvent)
    ensures SameKey(a, b) <==> SameKey(b, a)
  {
  }

  /** Over any history a rule fires about a subject at most once an hour, and a fired event is cleared at most once. */
  lemma AlertsAreUnique(steps: seq<Step>, i: nat, j: nat)
    requires var events := After(State([], 1), steps).events; i < |events| && j < |events|
    ensures var events := After(State([], 1), steps).events;
            && (SameKey(events[i], events[j]) ==> i == j)
            && (AnswersSame(events[i], events[j]) ==> i == j)
  {
    hide After, SameKey;
    RunKeeps(State([], 1), steps);
    var events := After(State([], 1), steps).events;
    if i != j {
      assert !SameKey(events[if i < j then i else j], events[if i < j then j else i]);
      KeyIsSymmetric(events[i], events[j]);
      assert !SameRelation(events[if i < j then i else j], events[if i < j then j else i]);
    }
  }

  // ----- Which occurrences are refused -----

  /** A clear of the same rule and subject sits in the hour. */
  predicate ClearTaken(events: seq<AlertEvent>, q: Occurrence) {
    exists i :: 0 <= i < |events| && events[i].station == q.station && events[i].rule == q.rule
                && events[i].subject == q.subject && events[i].kind == Cleared
                && Bucket(events[i].periodStart) == Bucket(q.periodStart)
  }

  /** No event of the station has the identifier. */
  predicate NoneIsCalled(events: seq<AlertEvent>, station: Station, id: Id) {
    forall i | 0 <= i < |events| && events[i].station == station :: events[i].id != id
  }

  /** What the table refuses about an occurrence it does not hold yet. */
  predicate IsMisfit(events: seq<AlertEvent>, q: Occurrence) {
    || (q.source in {Scheduler, ShiftTransition} && q.version.Some?)
    || (q.source in {OfReportVersion, OfAmendment} && (q.version.None? || q.version.value <= 0))
    || (q.kind == Cleared && (q.related.None? || NoneIsCalled(events, q.station, q.related.value) || ClearTaken(events, q)))
  }

  lemma StorableIff(s: State, q: Occurrence, now: Time)
    requires StateOk(s) && (q.kind == Cleared ==> q.related.Some?)
    requires forall i | 0 <= i < |s.events| :: !Matches(s.events[i], q)
    ensures Storable(s.events, EventFor(s, q, now)) <==> !IsMisfit(s.events, q)
  {
    hide Bucket;
    var e := EventFor(s, q, now);
    assert q.related.Some? ==> (IsCalled(s.events, q.station, q.related.value) <==> !NoneIsCalled(s.events, q.station, q.related.value));
    hide IsCalled, NoneIsCalled;
    forall i | 0 <= i < |s.events| ensures !SameRelation(s.events[i], e) {
      assert !Matches(s.events[i], q);
    }
    if q.kind == Cleared && ClearTaken(s.events, q) {
      var i :| 0 <= i < |s.events| && s.events[i].station == q.station && s.events[i].rule == q.rule
               && s.events[i].subject == q.subject && s.events[i].kind == Cleared
               && Bucket(s.events[i].periodStart) == Bucket(q.periodStart);
      assert SameKey(s.events[i], e);
    } else {
      forall i | 0 <= i < |s.events| ensures !SameKey(s.events[i], e) {
        assert !Matches(s.events[i], q);
      }
    }
  }

  /**
   A recorded occurrence is refused exactly when its rule is unknown, when it
   clears nothing, or when it is not on record yet and does not fit: its
   version and source disagree, or it is a clear of an event that does not
   exist or in an hour in which the rule already cleared something about the
   subject. A fired event of a disabled rule is skipped, not refused.
   */
  lemma OccurrenceRefusedIff(s: State, rules: seq<Rule>, q: Occurrence, now: Time)
    requires StateOk(s)
    ensures Occurred(s, rules, q, now).Failure? <==>
            || RuleNamed(rules, q.station, q.rule).None?
            || (q.kind == Cleared && q.related.None?)
            || (&& (q.kind == Cleared || RuleNamed(rules, q.station, q.rule).value.enabled)
                && (forall i | 0 <= i < |s.events| :: !Matches(s.events[i], q))
                && IsMisfit(s.events, q))
  {
    hide StateOk, Storable, Matches, IsMisfit, RuleNamed;
    if (q.kind == Cleared ==> q.related.Some?) && forall i | 0 <= i < |s.events| :: !Matches(s.events[i], q) {
      StorableIff(s, q, now);
    }
  }

  // ----- What one pair adds -----

  /** An added event is about the pair, and a clear answers an earlier event about the pair. */
  ghost predicate Belongs(events: seq<AlertEvent>, e: AlertEvent, p: Pair) {
    && About(e, p)
    && (e.kind == Cleared ==> exists g :: g in events && About(g, p) && e.related == Some(g.id))
  }

  ghost predicate Extends(s: State, after: State, p: Pair) {
    && s.events <= after.events
    && (forall i | |s.events| <= i < |after.events| :: Belongs(s.events, after.events[i], p))
  }

  /** Nothing is left to do for a pair. */
  ghost predicate Settled(events: seq<AlertEvent>, p: Pair, now: Time) {
    && (IsOverdue(p, now) ==> HasFired(events, p))
    && (p.shift.status == L.Locked ==>
          forall i | 0 <= i < |events| && About(events[i], p) && events[i].kind == Fired :: HasClear(events, events[i]))
  }

  /** A fired event waits for its clear while another clear of the pair sits in its hour. */
  ghost predicate BlockedAt(events: seq<AlertEvent>, p: Pair, fired: AlertEvent) {
    && !HasClear(events, fired)
    && exists c :: 0 <= c < |events| && About(events[c], p) && events[c].kind == Cleared
                   && Bucket(events[c].periodStart) == Bucket(fired.periodStart)
  }

  ghost predicate Blocked(events: seq<AlertEvent>, p: Pair) {
    && p.shift.status == L.Locked
    && exists f :: 0 <= f < |events| && About(events[f], p) && events[f].kind == Fired && BlockedAt(events, p, events[f])
  }

  lemma {:induction false} FiredOfMembers(events: seq<AlertEvent>, p: Pair)
    ensures forall f :: f in FiredOf(events, p) <==> f in events && About(f, p) && f.kind == Fired
  {
    if events != [] {
      var n := |events| - 1;
      FiredOfMembers(events[..n], p);
      assert events == events[..n] + [events[n]];
    }
  }

  lemma {:induction false} FiredOfDistinct(events: seq<AlertEvent>, p: Pair)
    requires forall i, j | 0 <= i < j < |events| :: events[i].id != events[j].id
    ensures forall i, j | 0 <= i < j < |FiredOf(events, p)| :: FiredOf(events, p)[i].id != FiredOf(events, p)[j].id
  {
    hide About;
    if events != [] {
      var n := |events| - 1;
      FiredOfDistinct(events[..n], p);
      FiredOfMembers(events[..n], p);
      forall f | f in FiredOf(events[..n], p) ensures f.id != events[n].id {
        var i :| 0 <= i < n && events[i] == f;
      }
    }
  }

  /** Two fired events of a pair are fired in different hours. */
  lemma FiredApart(s: State, p: Pair, f: AlertEvent, g: AlertEvent)
    requires StateOk(s) && f in s.events && g in s.events && f.id != g.id
    requires About(f, p) && About(g, p) && f.kind == Fired && g.kind == Fired
    ensures Bucket(f.periodStart) != Bucket(g.periodStart)
  {
    hide Bucket;
    var i :| 0 <= i < |s.events| && s.events[i] == f;
    var j :| 0 <= j < |s.events| && s.events[j] == g;
    if i < j {
      assert !SameKey(s.events[i], s.events[j]);
    } else {
      assert !SameKey(s.events[j], s.events[i]);
    }
  }

  /** Where the clearing loop stands after the first fired events of a pair. */
  ghost predicate Clearing(s: State, done: State, p: Pair, fired: seq<AlertEvent>, n: nat)
    requires n <= |fired|
  {
    && Extends(s, done, p) && StateOk(done)
    && (forall i | |s.events| <= i < |done.events| ::
          && done.events[i].kind == Cleared
          && exists j :: 0 <= j < n && done.events[i].related == Some(fired[j].id)
                         && done.events[i].periodStart == fired[j].periodStart)
    && (forall j | 0 <= j < n :: HasClear(done.events, fired[j]))
  }

  lemma ClearStays(events: seq<AlertEvent>, more: seq<AlertEvent>, f: AlertEvent)
    requires events <= more && HasClear(events, f)
    ensures HasClear(more, f)
  {
    var i :| 0 <= i < |events| && events[i].station == f.station && events[i].related == Some(f.id) && events[i].kind == Cleared;
    assert more[i] == events[i];
  }

  /** Whether the next fired event is cleared is still what it was before the loop. */
  lemma ClearIsOld(s: State, done: State, p: Pair, fired: seq<AlertEvent>, n: nat)
    requires n < |fired| && Clearing(s, done, p, fired, n)
    requires forall i, j | 0 <= i < j < |fired| :: fired[i].id != fired[j].id
    ensures HasClear(done.events, fired[n]) <==> HasClear(s.events, fired[n])
  {
    hide StateOk, About;
    var f := fired[n];
    if HasClear(s.events, f) {
      ClearStays(s.events, done.events, f);
    }
    forall i | |s.events| <= i < |done.events| ensures done.events[i].related != Some(f.id) {
      var j :| 0 <= j < n && done.events[i].related == Some(fired[j].id)
               && done.events[i].periodStart == fired[j].periodStart;
      assert fired[j].id != fired[n].id;
    }
    if HasClear(done.events, f) {
      var i :| 0 <= i < |done.events| && done.events[i].station == f.station && done.events[i].related == Some(f.id)
               && done.events[i].kind == Cleared;
      assert s.events[i] == done.events[i];
    }
  }

  /** The clears the loop added answer events of other hours. */
  lemma AddedApart(s: State, done: State, p: Pair, fired: seq<AlertEvent>, n: nat, e: AlertEvent)
    requires StateOk(s) && fired == FiredOf(s.events, p) && n < |fired| && Clearing(s, done, p, fired, n)
    requires e.periodStart == fired[n].periodStart
    ensures forall i | |s.events| <= i < |done.events| :: !SameKey(done.events[i], e)
  {
    FiredOfMembers(s.events, p);
    FiredOfDistinct(s.events, p);
    hide Bucket, FiredOf, HasClear, StateOk, Extends, About;
    assert fired[n] in fired;
    forall i | |s.events| <= i < |done.events| ensures !SameKey(done.events[i], e) {
      var j :| 0 <= j < n && done.events[i].related == Some(fired[j].id)
               && done.events[i].periodStart == fired[j].periodStart;
      assert fired[j] in fired && fired[j].id != fired[n].id;
      FiredApart(s, p, fired[j], fired[n]);
    }
  }

  lemma NotBlocked(s: State, done: State, p: Pair, f: AlertEvent, e: AlertEvent)
    requires s.events <= done.events && !HasClear(s.events, f) && !BlockedAt(s.events, p, f)
    requires About(e, p) && e.kind == Cleared && e.periodStart == f.periodStart
    ensures forall i | 0 <= i < |s.events| :: !SameKey(done.events[i], e)
  {
    hide Bucket, HasClear;
    forall i | 0 <= i < |s.events| ensures !SameKey(done.events[i], e) {
      assert done.events[i] == s.events[i];
    }
  }

  /** The next fired event belongs to the pair and is still waiting for its clear. */
  lemma NextFired(s: State, done: State, p: Pair, fired: seq<AlertEvent>, n: nat)
    requires fired == FiredOf(s.events, p) && n < |fired| && Clearing(s, done, p, fired, n) && StateOk(s)
    requires !HasClear(s.events, fired[n])
    ensures fired[n] in s.events && About(fired[n], p) && fired[n].kind == Fired
    ensures s.events <= done.events && !HasClear(done.events, fired[n])
  {
    FiredOfMembers(s.events, p);
    FiredOfDistinct(s.events, p);
    ClearIsOld(s, done, p, fired, n);
    hide Bucket, FiredOf, StateOk, About, HasClear;
    assert fired[n] in fired;
  }

  lemma NoClearIsNamed(events: seq<AlertEvent>, f: AlertEvent, e: AlertEvent)
    requires !HasClear(events, f) && e.station == f.station && e.related == Some(f.id) && e.kind == Cleared
    ensures forall i | 0 <= i < |events| :: !SameRelation(events[i], e)
  {
  }

  lemma FiredIsCalled(events: seq<AlertEvent>, more: seq<AlertEvent>, f: AlertEvent)
    requires events <= more && f in events
    ensures IsCalled(more, f.station, f.id)
  {
    var at :| 0 <= at < |events| && events[at] == f;
    assert more[at] == f;
  }

  lemma BlockedIsTaken(events: seq<AlertEvent>, more: seq<AlertEvent>, p: Pair, f: AlertEvent, e: AlertEvent)
    requires events <= more && BlockedAt(events, p, f)
    requires About(e, p) && e.kind == Cleared && e.periodStart == f.periodStart
    ensures exists i :: 0 <= i < |more| && SameKey(more[i], e)
  {
    hide Bucket;
    var c :| 0 <= c < |events| && About(events[c], p) && events[c].kind == Cleared
             && Bucket(events[c].periodStart) == Bucket(f.periodStart);
    assert more[c] == events[c];
    assert SameKey(more[c], e);
  }

  /** The next clear can be stored exactly when no older clear sits in its hour. */
  lemma ClearStorable(s: State, done: State, p: Pair, fired: seq<AlertEvent>, n: nat, now: Time)
    requires StateOk(s) && fired == FiredOf(s.events, p) && n < |fired| && Clearing(s, done, p, fired, n)
    requires !HasClear(s.events, fired[n])
    ensures Storable(done.events, ClearEvent(done, p, fired[n], now)) <==> !BlockedAt(s.events, p, fired[n])
  {
    hide Bucket, FiredOf, StateOk, Clearing, BlockedAt, HasClear, Extends, IsCalled, SameKey;
    NextFired(s, done, p, fired, n);
    var f := fired[n];
    var e := ClearEvent(done, p, f, now);
    NoClearIsNamed(done.events, f, e);
    AddedApart(s, done, p, fired, n, e);
    FiredIsCalled(s.events, done.events, f);
    if BlockedAt(s.events, p, f) {
      BlockedIsTaken(s.events, done.events, p, f, e);
    } else {
      NotBlocked(s, done, p, f, e);
      assert forall i | 0 <= i < |done.events| :: !SameKey(done.events[i], e);
    }
  }

  lemma ClearAdded(s: State, done: State, p: Pair, fired: seq<AlertEvent>, n: nat, now: Time)
    requires n < |fired| && Clearing(s, done, p, fired, n) && fired[n] in s.events && About(fired[n], p)
    requires Insert(done, ClearEvent(done, p, fired[n], now)).Success?
    ensures Clearing(s, Insert(done, ClearEvent(done, p, fired[n], now)).value, p, fired, n + 1)
  {
    var f := fired[n];
    var e := ClearEvent(done, p, f, now);
    var after := Insert(done, e).value;
    InsertKeeps(done, e);
    hide StateOk, Storable, Bucket;
    assert after.events[|done.events|] == e;
    assert HasClear(after.events, f);
    forall j | 0 <= j < n ensures HasClear(after.events, fired[j]) {
      ClearStays(done.events, after.events, fired[j]);
    }
    hide HasClear;
    assert Belongs(s.events, e, p);
    forall i | |s.events| <= i < |after.events| ensures Belongs(s.events, after.events[i], p) {
      if i < |done.events| {
        assert after.events[i] == done.events[i];
      }
    }
    hide Belongs;
    forall i | |s.events| <= i < |after.events|
      ensures after.events[i].kind == Cleared
      ensures exists j :: 0 <= j < n + 1 && after.events[i].related == Some(fired[j].id)
                          && after.events[i].periodStart == fired[j].periodStart
    {
      if i < |done.events| {
        assert after.events[i] == done.events[i];
      } else {
        assert after.events[i].related == Some(fired[n].id);
      }
    }
  }

  lemma ClearedAlready(s: State, done: State, p: Pair, fired: seq<AlertEvent>, n: nat)
    requires n < |fired| && Clearing(s, done, p, fired, n) && HasClear(done.events, fired[n])
    ensures Clearing(s, done, p, fired, n + 1)
  {
    hide StateOk, Extends, HasClear;
    forall i | |s.events| <= i < |done.events|
      ensures exists j :: 0 <= j < n + 1 && done.events[i].related == Some(fired[j].id)
                          && done.events[i].periodStart == fired[j].periodStart
    {
      var j :| 0 <= j < n && done.events[i].related == Some(fired[j].id)
               && done.events[i].periodStart == fired[j].periodStart;
    }
  }

  lemma ClearStep(s: State, done: State, p: Pair, fired: seq<AlertEvent>, n: nat, now: Time)
    requires StateOk(s) && fired == FiredOf(s.events, p) && n < |fired| && Clearing(s, done, p, fired, n)
    ensures var e := ClearEvent(done, p, fired[n], now);
            if HasClear(done.events, fired[n]) then !BlockedAt(s.events, p, fired[n]) && Clearing(s, done, p, fired, n + 1)
            else
              && (Insert(done, e).Failure? <==> BlockedAt(s.events, p, fired[n]))
              && (Insert(done, e).Success? ==> Clearing(s, Insert(done, e).value, p, fired, n + 1))
  {
    FiredOfDistinct(s.events, p);
    FiredOfMembers(s.events, p);
    hide FiredOf, Bucket, SameKey, SameRelation, IsCalled, StateOk, Storable;
    ClearIsOld(s, done, p, fired, n);
    assert fired[n] in fired;
    if HasClear(done.events, fired[n]) {
      ClearedAlready(s, done, p, fired, n);
    } else {
      hide HasClear, BlockedAt, Clearing, About;
      ClearStorable(s, done, p, fired, n, now);
      if Insert(done, ClearEvent(done, p, fired[n], now)).Success? {
        ClearAdded(s, done, p, fired, n, now);
      }
    }
  }

  /** The loop clears every fired event unless one is blocked. */
  lemma {:induction false} ClearLoop(s: State, p: Pair, fired: seq<AlertEvent>, n: nat, now: Time)
    requires StateOk(s) && fired == FiredOf(s.events, p) && n <= |fired|
    ensures ClearAll(s, p, fired[..n], now).Failure? <==> exists i :: 0 <= i < n && BlockedAt(s.events, p, fired[i])
    ensures ClearAll(s, p, fired[..n], now).Success? ==> Clearing(s, ClearAll(s, p, fired[..n], now).value, p, fired, n)
  {
    hide FiredOf, Storable, BlockedAt, HasClear, StateOk, About;
    if n > 0 {
      ClearLoop(s, p, fired, n - 1, now);
      assert fired[..n][..n - 1] == fired[..n - 1];
      var before := ClearAll(s, p, fired[..n - 1], now);
      if before.Success? {
        ClearStep(s, before.value, p, fired, n - 1, now);
      }
    }
  }

  lemma FireOutcome(s: State, p: Pair, now: Time)
    requires StateOk(s) && IsOverdue(p, now)
    ensures EvaluatePair(s, p, now).Success?
    ensures var after := EvaluatePair(s, p, now).value;
            Extends(s, after, p) && Settled(after.events, p, now) && StateOk(after)
  {
    hide Bucket;
    if !HasFired(s.events, p) {
      var e := FireEvent(s, p, now);
      assert Storable(s.events, e);
      InsertKeeps(s, e);
      var after := Insert(s, e).value;
      assert after.events[|s.events|] == e;
      assert HasFired(after.events, p);
    }
  }

  lemma LockedOutcome(s: State, p: Pair, now: Time)
    requires StateOk(s) && p.shift.status == L.Locked
    ensures EvaluatePair(s, p, now).Failure? <==> Blocked(s.events, p)
    ensures EvaluatePair(s, p, now).Success? ==>
              var after := EvaluatePair(s, p, now).value;
              Extends(s, after, p) && Settled(after.events, p, now) && StateOk(after)
  {
    hide HasClear, BlockedAt, ClearAll, FiredOf, HasFired, StateOk, Bucket;
    var fired := FiredOf(s.events, p);
    FiredOfMembers(s.events, p);
    ClearLoop(s, p, fired, |fired|, now);
    assert fired[..|fired|] == fired;
    if Blocked(s.events, p) {
      var f :| 0 <= f < |s.events| && About(s.events[f], p) && s.events[f].kind == Fired && BlockedAt(s.events, p, s.events[f]);
      assert s.events[f] in fired;
    }
    if EvaluatePair(s, p, now).Success? {
      var after := EvaluatePair(s, p, now).value;
      forall i | 0 <= i < |after.events| && About(after.events[i], p) && after.events[i].kind == Fired
        ensures HasClear(after.events, after.events[i])
      {
        assert i < |s.events| && s.events[i] == after.events[i];
        assert s.events[i] in fired;
      }
    } else {
      var i :| 0 <= i < |fired| && BlockedAt(s.events, p, fired[i]);
      assert fired[i] in fired;
    }
  }

  /** Evaluating a pair fails exactly when it is blocked; otherwise it settles the pair and adds nothing about others. */
  lemma PairOutcome(s: State, p: Pair, now: Time)
    requires StateOk(s)
    ensures EvaluatePair(s, p, now).Failure? <==> Blocked(s.events, p)
    ensures EvaluatePair(s, p, now).Success? ==>
              var after := EvaluatePair(s, p, now).value;
              Extends(s, after, p) && Settled(after.events, p, now) && StateOk(after)
  {
    if IsOverdue(p, now) {
      FireOutcome(s, p, now);
    } else if p.shift.status == L.Locked {
      LockedOutcome(s, p, now);
    }
  }

  // ----- The whole pass -----

  lemma {:induction false} AllCleared(s: State, p: Pair, fired: seq<AlertEvent>, now: Time)
    requires forall f | f in fired :: HasClear(s.events, f)
    ensures ClearAll(s, p, fired, now) == Success(s)
  {
    if fired != [] {
      AllCleared(s, p, fired[..|fired| - 1], now);
    }
  }

  /** A settled pair is left alone. */
  lemma SettledAddsNothing(s: State, p: Pair, now: Time)
    requires Settled(s.events, p, now)
    ensures EvaluatePair(s, p, now) == Success(s)
  {
    hide HasClear, HasFired, Bucket;
    if !IsOverdue(p, now) && p.shift.status == L.Locked {
      var fired := FiredOf(s.events, p);
      FiredOfMembers(s.events, p);
      forall f | f in fired ensures HasClear(s.events, f) {
        assert f in s.events && About(f, p) && f.kind == Fired;
      }
      AllCleared(s, p, fired, now);
    }
  }

  ghost predicate OtherPair(p: Pair, q: Pair) {
    p.shift.id != q.shift.id || p.rule.id != q.rule.id
  }

  /** Shifts and rules have identifiers of their own, so no pair occurs twice. */
  ghost predicate PairsDistinct(pairs: seq<Pair>) {
    forall i, j | 0 <= i < j < |pairs| :: OtherPair(pairs[i], pairs[j])
  }

  ghost predicate OtherThan(pairs: seq<Pair>, q: Pair) {
    forall i | 0 <= i < |pairs| :: OtherPair(pairs[i], q)
  }

  lemma OtherIds(s: State, p: Pair, q: Pair, g: AlertEvent, f: AlertEvent)
    requires StateOk(s) && OtherPair(p, q) && g in s.events && About(g, p) && f in s.events && About(f, q)
    ensures g.id != f.id
  {
    hide SameKey, SameRelation;
    var k :| 0 <= k < |s.events| && s.events[k] == g;
    var l :| 0 <= l < |s.events| && s.events[l] == f;
    assert k != l;
  }

  /** A clear of one pair answers no event of another. */
  lemma ClearOfOther(s: State, after: State, p: Pair, q: Pair, f: AlertEvent)
    requires StateOk(s) && Extends(s, after, p) && OtherPair(p, q) && f in s.events && About(f, q)
    ensures HasClear(s.events, f) <==> HasClear(after.events, f)
  {
    hide Bucket, SameKey, SameRelation;
    if HasClear(s.events, f) {
      ClearStays(s.events, after.events, f);
    }
    forall i | |s.events| <= i < |after.events| && after.events[i].kind == Cleared ensures after.events[i].related != Some(f.id) {
      assert Belongs(s.events, after.events[i], p);
      var g :| g in s.events && About(g, p) && after.events[i].related == Some(g.id);
      OtherIds(s, p, q, g, f);
    }
    if HasClear(after.events, f) {
      var i :| 0 <= i < |after.events| && after.events[i].station == f.station && after.events[i].related == Some(f.id)
               && after.events[i].kind == Cleared;
      assert s.events[i] == after.events[i];
    }
  }

  lemma NotAboutOthers(s: State, after: State, p: Pair, q: Pair, i: nat)
    requires Extends(s, after, p) && OtherPair(p, q) && i < |after.events| && About(after.events[i], q)
    ensures i < |s.events| && after.events[i] == s.events[i]
  {
    forall k | |s.events| <= k < |after.events| ensures !About(after.events[k], q) {
      assert Belongs(s.events, after.events[k], p);
    }
  }

  lemma SettledStays(s: State, after: State, p: Pair, q: Pair, now: Time)
    requires StateOk(s) && Extends(s, after, p) && OtherPair(p, q) && Settled(s.events, q, now)
    ensures Settled(after.events, q, now)
  {
    hide HasClear, Bucket, StateOk, Belongs;
    if IsOverdue(q, now) {
      var i :| 0 <= i < |s.events| && About(s.events[i], q) && s.events[i].kind == Fired
               && Bucket(s.events[i].periodStart) == Bucket(q.shift.openedAt);
      assert after.events[i] == s.events[i];
    }
    if q.shift.status == L.Locked {
      forall i | 0 <= i < |after.events| && About(after.events[i], q) && after.events[i].kind == Fired
        ensures HasClear(after.events, after.events[i])
      {
        NotAboutOthers(s, after, p, q, i);
        ClearOfOther(s, after, p, q, s.events[i]);
      }
    }
  }

  lemma BlockedStays(s: State, after: State, p: Pair, q: Pair)
    requires StateOk(s) && Extends(s, after, p) && OtherPair(p, q) && Blocked(s.events, q)
    ensures Blocked(after.events, q)
  {
    hide HasClear, Bucket, StateOk, Belongs, About;
    var f :| 0 <= f < |s.events| && About(s.events[f], q) && s.events[f].kind == Fired && BlockedAt(s.events, q, s.events[f]);
    var c :| 0 <= c < |s.events| && About(s.events[c], q) && s.events[c].kind == Cleared
             && Bucket(s.events[c].periodStart) == Bucket(s.events[f].periodStart);
    ClearOfOther(s, after, p, q, s.events[f]);
    assert after.events[c] == s.events[c] && after.events[f] == s.events[f];
    assert BlockedAt(after.events, q, after.events[f]);
  }

  lemma BlockedWas(s: State, after: State, p: Pair, q: Pair)
    requires StateOk(s) && Extends(s, after, p) && OtherPair(p, q) && Blocked(after.events, q)
    ensures Blocked(s.events, q)
  {
    hide HasClear, Bucket, StateOk, Belongs, About, OtherPair;
    var f :| 0 <= f < |after.events| && About(after.events[f], q) && after.events[f].kind == Fired
             && BlockedAt(after.events, q, after.events[f]);
    var c :| 0 <= c < |after.events| && About(after.events[c], q) && after.events[c].kind == Cleared
             && Bucket(after.events[c].periodStart) == Bucket(after.events[f].periodStart);
    NotAboutOthers(s, after, p, q, f);
    NotAboutOthers(s, after, p, q, c);
    ClearOfOther(s, after, p, q, s.events[f]);
    assert BlockedAt(s.events, q, s.events[f]);
  }

  /** Events about one pair do not settle, unsettle, block or unblock another. */
  lemma OthersDoNotMatter(s: State, after: State, p: Pair, q: Pair, now: Time)
    requires StateOk(s) && Extends(s, after, p) && OtherPair(p, q)
    ensures Settled(s.events, q, now) ==> Settled(after.events, q, now)
    ensures Blocked(s.events, q) <==> Blocked(after.events, q)
  {
    if Settled(s.events, q, now) {
      SettledStays(s, after, p, q, now);
    }
    if Blocked(s.events, q) {
      BlockedStays(s, after, p, q);
    }
    if Blocked(after.events, q) {
      BlockedWas(s, after, p, q);
    }
  }

  lemma LastPair(s: State, done: State, pairs: seq<Pair>, now: Time)
    requires pairs != [] && PairsDistinct(pairs) && StateOk(done)
    requires var last := pairs[|pairs| - 1];
             var r := EvaluatePair(done, last, now);
             r.Success? && Extends(done, r.value, last) && Settled(r.value.events, last, now)
    requires forall i | 0 <= i < |pairs| - 1 :: Settled(done.events, pairs[i], now)
    requires forall q | OtherThan(pairs[..|pairs| - 1], q) :: Blocked(done.events, q) <==> Blocked(s.events, q)
    ensures var after := EvaluatePair(done, pairs[|pairs| - 1], now).value;
            && (forall i | 0 <= i < |pairs| :: Settled(after.events, pairs[i], now))
            && (forall q | OtherThan(pairs, q) :: Blocked(after.events, q) <==> Blocked(s.events, q))
  {
    hide StateOk, Settled, Blocked, EvaluatePair, Extends;
    var n := |pairs| - 1;
    var last, after := pairs[n], EvaluatePair(done, pairs[n], now).value;
    forall i | 0 <= i < n ensures Settled(after.events, pairs[i], now) {
      assert OtherPair(pairs[i], last);
      OthersDoNotMatter(done, after, last, pairs[i], now);
    }
    forall q | OtherThan(pairs, q) ensures Blocked(after.events, q) <==> Blocked(s.events, q) {
      assert OtherThan(pairs[..n], q);
      assert OtherPair(last, q);
      OthersDoNotMatter(done, after, last, q, now);
    }
  }

  /** Evaluating distinct pairs fails exactly when one is blocked at the start; otherwise it settles them all. */
  lemma {:induction false} PairsOutcome(s: State, pairs: seq<Pair>, now: Time)
    requires StateOk(s) && PairsDistinct(pairs)
    ensures EvaluatePairs(s, pairs, now).Failure? <==> exists i :: 0 <= i < |pairs| && Blocked(s.events, pairs[i])
    ensures EvaluatePairs(s, pairs, now).Success? ==>
              var after := EvaluatePairs(s, pairs, now).value;
              && StateOk(after) && s.events <= after.events
              && (forall i | 0 <= i < |pairs| :: Settled(after.events, pairs[i], now))
              && (forall q | OtherThan(pairs, q) :: Blocked(after.events, q) <==> Blocked(s.events, q))
  {
    hide StateOk, Settled, Blocked, EvaluatePair, OtherPair;
    if pairs != [] {
      var n := |pairs| - 1;
      var last := pairs[n];
      PairsOutcome(s, pairs[..n], now);
      if EvaluatePairs(s, pairs[..n], now).Success? {
        var done := EvaluatePairs(s, pairs[..n], now).value;
        assert OtherThan(pairs[..n], last);
        PairOutcome(done, last, now);
        if EvaluatePair(done, last, now).Success? {
          LastPair(s, done, pairs, now);
        }
      }
    }
  }

  lemma {:induction false} PairsSettled(s: State, pairs: seq<Pair>, now: Time)
    requires forall i | 0 <= i < |pairs| :: Settled(s.events, pairs[i], now)
    ensures EvaluatePairs(s, pairs, now) == Success(s)
  {
    hide Settled, EvaluatePair;
    if pairs != [] {
      PairsSettled(s, pairs[..|pairs| - 1], now);
      SettledAddsNothing(s, pairs[|pairs| - 1], now);
    }
  }

  // ----- From shifts and rules to pairs -----

  ghost predicate IdsDistinct(shifts: seq<Shift>, rules: seq<Rule>) {
    && (forall i, j | 0 <= i < j < |shifts| :: shifts[i].id != shifts[j].id)
    && (forall i, j | 0 <= i < j < |rules| :: rules[i].id != rules[j].id)
  }

  predicate IsPaired(p: Pair, shift: Shift, rules: seq<Rule>) {
    p.shift == shift && p.rule in rules && p.rule.starvation && p.rule.station == shift.station
  }

  lemma {:induction false} PairsOfMembers(shift: Shift, rules: seq<Rule>)
    ensures forall p :: p in PairsOf(shift, rules) <==> IsPaired(p, shift, rules)
  {
    if rules != [] {
      var n := |rules| - 1;
      PairsOfMembers(shift, rules[..n]);
      assert rules == rules[..n] + [rules[n]];
    }
  }

  lemma {:induction false} AllPairsMembers(shifts: seq<Shift>, rules: seq<Rule>, now: Time)
    ensures forall p :: p in AllPairs(shifts, rules, now) <==>
                        p.shift in shifts && IsLoaded(p.shift, now) && IsPaired(p, p.shift, rules)
  {
    hide IsLoaded;
    if shifts != [] {
      var n := |shifts| - 1;
      AllPairsMembers(shifts[..n], rules, now);
      PairsOfMembers(shifts[n], rules);
      assert shifts == shifts[..n] + [shifts[n]];
    }
  }

  lemma {:induction false} PairsOfDistinct(shift: Shift, rules: seq<Rule>)
    requires forall i, j | 0 <= i < j < |rules| :: rules[i].id != rules[j].id
    ensures PairsDistinct(PairsOf(shift, rules))
  {
    if rules != [] {
      var n := |rules| - 1;
      PairsOfDistinct(shift, rules[..n]);
      PairsOfMembers(shift, rules[..n]);
      var earlier := PairsOf(shift, rules[..n]);
      forall i | 0 <= i < |earlier| ensures OtherPair(earlier[i], Pair(shift, rules[n])) {
        assert earlier[i] in earlier;
      }
    }
  }

  lemma {:induction false} AllPairsDistinct(shifts: seq<Shift>, rules: seq<Rule>, now: Time)
    requires IdsDistinct(shifts, rules)
    ensures PairsDistinct(AllPairs(shifts, rules, now))
  {
    if shifts != [] {
      var n := |shifts| - 1;
      AllPairsDistinct(shifts[..n], rules, now);
      PairsOfDistinct(shifts[n], rules);
      var earlier, last := AllPairs(shifts[..n], rules, now), PairsOf(shifts[n], rules);
      AllPairsMembers(shifts[..n], rules, now);
      PairsOfMembers(shifts[n], rules);
      forall i, j | 0 <= i < |earlier| && 0 <= j < |last| ensures OtherPair(earlier[i], last[j]) {
        assert earlier[i] in earlier && last[j] in last;
      }
    }
  }

  // ----- Main results -----

  /** A pass fails exactly when a fired event of a locked shift is blocked by a clear that was recorded for its hour. */
  lemma EvaluationFailsIff(s: State, shifts: seq<Shift>, rules: seq<Rule>, now: Time)
    requires StateOk(s) && IdsDistinct(shifts, rules)
    ensures Evaluated(s, shifts, rules, now, DAY).Failure? <==>
            exists p: Pair :: p.shift in shifts && IsLoaded(p.shift, now) && IsPaired(p, p.shift, rules) && Blocked(s.events, p)
  {
    hide StateOk, IsLoaded, IsPaired, Blocked, EvaluatePairs;
    var pairs := AllPairs(shifts, rules, now);
    AllPairsDistinct(shifts, rules, now);
    AllPairsMembers(shifts, rules, now);
    PairsOutcome(s, pairs, now);
    hide AllPairs;
    if p: Pair :| p.shift in shifts && IsLoaded(p.shift, now) && IsPaired(p, p.shift, rules) && Blocked(s.events, p) {
      assert p in pairs;
    }
  }

  /** A second pass right after the first adds nothing. */
  lemma SecondPassAddsNothing(s: State, shifts: seq<Shift>, rules: seq<Rule>, now: Time, window: Time)
    requires StateOk(s) && IdsDistinct(shifts, rules) && Evaluated(s, shifts, rules, now, window).Success?
    ensures var after := Evaluated(s, shifts, rules, now, window).value;
            s.events <= after.events && Evaluated(after, shifts, rules, now, window) == Success(after)
  {
    hide StateOk, Settled, Blocked, EvaluatePairs, AllPairs;
    var pairs := AllPairs(shifts, rules, now);
    AllPairsDistinct(shifts, rules, now);
    PairsOutcome(s, pairs, now);
    PairsSettled(EvaluatePairs(s, pairs, now).value, pairs, now);
  }

  // ----- How long a pass stays blocked -----

  /** The fired event of the pair that waits for its clear. */
  ghost predicate BlockedBy(events: seq<AlertEvent>, p: Pair, fired: AlertEvent) {
    fired in events && About(fired, p) && fired.kind == Fired && BlockedAt(events, p, fired)
  }

  predicate ClearsEvent(e: AlertEvent, fired: AlertEvent) {
    e.station == fired.station && e.related == Some(fired.id) && e.kind == Cleared
  }

  /** Adding anything but the clear it waits for leaves a fired event blocked. */
  lemma BlockedThroughAdding(events: seq<AlertEvent>, more: seq<AlertEvent>, p: Pair, fired: AlertEvent)
    requires BlockedBy(events, p, fired) && events <= more
    requires forall i | |events| <= i < |more| :: !ClearsEvent(more[i], fired)
    ensures BlockedBy(more, p, fired)
  {
    hide Bucket, About;
    var c :| 0 <= c < |events| && About(events[c], p) && events[c].kind == Cleared
             && Bucket(events[c].periodStart) == Bucket(fired.periodStart);
    assert more[c] == events[c];
    var f :| 0 <= f < |events| && events[f] == fired;
    assert more[f] == fired;
    forall i | 0 <= i < |more| ensures !ClearsEvent(more[i], fired) {
      if i < |events| {
        assert more[i] == events[i];
      }
    }
  }

  /** Only the pairs of a locked shift add clears. */
  lemma UnlockedAddsNoClear(s: State, p: Pair, now: Time)
    requires p.shift.status != L.Locked && EvaluatePair(s, p, now).Success?
    ensures var after := EvaluatePair(s, p, now).value;
            s.events <= after.events && forall i | |s.events| <= i < |after.events| :: after.events[i].kind == Fired
  {
    hide Storable, HasFired;
  }

  /** A clear that a pair adds answers one of its own fired events. */
  lemma PairClearsOwn(s: State, p: Pair, now: Time, fired: AlertEvent)
    requires StateOk(s) && fired in s.events && !About(fired, p) && EvaluatePair(s, p, now).Success?
    ensures var after := EvaluatePair(s, p, now).value;
            s.events <= after.events && forall i | |s.events| <= i < |after.events| :: !ClearsEvent(after.events[i], fired)
  {
    hide EvaluatePair, SameKey, SameRelation;
    PairOutcome(s, p, now);
    var after := EvaluatePair(s, p, now).value;
    forall i | |s.events| <= i < |after.events| ensures !ClearsEvent(after.events[i], fired) {
      assert Belongs(s.events, after.events[i], p);
      if after.events[i].kind == Cleared {
        var g :| g in s.events && About(g, p) && after.events[i].related == Some(g.id);
        var x :| 0 <= x < |s.events| && s.events[x] == g;
        var y :| 0 <= y < |s.events| && s.events[y] == fired;
        assert x != y;
      }
    }
  }

  lemma SameBlock(events: seq<AlertEvent>, p: Pair, fired: AlertEvent, q: Pair)
    requires BlockedBy(events, p, fired) && About(fired, q) && q.shift.status == L.Locked
    ensures Blocked(events, q)
  {
    hide HasClear, Bucket;
    var f :| 0 <= f < |events| && events[f] == fired;
    var c :| 0 <= c < |events| && About(events[c], p) && events[c].kind == Cleared
             && Bucket(events[c].periodStart) == Bucket(fired.periodStart);
    assert About(events[c], q);
    assert BlockedAt(events, q, events[f]);
  }

  /** A pair of the blocked rule and shift fails while the shift is locked; any other pair leaves the event blocked. */
  lemma PairKeepsBlocked(s: State, p: Pair, fired: AlertEvent, q: Pair, now: Time)
    requires StateOk(s) && BlockedBy(s.events, p, fired)
    ensures About(fired, q) && q.shift.status == L.Locked ==> EvaluatePair(s, q, now).Failure?
    ensures EvaluatePair(s, q, now).Success? ==>
              StateOk(EvaluatePair(s, q, now).value) && BlockedBy(EvaluatePair(s, q, now).value.events, p, fired)
  {
    hide EvaluatePair, StateOk, Extends, Settled, HasClear, Bucket;
    PairOutcome(s, q, now);
    if About(fired, q) && q.shift.status == L.Locked {
      SameBlock(s.events, p, fired, q);
    } else if EvaluatePair(s, q, now).Success? {
      var after := EvaluatePair(s, q, now).value;
      if About(fired, q) {
        UnlockedAddsNoClear(s, q, now);
      } else {
        PairClearsOwn(s, q, now, fired);
      }
      hide BlockedBy;
      BlockedThroughAdding(s.events, after.events, p, fired);
    }
  }

  lemma {:induction false} PairsKeepBlocked(s: State, p: Pair, fired: AlertEvent, pairs: seq<Pair>, now: Time)
    requires StateOk(s) && BlockedBy(s.events, p, fired)
    ensures (exists i :: 0 <= i < |pairs| && About(fired, pairs[i]) && pairs[i].shift.status == L.Locked) ==>
              EvaluatePairs(s, pairs, now).Failure?
    ensures EvaluatePairs(s, pairs, now).Success? ==>
              StateOk(EvaluatePairs(s, pairs, now).value) && BlockedBy(EvaluatePairs(s, pairs, now).value.events, p, fired)
  {
    hide StateOk, BlockedBy, EvaluatePair, About;
    if pairs != [] {
      var n := |pairs| - 1;
      PairsKeepBlocked(s, p, fired, pairs[..n], now);
      if EvaluatePairs(s, pairs[..n], now).Success? {
        assert forall i | 0 <= i < n :: pairs[..n][i] == pairs[i];
        PairKeepsBlocked(EvaluatePairs(s, pairs[..n], now).value, p, fired, pairs[n], now);
      } else {
        assert EvaluatePairs(s, pairs, now).Failure?;
      }
    }
  }

  /** The step records a clear of the event. */
  predicate RecordsClear(step: Step, fired: AlertEvent) {
    step.Record? && step.q.kind == Cleared && step.q.station == fired.station && step.q.related == Some(fired.id)
  }

  lemma RecordKeepsBlocked(s: State, p: Pair, fired: AlertEvent, rules: seq<Rule>, q: Occurrence, now: Time)
    requires StateOk(s) && BlockedBy(s.events, p, fired) && Occurred(s, rules, q, now).Success?
    requires !(q.kind == Cleared && q.station == fired.station && q.related == Some(fired.id))
    ensures BlockedBy(Occurred(s, rules, q, now).value.events, p, fired)
  {
    hide StateOk, BlockedBy, Storable, Matches, RuleNamed;
    var after := Occurred(s, rules, q, now).value;
    if after != s {
      BlockedThroughAdding(s.events, after.events, p, fired);
    }
  }

  lemma {:induction false} RunKeepsBlocked(s: State, p: Pair, fired: AlertEvent, steps: seq<Step>)
    requires StateOk(s) && BlockedBy(s.events, p, fired)
    requires forall i | 0 <= i < |steps| :: !RecordsClear(steps[i], fired)
    ensures StateOk(After(s, steps)) && BlockedBy(After(s, steps).events, p, fired)
  {
    hide StateOk, BlockedBy, Occurred, EvaluatePairs;
    if steps != [] {
      var n := |steps| - 1;
      RunKeepsBlocked(s, p, fired, steps[..n]);
      RunKeeps(s, steps);
      var before := After(s, steps[..n]);
      assert !RecordsClear(steps[n], fired);
      match steps[n]
      case Record(rules, q, now) =>
        if Occurred(before, rules, q, now).Success? {
          RecordKeepsBlocked(before, p, fired, rules, q, now);
        }
      case Evaluate(shifts, rules, now, _) =>
        PairsKeepBlocked(before, p, fired, AllPairs(shifts, rules, now), now);
    }
  }

  /**
   Until a clear of the blocked event itself is recorded, whatever else happens,
   every pass that loads its shift as locked with its rule fails, for all shifts.
   */
  lemma PassesStayBlocked(s: State, p: Pair, fired: AlertEvent, steps: seq<Step>, shifts: seq<Shift>, rules: seq<Rule>,
                          q: Pair, now: Time)
    requires StateOk(s) && BlockedBy(s.events, p, fired)
    requires forall i | 0 <= i < |steps| :: !RecordsClear(steps[i], fired)
    requires q.shift in shifts && IsLoaded(q.shift, now) && IsPaired(q, q.shift, rules)
    requires q.shift.status == L.Locked && About(fired, q)
    ensures BlockedBy(After(s, steps).events, p, fired)
    ensures Evaluated(After(s, steps), shifts, rules, now, DAY).Failure?
  {
    hide StateOk, BlockedBy, EvaluatePairs, After, About, IsLoaded, IsPaired;
    RunKeepsBlocked(s, p, fired, steps);
    var pairs := AllPairs(shifts, rules, now);
    AllPairsMembers(shifts, rules, now);
    hide AllPairs;
    assert q in pairs;
    var i :| 0 <= i < |pairs| && pairs[i] == q;
    PairsKeepBlocked(After(s, steps), p, fired, pairs, now);
  }

  lemma FirstTwo(rule: Rule, fire: Occurrence, a: AlertEvent, b: AlertEvent)
    requires rule == Rule(1, 1, true, true) && fire == Occurrence(1, 1, Subject(OfShift, 1), Fired, 0, None, Scheduler, None)
    requires a == AlertEvent(1, 1, 1, Subject(OfShift, 1), Fired, 0, Some(1), Scheduler, None, 0)
    requires b == AlertEvent(2, 1, 1, Subject(OfShift, 1), Fired, HOUR, Some(2), Scheduler, None, 0)
    ensures Occurred(State([], 1), [rule], fire, 0) == Success(State([a], 2))
    ensures Occurred(State([a], 2), [rule], fire.(periodStart := HOUR), 0) == Success(State([a, b], 3))
  {
    assert Bucket(0) == 0 && Bucket(HOUR) == 1;
    assert RuleNamed([rule], 1, 1) == Some(rule);
    assert [] + [a] == [a] && [a] + [b] == [a, b];
  }

  lemma ThenTheClear(rule: Rule, clear: Occurrence, a: AlertEvent, b: AlertEvent, c: AlertEvent)
    requires rule == Rule(1, 1, true, true)
    requires clear == Occurrence(1, 1, Subject(OfShift, 1), Cleared, HOUR, Some(1), ShiftTransition, None)
    requires a == AlertEvent(1, 1, 1, Subject(OfShift, 1), Fired, 0, Some(1), Scheduler, None, 0)
    requires b == AlertEvent(2, 1, 1, Subject(OfShift, 1), Fired, HOUR, Some(2), Scheduler, None, 0)
    requires c == AlertEvent(3, 1, 1, Subject(OfShift, 1), Cleared, HOUR, Some(1), ShiftTransition, None, 0)
    ensures Occurred(State([a, b], 3), [rule], clear, 0) == Success(State([a, b, c], 4))
  {
    hide Bucket;
    var events := [a, b];
    assert RuleNamed([rule], 1, 1) == Some(rule);
    assert IsCalled(events, 1, 1) by {
      assert events[0].id == 1;
    }
    assert Storable(events, c);
    assert events + [c] == [a, b, c];
  }

  /** Three recorded occurrences that block a pair: a clear recorded for one fired event in the hour of another. */
  lemma MisplacedClearStopsThePass()
    ensures var shift := Shift(1, 1, L.Locked, 0);
            var rule := Rule(1, 1, true, true);
            var fire := Occurrence(1, 1, Subject(OfShift, 1), Fired, 0, None, Scheduler, None);
            var fireLater := fire.(periodStart := HOUR);
            var clear := Occurrence(1, 1, Subject(OfShift, 1), Cleared, HOUR, Some(1), ShiftTransition, None);
            var s := After(State([], 1), [Record([rule], fire, 0), Record([rule], fireLater, 0), Record([rule], clear, 0)]);
            |s.events| == 3 && Evaluated(s, [shift], [rule], DAY, DAY).Failure?
  {
    var shift, rule := Shift(1, 1, L.Locked, 0), Rule(1, 1, true, true);
    var fire := Occurrence(1, 1, Subject(OfShift, 1), Fired, 0, None, Scheduler, None);
    var fireLater := fire.(periodStart := HOUR);
    var clear := Occurrence(1, 1, Subject(OfShift, 1), Cleared, HOUR, Some(1), ShiftTransition, None);
    var a := AlertEvent(1, 1, 1, Subject(OfShift, 1), Fired, 0, Some(1), Scheduler, None, 0);
    var b := AlertEvent(2, 1, 1, Subject(OfShift, 1), Fired, HOUR, Some(2), Scheduler, None, 0);
    var c := AlertEvent(3, 1, 1, Subject(OfShift, 1), Cleared, HOUR, Some(1), ShiftTransition, None, 0);
    var s0, s1, s2, s3 := State([], 1), State([a], 2), State([a, b], 3), State([a, b, c], 4);
    var steps := [Record([rule], fire, 0), Record([rule], fireLater, 0), Record([rule], clear, 0)];
    assert After(s0, steps) == s3 by {
      FirstTwo(rule, fire, a, b);
      ThenTheClear(rule, clear, a, b, c);
      assert steps[..2][..1] == steps[..1] && steps[..1][..0] == [];
      hide Occurred;
      assert After(s0, steps[..1]) == Next(s0, steps[0]) == s1;
      assert After(s0, steps[..2]) == Next(s1, steps[1]) == s2;
    }
    assert StateOk(s3) by {
      RunKeeps(s0, steps);
    }
    hide After, StateOk, Evaluated, Next;
    var p := Pair(shift, rule);
    assert Blocked(s3.events, p) by {
      assert s3.events[1] == b && s3.events[2] == c;
      assert BlockedAt(s3.events, p, s3.events[1]);
    }
    EvaluationFailsIff(s3, [shift], [rule], DAY);
    assert p.shift in [shift] && IsLoaded(p.shift, DAY) && IsPaired(p, p.shift, [rule]);
  }
}
