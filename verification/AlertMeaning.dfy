/** Which alerts a pass of the scheduler fires and clears, in terms of shifts, rules and the time. */
module AlertMeaning {
  import opened Wrappers
  import L = LedgerTables
  import opened Alerts

  /** A starvation rule of the shift's station. */
  predicate Watches(rule: Rule, shift: Shift) {
    rule.starvation && rule.station == shift.station
  }

  /** The shift is still open or unconfirmed 24 hours after its opening. */
  predicate IsStarving(shift: Shift, now: Time) {
    shift.status in {L.Open, L.AwaitingConfirmation} && now - shift.openedAt >= 24 * 3600 * 1000000
  }

  /** The event concerns the shift under the rule. */
  predicate Concerns(e: AlertEvent, shift: Shift, rule: Rule) {
    e.station == shift.station && e.rule == rule.id && e.subject == Subject(OfShift, shift.id)
  }

  predicate SameHour(a: Time, b: Time) {
    a / (3600 * 1000000) == b / (3600 * 1000000)
  }

  /** An alert about the shift's starvation, fired for the hour of its opening. */
  predicate FiresFor(e: AlertEvent, shift: Shift, rule: Rule) {
    Concerns(e, shift, rule) && e.kind == Fired && SameHour(e.periodStart, shift.openedAt)
  }

  /** A clear that answers a fired event about the shift. */
  predicate ClearsFor(events: seq<AlertEvent>, e: AlertEvent, shift: Shift, rule: Rule) {
    && Concerns(e, shift, rule) && e.kind == Cleared
    && exists f :: f in events && Concerns(f, shift, rule) && f.kind == Fired && e.related == Some(f.id) && e.periodStart == f.periodStart
  }

  /** What a pass may add about a shift under a rule. */
  predicate IsDueFor(events: seq<AlertEvent>, e: AlertEvent, shift: Shift, rule: Rule, now: Time) {
    && Watches(rule, shift) && e.createdAt == now && e.version.None?
    && if e.kind == Fired then
         && rule.enabled && IsStarving(shift, now) && FiresFor(e, shift, rule) && e.periodStart == shift.openedAt
         && e.source == Scheduler && e.related == Some(e.id)
       else
         shift.status == L.Locked && shift.openedAt <= now && ClearsFor(events, e, shift, rule) && e.source == ShiftTransition
  }

  lemma MoreEvents(events: seq<AlertEvent>, more: seq<AlertEvent>, e: AlertEvent, shift: Shift, rule: Rule, now: Time)
    requires events <= more && IsDueFor(events, e, shift, rule, now)
    ensures IsDueFor(more, e, shift, rule, now)
  {
    hide FiresFor, Concerns, Watches;
    if e.kind == Cleared {
      var f :| f in events && Concerns(f, shift, rule) && f.kind == Fired && e.related == Some(f.id) && e.periodStart == f.periodStart;
      assert f in more;
    }
  }

  /** Every event after the first n is due for a watched shift of the list. */
  ghost predicate AddsOnlyDue(n: nat, events: seq<AlertEvent>, pairs: seq<Pair>, now: Time) {
    forall i | n <= i < |events| :: exists p :: p in pairs && IsDueFor(events, events[i], p.shift, p.rule, now)
  }

  lemma FiredIsDue(s: State, p: Pair, now: Time)
    requires Watches(p.rule, p.shift) && IsOverdue(p, now) && EvaluatePair(s, p, now).Success?
    ensures var after := EvaluatePair(s, p, now).value;
            && s.events <= after.events
            && forall i | |s.events| <= i < |after.events| :: IsDueFor(after.events, after.events[i], p.shift, p.rule, now)
  {
    hide Storable, HasFired;
  }

  lemma {:induction false} ClearsAreStamped(s: State, p: Pair, fired: seq<AlertEvent>, now: Time)
    requires ClearAll(s, p, fired, now).Success?
    ensures var after := ClearAll(s, p, fired, now).value;
            && s.events <= after.events
            && forall i | |s.events| <= i < |after.events| ::
                 && after.events[i].kind == Cleared && Concerns(after.events[i], p.shift, p.rule)
                 && after.events[i].createdAt == now && after.events[i].version.None? && after.events[i].source == ShiftTransition
                 && exists f :: f in fired && after.events[i].related == Some(f.id) && after.events[i].periodStart == f.periodStart
  {
    hide Storable, HasClear;
    if fired != [] {
      var front, last := fired[..|fired| - 1], fired[|fired| - 1];
      ClearsAreStamped(s, p, front, now);
      var done, after := ClearAll(s, p, front, now).value, ClearAll(s, p, fired, now).value;
      forall i | |s.events| <= i < |after.events|
        ensures exists f :: f in fired && after.events[i].related == Some(f.id) && after.events[i].periodStart == f.periodStart
      {
        if i < |done.events| {
          assert after.events[i] == done.events[i];
          var f :| f in front && done.events[i].related == Some(f.id) && done.events[i].periodStart == f.periodStart;
          assert f in fired;
        } else {
          assert last in fired;
        }
      }
    }
  }

  lemma ClearedIsDue(s: State, p: Pair, now: Time)
    requires Watches(p.rule, p.shift) && p.shift.status == L.Locked && p.shift.openedAt <= now && EvaluatePair(s, p, now).Success?
    ensures var after := EvaluatePair(s, p, now).value;
            && s.events <= after.events
            && forall i | |s.events| <= i < |after.events| :: IsDueFor(after.events, after.events[i], p.shift, p.rule, now)
  {
    hide ClearAll, HasFired, FiresFor;
    var fired := FiredOf(s.events, p);
    FiredOfMembers(s.events, p);
    hide FiredOf;
    ClearsAreStamped(s, p, fired, now);
    var after := EvaluatePair(s, p, now).value;
    assert after == ClearAll(s, p, fired, now).value;
    forall i | |s.events| <= i < |after.events| ensures IsDueFor(after.events, after.events[i], p.shift, p.rule, now) {
      var e := after.events[i];
      assert e.kind == Cleared;
      var f :| f in fired && e.related == Some(f.id) && e.periodStart == f.periodStart;
      assert f in s.events && f in after.events;
    }
  }

  lemma PairAddsOnlyDue(s: State, p: Pair, now: Time)
    requires Watches(p.rule, p.shift) && IsLoaded(p.shift, now) && EvaluatePair(s, p, now).Success?
    ensures var after := EvaluatePair(s, p, now).value;
            && s.events <= after.events
            && forall i | |s.events| <= i < |after.events| :: IsDueFor(after.events, after.events[i], p.shift, p.rule, now)
  {
    hide ClearAll, HasFired, Storable, IsDueFor;
    if IsOverdue(p, now) {
      FiredIsDue(s, p, now);
    } else if p.shift.status == L.Locked {
      ClearedIsDue(s, p, now);
    }
  }

  lemma {:induction false} PairsAddOnlyDue(s: State, pairs: seq<Pair>, now: Time)
    requires EvaluatePairs(s, pairs, now).Success?
    requires forall p | p in pairs :: Watches(p.rule, p.shift) && IsLoaded(p.shift, now)
    ensures var after := EvaluatePairs(s, pairs, now).value;
            s.events <= after.events && AddsOnlyDue(|s.events|, after.events, pairs, now)
  {
    hide EvaluatePair, IsDueFor, Watches, IsLoaded;
    if pairs != [] {
      var front, last := pairs[..|pairs| - 1], pairs[|pairs| - 1];
      PairsAddOnlyDue(s, front, now);
      var done, after := EvaluatePairs(s, front, now).value, EvaluatePairs(s, pairs, now).value;
      assert last in pairs;
      PairAddsOnlyDue(done, last, now);
      forall i | |s.events| <= i < |after.events|
        ensures exists p :: p in pairs && IsDueFor(after.events, after.events[i], p.shift, p.rule, now)
      {
        if i < |done.events| {
          assert after.events[i] == done.events[i];
          var p :| p in front && IsDueFor(done.events, done.events[i], p.shift, p.rule, now);
          MoreEvents(done.events, after.events, after.events[i], p.shift, p.rule, now);
          assert p in pairs;
        } else {
          assert IsDueFor(after.events, after.events[i], last.shift, last.rule, now);
        }
      }
    }
  }

  /** What the table holds about a shift and a rule after a pass. */
  ghost predicate IsUpToDate(events: seq<AlertEvent>, shift: Shift, rule: Rule, now: Time) {
    && (rule.enabled && IsStarving(shift, now) ==> exists e :: e in events && FiresFor(e, shift, rule))
    && (shift.status == L.Locked && shift.openedAt <= now ==>
          forall f | f in events && Concerns(f, shift, rule) && f.kind == Fired ::
            exists c :: c in events && c.kind == Cleared && c.station == f.station && c.related == Some(f.id))
  }

  lemma SettledIsUpToDate(events: seq<AlertEvent>, p: Pair, now: Time)
    requires Settled(events, p, now)
    ensures IsUpToDate(events, p.shift, p.rule, now)
  {
    if p.rule.enabled && IsStarving(p.shift, now) {
      var i :| 0 <= i < |events| && About(events[i], p) && events[i].kind == Fired
               && Bucket(events[i].periodStart) == Bucket(p.shift.openedAt);
      assert FiresFor(events[i], p.shift, p.rule);
    }
    if p.shift.status == L.Locked {
      forall f | f in events && Concerns(f, p.shift, p.rule) && f.kind == Fired
        ensures exists c :: c in events && c.kind == Cleared && c.station == f.station && c.related == Some(f.id)
      {
        var i :| 0 <= i < |events| && events[i] == f;
        assert HasClear(events, events[i]);
        var c :| 0 <= c < |events| && events[c].station == f.station && events[c].related == Some(f.id) && events[c].kind == Cleared;
        assert events[c] in events;
      }
    }
  }

  /** The event is due for one of the shifts under one of the rules. */
  ghost predicate IsDueForOne(events: seq<AlertEvent>, e: AlertEvent, shifts: seq<Shift>, rules: seq<Rule>, now: Time) {
    exists shift, rule :: shift in shifts && rule in rules && IsDueFor(events, e, shift, rule, now)
  }

  lemma LoadedPair(shift: Shift, rule: Rule, rules: seq<Rule>)
    requires rule in rules && Watches(rule, shift)
    ensures IsPaired(Pair(shift, rule), shift, rules)
  {
  }

  lemma WatchedPair(p: Pair, shift: Shift, rules: seq<Rule>)
    requires IsPaired(p, shift, rules)
    ensures p.shift == shift && p.rule in rules && Watches(p.rule, shift)
  {
  }

  /** A shift in correction, or one that is opened later, is neither starving nor locked by now. */
  lemma NotLoaded(events: seq<AlertEvent>, shift: Shift, rule: Rule, now: Time)
    requires !IsLoaded(shift, now)
    ensures IsUpToDate(events, shift, rule, now)
  {
  }

  /**
   After a successful pass every shift still active 24 hours after its opening
   has a fired alert, in the hour of its opening, under each enabled starvation
   rule of its station, and every fired alert of a locked shift under such a rule
   is cleared. The pass adds nothing but alerts of the first kind and clears of
   the second.
   */
  lemma PassMeaning(s: State, shifts: seq<Shift>, rules: seq<Rule>, now: Time, window: Time, after: State)
    requires StateOk(s) && IdsDistinct(shifts, rules) && Evaluated(s, shifts, rules, now, window) == Success(after)
    ensures window == 24 * 3600 * 1000000
    ensures s.events <= after.events
    ensures forall shift, rule | shift in shifts && rule in rules && Watches(rule, shift) :: IsUpToDate(after.events, shift, rule, now)
    ensures forall i | |s.events| <= i < |after.events| :: IsDueForOne(after.events, after.events[i], shifts, rules, now)
  {
    hide StateOk, Settled, Blocked, EvaluatePairs, IsLoaded, IsDueFor, IsUpToDate, Watches;
    var pairs := AllPairs(shifts, rules, now);
    AllPairsDistinct(shifts, rules, now);
    AllPairsMembers(shifts, rules, now);
    PairsOutcome(s, pairs, now);
    assert EvaluatePairs(s, pairs, now) == Success(after);
    hide AllPairs;
    forall shift, rule | shift in shifts && rule in rules && Watches(rule, shift)
      ensures IsUpToDate(after.events, shift, rule, now)
    {
      if IsLoaded(shift, now) {
        LoadedPair(shift, rule, rules);
        assert Pair(shift, rule) in pairs;
        var i :| 0 <= i < |pairs| && pairs[i] == Pair(shift, rule);
        SettledIsUpToDate(after.events, pairs[i], now);
      } else {
        NotLoaded(after.events, shift, rule, now);
      }
    }
    forall p | p in pairs ensures Watches(p.rule, p.shift) && IsLoaded(p.shift, now) {
      WatchedPair(p, p.shift, rules);
    }
    PairsAddOnlyDue(s, pairs, now);
    forall i | |s.events| <= i < |after.events| ensures IsDueForOne(after.events, after.events[i], shifts, rules, now) {
      var e := after.events[i];
      var p :| p in pairs && IsDueFor(after.events, e, p.shift, p.rule, now);
      assert p.shift in shifts && p.rule in rules;
    }
  }

  // ----- Recorded occurrences -----

  /** The event on record says what the occurrence says; a fired one relates to itself. */
  predicate IsRecorded(e: AlertEvent, q: Occurrence, now: Time) {
    && e.station == q.station && e.rule == q.rule && e.subject == q.subject && e.kind == q.kind && e.periodStart == q.periodStart
    && e.related == (if q.kind == Fired then Some(e.id) else q.related)
    && e.source == q.source && e.version == q.version && e.createdAt == now
  }

  /** The first rule of the station with the identifier. */
  lemma {:induction false} RuleNamedIs(rules: seq<Rule>, station: Station, id: Id)
    ensures RuleNamed(rules, station, id).None? <==> forall i | 0 <= i < |rules| :: rules[i].station != station || rules[i].id != id
    ensures RuleNamed(rules, station, id).Some? ==>
              var r := RuleNamed(rules, station, id).value; r in rules && r.station == station && r.id == id
  {
    if rules != [] {
      RuleNamedIs(rules[1..], station, id);
      assert forall i | 0 < i < |rules| :: rules[i] == rules[1..][i - 1];
    }
  }

  /** The table has the occurrence already: the same clear, or the same alert in the same hour. */
  predicate IsOnRecord(events: seq<AlertEvent>, q: Occurrence) {
    exists e :: e in events && e.station == q.station && e.kind == q.kind
                && if q.kind == Cleared then e.related == q.related
                   else e.rule == q.rule && e.subject == q.subject && SameHour(e.periodStart, q.periodStart)
  }

  lemma OnRecordIff(events: seq<AlertEvent>, q: Occurrence)
    ensures IsOnRecord(events, q) <==> exists i :: 0 <= i < |events| && Matches(events[i], q)
  {
    if i :| 0 <= i < |events| && Matches(events[i], q) {
      assert events[i] in events;
    }
  }

  /** An accepted occurrence adds one event that says the same, unless it is on record already or fires under a disabled rule. */
  lemma OccurrenceMeaning(s: State, rules: seq<Rule>, q: Occurrence, now: Time, after: State)
    requires Occurred(s, rules, q, now) == Success(after)
    ensures RuleNamed(rules, q.station, q.rule).Some?
    ensures if IsOnRecord(s.events, q) || (q.kind == Fired && !RuleNamed(rules, q.station, q.rule).value.enabled) then after == s
            else
              && |after.events| == |s.events| + 1 && s.events <= after.events
              && IsRecorded(after.events[|s.events|], q, now) && after.events[|s.events|].id == s.nextId
  {
    hide Storable, Matches, RuleNamed, IsOnRecord;
    OnRecordIff(s.events, q);
  }
}
