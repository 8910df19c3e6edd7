/** The alert table and the two operations that insert into it. */
module AlertRepository {
  import opened Wrappers
  import L = LedgerTables
  import opened Alerts

  datatype Recorded = Recorded(event: Option<Id>, inserted: bool)

  // ----- A refused prefix refuses the whole -----

  lemma {:induction false} PairsStayRefused(s: State, pairs: seq<Pair>, now: Time, k: nat)
    requires k <= |pairs| && EvaluatePairs(s, pairs[..k], now).Failure?
    ensures EvaluatePairs(s, pairs, now) == EvaluatePairs(s, pairs[..k], now)
  {
    hide EvaluatePair;
    if k < |pairs| {
      assert pairs[..|pairs| - 1][..k] == pairs[..k];
      PairsStayRefused(s, pairs[..|pairs| - 1], now, k);
    } else {
      assert pairs[..k] == pairs;
    }
  }

  lemma PrefixRefuses(s: State, prefix: seq<Pair>, pairs: seq<Pair>, now: Time)
    requires prefix <= pairs && EvaluatePairs(s, prefix, now).Failure?
    ensures EvaluatePairs(s, pairs, now) == EvaluatePairs(s, prefix, now)
  {
    hide EvaluatePairs;
    assert pairs[..|prefix|] == prefix;
    PairsStayRefused(s, pairs, now, |prefix|);
  }

  lemma {:induction false} ClearsStayRefused(s: State, p: Pair, fired: seq<AlertEvent>, now: Time, k: nat)
    requires k <= |fired| && ClearAll(s, p, fired[..k], now).Failure?
    ensures ClearAll(s, p, fired, now) == ClearAll(s, p, fired[..k], now)
  {
    hide HasClear, Insert;
    if k < |fired| {
      assert fired[..|fired| - 1][..k] == fired[..k];
      ClearsStayRefused(s, p, fired[..|fired| - 1], now, k);
    } else {
      assert fired[..k] == fired;
    }
  }

  /** Evaluating a list and then another is evaluating both. */
  lemma {:induction false} PairsInTwo(s: State, a: seq<Pair>, b: seq<Pair>, now: Time)
    ensures EvaluatePairs(s, a + b, now)
         == match EvaluatePairs(s, a, now)
            case Failure(e) => Failure(e)
            case Success(done) => EvaluatePairs(done, b, now)
  {
    hide EvaluatePair;
    if b == [] {
      assert a + b == a;
    } else {
      var n := |b| - 1;
      assert (a + b)[..|a + b| - 1] == a + b[..n];
      PairsInTwo(s, a, b[..n], now);
    }
  }

  // ----- Prefixes of the list of pairs -----

  lemma NoShifts(rules: seq<Rule>, now: Time)
    ensures AllPairs([], rules, now) == []
  {
  }

  lemma ShiftsGrow(shifts: seq<Shift>, rules: seq<Rule>, now: Time, i: nat)
    requires i < |shifts|
    ensures AllPairs(shifts[..i + 1], rules, now)
         == if IsLoaded(shifts[i], now) then AllPairs(shifts[..i], rules, now) + PairsOf(shifts[i], rules)
            else AllPairs(shifts[..i], rules, now)
  {
    hide IsLoaded, PairsOf;
    assert shifts[..i + 1][..i] == shifts[..i];
    assert AllPairs(shifts[..i], rules, now) + [] == AllPairs(shifts[..i], rules, now);
  }

  lemma {:induction false} AllPairsPrefix(shifts: seq<Shift>, rules: seq<Rule>, now: Time, i: nat)
    requires i <= |shifts|
    ensures AllPairs(shifts[..i], rules, now) <= AllPairs(shifts, rules, now)
  {
    hide IsLoaded, PairsOf;
    if i < |shifts| {
      var n := |shifts| - 1;
      assert shifts[..n][..i] == shifts[..i];
      AllPairsPrefix(shifts[..n], rules, now, i);
    } else {
      assert shifts[..i] == shifts;
    }
  }

  lemma {:induction false} PairsOfPrefix(shift: Shift, rules: seq<Rule>, j: nat)
    requires j <= |rules|
    ensures PairsOf(shift, rules[..j]) <= PairsOf(shift, rules)
  {
    if j < |rules| {
      var n := |rules| - 1;
      assert rules[..n][..j] == rules[..j];
      PairsOfPrefix(shift, rules[..n], j);
    } else {
      assert rules[..j] == rules;
    }
  }

  // ----- The operations -----

  method ClearFired(s: State, p: Pair, fired: seq<AlertEvent>, now: Time) returns (r: Result<State, AlertError>, inserted: int)
    ensures r == ClearAll(s, p, fired, now)
    ensures r.Success? ==> inserted == |r.value.events| - |s.events|
  {
    hide Storable, HasClear;
    var tx := s;
    inserted := 0;
    for k := 0 to |fired|
      invariant ClearAll(s, p, fired[..k], now) == Success(tx)
      invariant inserted == |tx.events| - |s.events|
    {
      assert fired[..k + 1][..k] == fired[..k];
      if !HasClear(tx.events, fired[k]) {
        var cleared := Insert(tx, ClearEvent(tx, p, fired[k], now));
        if cleared.Failure? {
          ClearsStayRefused(s, p, fired, now, k + 1);
          return Failure(cleared.error), 0;
        }
        tx := cleared.value;
        inserted := inserted + 1;
      }
    }
    assert fired[..|fired|] == fired;
    return Success(tx), inserted;
  }

  method EvaluateRule(s: State, p: Pair, now: Time) returns (r: Result<State, AlertError>, inserted: int)
    ensures r == EvaluatePair(s, p, now)
    ensures r.Success? ==> inserted == |r.value.events| - |s.events|
  {
    hide Storable, HasFired;
    var tx := s;
    inserted := 0;
    if p.shift.status == L.Open || p.shift.status == L.AwaitingConfirmation {
      if p.shift.openedAt > now - DAY || !p.rule.enabled {
        return Success(s), 0;
      }
      if HasFired(tx.events, p) {
        return Success(s), 0;
      }
      var fired := Insert(tx, FireEvent(tx, p, now));
      if fired.Failure? {
        return fired, 0;
      }
      tx := fired.value;
      inserted := inserted + 1;
    }
    if p.shift.status != L.Locked {
      return Success(tx), inserted;
    }
    r, inserted := ClearFired(s, p, FiredOf(s.events, p), now);
  }

  /** One shift with every starvation rule of its station. */
  method EvaluateShift(s: State, shift: Shift, rules: seq<Rule>, now: Time) returns (r: Result<State, AlertError>, inserted: int)
    ensures r == EvaluatePairs(s, PairsOf(shift, rules), now)
    ensures r.Success? ==> inserted == |r.value.events| - |s.events|
  {
    hide EvaluatePair;
    var tx := s;
    inserted := 0;
    for j := 0 to |rules|
      invariant EvaluatePairs(s, PairsOf(shift, rules[..j]), now) == Success(tx)
      invariant inserted == |tx.events| - |s.events|
    {
      assert rules[..j + 1][..j] == rules[..j];
      ghost var before := PairsOf(shift, rules[..j]);
      if rules[j].starvation && rules[j].station == shift.station {
        var p := Pair(shift, rules[j]);
        assert (before + [p])[..|before|] == before;
        assert PairsOf(shift, rules[..j + 1]) == before + [p];
        var done, count := EvaluateRule(tx, p, now);
        if done.Failure? {
          PairsOfPrefix(shift, rules, j + 1);
          PrefixRefuses(s, before + [p], PairsOf(shift, rules), now);
          return Failure(done.error), 0;
        }
        tx := done.value;
        inserted := inserted + count;
      } else {
        assert PairsOf(shift, rules[..j + 1]) == before + [] == before;
      }
    }
    assert rules[..|rules|] == rules;
    return Success(tx), inserted;
  }

  class AlertRepository {
    var state: State

    constructor ()
      ensures state == State([], 1)
    {
      state := State([], 1);
    }

    /** Inserts one event, or finds the one that is already there. */
    method RecordAlertOccurrence(rules: seq<Rule>, q: Occurrence, now: Time) returns (r: Result<Recorded, AlertError>)
      modifies this
      ensures match Occurred(old(state), rules, q, now)
              case Success(after) => r.Success? && state == after && (r.value.inserted <==> after != old(state))
              case Failure(e) => r == Failure(e) && state == old(state)
      ensures r.Success? ==>
                && (r.value.inserted ==> r.value.event == Some(old(state).nextId))
                && (r.value.event.None? <==> q.kind == Fired && !RuleNamed(rules, q.station, q.rule).value.enabled)
      ensures r.Success? && !r.value.inserted && r.value.event.Some? ==>
                exists i :: 0 <= i < |state.events| && Matches(state.events[i], q) && state.events[i].id == r.value.event.value
    {
      hide Storable, Matches;
      var rule := RuleNamed(rules, q.station, q.rule);
      if rule.None? {
        return Failure(InvalidRequest);
      }
      if !rule.value.enabled && q.kind == Fired {
        return Success(Recorded(None, false));
      }
      if q.kind == Cleared && q.related.None? {
        return Failure(RelatedRequired);
      }
      for i := 0 to |state.events|
        invariant state == old(state)
        invariant forall j | 0 <= j < i :: !Matches(state.events[j], q)
      {
        if Matches(state.events[i], q) {
          return Success(Recorded(Some(state.events[i].id), false));
        }
      }
      var eventId := state.nextId;
      var related := q.related;
      if q.kind == Fired {
        related := Some(eventId);
      }
      var event := AlertEvent(eventId, q.station, q.rule, q.subject, q.kind, q.periodStart, related, q.source, q.version, now);
      var inserted := Insert(state, event);
      if inserted.Failure? {
        return Failure(inserted.error);
      }
      state := inserted.value;
      return Success(Recorded(Some(eventId), true));
    }

    /** Fires what is overdue and clears what is locked; the count is the number of rows added. */
    method EvaluateStarvation(shifts: seq<Shift>, rules: seq<Rule>, now: Time, window: Time) returns (r: Result<int, AlertError>)
      modifies this
      ensures match Evaluated(old(state), shifts, rules, now, window)
              case Success(after) => r == Success(|after.events| - |old(state).events|) && state == after
              case Failure(e) => r == Failure(e) && state == old(state)
    {
      hide EvaluatePair, PairsOf, AllPairs, IsLoaded;
      if window != DAY {
        return Failure(InvalidRequest);
      }
      var tx := state;
      var inserted := 0;
      assert AllPairs(shifts[..0], rules, now) == [] by {
        NoShifts(rules, now);
      }
      for i := 0 to |shifts|
        invariant state == old(state)
        invariant EvaluatePairs(state, AllPairs(shifts[..i], rules, now), now) == Success(tx)
        invariant inserted == |tx.events| - |state.events|
      {
        ghost var before := AllPairs(shifts[..i], rules, now);
        ShiftsGrow(shifts, rules, now, i);
        if IsLoaded(shifts[i], now) {
          var done, count := EvaluateShift(tx, shifts[i], rules, now);
          PairsInTwo(state, before, PairsOf(shifts[i], rules), now);
          if done.Failure? {
            AllPairsPrefix(shifts, rules, now, i + 1);
            PrefixRefuses(state, AllPairs(shifts[..i + 1], rules, now), AllPairs(shifts, rules, now), now);
            return Failure(done.error);
          }
          tx := done.value;
          inserted := inserted + count;
        }
      }
      assert shifts[..|shifts|] == shifts;
      state := tx;
      return Success(inserted);
    }
  }
}
