/** When an outbox event can be claimed, and how long it takes at most until it can be claimed again. */
module RelayProgress {
  import opened Wrappers
  import opened Relay

  // ----- Claiming -----

  /** The row was never claimed, or its lease or its backoff is over. */
  predicate IsDue(row: Row, now: Time) {
    || row.status == Pending
    || (row.status == InFlight && (row.expires.None? || row.expires.value <= now))
    || (row.status == Failed && (row.nextAttempt.None? || row.nextAttempt.value <= now))
  }

  /**
   An idle worker's claim of a known event succeeds exactly when the event is due.
   It then leases the row for 300 seconds, counts the attempt, and hands the
   worker the event's payload; a claim that fails changes no row.
   */
  lemma ClaimSucceedsIff(s: System, w: WorkerId, key: Key, now: Time)
    requires At(s, w) == Idle && key in s.rows && key in s.outbox
    ensures var after := ClaimStep(s, w, key, now);
            && (At(after, w) != Idle <==> IsDue(s.rows[key], now))
            && (At(after, w) != Idle ==>
                  && At(after, w) == Sending(key, s.outbox[key], s.nextToken)
                  && after.rows == s.rows[key := s.rows[key].(status := InFlight, attempts := s.rows[key].attempts + 1,
                                                              token := Some(s.nextToken), expires := Some(now + 300 * 1000000))])
            && (At(after, w) == Idle ==> after.rows == s.rows)
  {
  }

  // ----- How long a row is busy -----

  /** The time of the last failed finish of an event. */
  function LastFailure(trace: seq<Entry>, key: Key): Option<Time> {
    if trace == [] then None
    else
      var last := trace[|trace| - 1];
      if IsFinish(last, key, false) then Some(last.when) else LastFailure(trace[..|trace| - 1], key)
  }

  lemma FailureGrows(trace: seq<Entry>, e: Entry, key: Key)
    ensures LastFailure(trace + [e], key) == if IsFinish(e, key, false) then Some(e.when) else LastFailure(trace, key)
  {
    assert (trace + [e])[..|trace|] == trace;
  }

  /** 2^min(attempts, 12) seconds. */
  function Wait(attempts: nat): Time {
    TwoTo(if attempts < 12 then attempts else 12) * 1000000
  }

  /** The wait is one second before any attempt, doubles with each of the first twelve, and then stays. */
  lemma WaitDoubles(attempts: nat)
    ensures Wait(0) == 1000000
    ensures Wait(attempts + 1) == if attempts < 12 then 2 * Wait(attempts) else Wait(attempts)
  {
  }

  /** A leased row is leased for 300 seconds from its last claim; a failed one waits from its last failed finish. */
  ghost predicate Waits(row: Row, claims: seq<Time>, failure: Option<Time>) {
    && row.attempts == |claims|
    && (row.status == InFlight ==> claims != [] && row.expires == Some(claims[|claims| - 1] + 300 * 1000000))
    && (row.status == Failed ==> failure.Some? && row.nextAttempt == Some(failure.value + Wait(|claims|)))
  }

  ghost predicate RowWaits(s: System, key: Key)
    requires key in s.rows
  {
    Waits(s.rows[key], ClaimTimes(s.trace, key), LastFailure(s.trace, key))
  }

  ghost predicate WaitsOk(s: System) {
    s.rows.Keys == s.outbox.Keys && forall key | key in s.rows :: RowWaits(s, key)
  }

  lemma ClaimWaits(s: System, w: WorkerId, key: Key, now: Time)
    requires WaitsOk(s)
    ensures WaitsOk(ClaimStep(s, w, key, now))
  {
    hide ClaimTimes, LastFailure, Wait;
    var after := ClaimStep(s, w, key, now);
    forall k | k in after.rows ensures RowWaits(after, k) {
      assert RowWaits(s, k);
      TraceGrows(s.trace, Relay.Claim(key, now), k);
      FailureGrows(s.trace, Relay.Claim(key, now), k);
    }
  }

  lemma SendWaits(s: System, w: WorkerId, accepts: bool)
    requires WaitsOk(s)
    ensures WaitsOk(SendStep(s, w, accepts))
  {
    hide ClaimTimes, LastFailure, Wait;
    var after := SendStep(s, w, accepts);
    forall k | k in after.rows ensures RowWaits(after, k) {
      assert RowWaits(s, k);
      if At(s, w).Sending? {
        TraceGrows(s.trace, Accept(At(s, w).key, At(s, w).payload), k);
        FailureGrows(s.trace, Accept(At(s, w).key, At(s, w).payload), k);
      }
    }
  }

  lemma FinishWaits(s: System, w: WorkerId, now: Time)
    requires WaitsOk(s)
    ensures WaitsOk(FinishStep(s, w, now))
  {
    hide ClaimTimes, LastFailure, TwoTo;
    var after := FinishStep(s, w, now);
    forall k | k in after.rows ensures RowWaits(after, k) {
      assert RowWaits(s, k);
      if At(s, w).Finishing? {
        TraceGrows(s.trace, Finish(At(s, w).key, At(s, w).success, now), k);
        FailureGrows(s.trace, Finish(At(s, w).key, At(s, w).success, now), k);
      }
    }
  }

  lemma StopWaits(s: System, w: WorkerId)
    requires WaitsOk(s)
    ensures WaitsOk(s.(workers := s.workers[w := Idle]))
  {
    hide ClaimTimes, LastFailure, Wait;
    forall k | k in s.rows ensures RowWaits(s.(workers := s.workers[w := Idle]), k) {
      assert RowWaits(s, k);
    }
  }

  lemma StepWaits(s: System, e: Event)
    requires WaitsOk(s)
    ensures WaitsOk(Next(s, e))
  {
    hide ClaimStep, SendStep, FinishStep, RowWaits;
    match e
    case TryClaim(w, key, now) => ClaimWaits(s, w, key, now);
    case Send(w, accepts) => SendWaits(s, w, accepts);
    case TryFinish(w, now) => FinishWaits(s, w, now);
    case Stop(w) => StopWaits(s, w);
  }

  lemma {:induction false} RunWaits(s: System, events: seq<Event>)
    requires WaitsOk(s)
    ensures WaitsOk(After(s, events))
  {
    hide WaitsOk, Next;
    if events != [] {
      RunWaits(s, events[..|events| - 1]);
      StepWaits(After(s, events[..|events| - 1]), events[|events| - 1]);
    }
  }

  lemma FreshWaits(s: System)
    requires IsFresh(s)
    ensures WaitsOk(s)
  {
    forall key | key in s.rows ensures RowWaits(s, key) {
    }
  }

  // ----- Progress -----

  /** The waiting time of an undelivered event is over: the lease of its last claim, or the backoff of its last failed finish. */
  ghost predicate WaitIsOver(s: System, key: Key, now: Time)
    requires key in s.rows
  {
    var claims, failure := ClaimTimes(s.trace, key), LastFailure(s.trace, key);
    && s.rows[key].status != Delivered
    && (s.rows[key].status == InFlight ==> claims != [] && claims[|claims| - 1] + 300 * 1000000 <= now)
    && (s.rows[key].status == Failed ==> failure.Some? && failure.value + Wait(|claims|) <= now)
  }

  lemma OverIsDue(s: System, key: Key, now: Time)
    requires WaitsOk(s) && key in s.rows && WaitIsOver(s, key, now)
    ensures key in s.outbox && IsDue(s.rows[key], now)
  {
    hide ClaimTimes, LastFailure, Wait;
    assert RowWaits(s, key);
  }

  lemma ClaimedThenDelivered(s: System, w: WorkerId, key: Key, now: Time, finished: Time)
    requires key in s.rows && key in s.outbox && At(s, w) == Idle && IsDue(s.rows[key], now)
    requires finished < now + 300 * 1000000
    ensures var done := Next(Next(Next(s, TryClaim(w, key, now)), Send(w, true)), TryFinish(w, finished));
            key in done.rows && done.rows[key].status == Delivered && done.rows[key].deliveredAt == Some(finished)
  {
    ClaimSucceedsIff(s, w, key, now);
    var s1 := Next(s, TryClaim(w, key, now));
    var s2 := Next(s1, Send(w, true));
    assert At(s2, w) == Finishing(key, s.nextToken, true);
  }

  lemma ClaimTried(s: System, w: WorkerId, key: Key, now: Time)
    ensures Next(s, TryClaim(w, key, now)) == ClaimStep(s, w, key, now)
  {
    hide ClaimStep;
  }

  lemma OneMore(s: System, events: seq<Event>, e: Event)
    ensures After(s, events + [e]) == Next(After(s, events), e)
  {
    hide Next;
    assert (events + [e])[..|events|] == events;
  }

  lemma ThreeMore(s: System, events: seq<Event>, a: Event, b: Event, c: Event)
    ensures After(s, events + [a, b, c]) == Next(Next(Next(After(s, events), a), b), c)
  {
    hide After, Next;
    OneMore(s, events, a);
    OneMore(s, events + [a], b);
    OneMore(s, events + [a] + [b], c);
    assert events + [a] + [b] + [c] == events + [a, b, c];
  }

  /**
   No undelivered event is ever stuck. In every state a run leads to, an idle
   worker can claim it at any time from 300 seconds after its last claim while
   it is leased, or from 2^min(k, 12) seconds after its last failed finish while
   it has failed k attempts; sending it to an accepting sink and finishing
   before the lease ends then delivers it.
   */
  lemma UndeliveredCanBeDelivered(s: System, events: seq<Event>, key: Key, w: WorkerId, now: Time, finished: Time)
    requires IsFresh(s) && key in After(s, events).rows && At(After(s, events), w) == Idle
    requires WaitIsOver(After(s, events), key, now) && finished < now + 300 * 1000000
    ensures var end := After(s, events);
            && At(Next(end, TryClaim(w, key, now)), w) != Idle
            && var done := After(s, events + [TryClaim(w, key, now), Send(w, true), TryFinish(w, finished)]);
            key in done.rows && done.rows[key].status == Delivered && done.rows[key].deliveredAt == Some(finished)
  {
    hide After, Next, WaitsOk, IsFresh, IsDue, WaitIsOver;
    var end := After(s, events);
    FreshWaits(s);
    RunWaits(s, events);
    OverIsDue(end, key, now);
    ClaimTried(end, w, key, now);
    ClaimSucceedsIff(end, w, key, now);
    ClaimedThenDelivered(end, w, key, now, finished);
    ThreeMore(s, events, TryClaim(w, key, now), Send(w, true), TryFinish(w, finished));
  }

  lemma HasPayload(s: System, key: Key)
    requires WaitsOk(s) && key in s.rows
    ensures key in s.outbox
  {
  }

  /**
   Before that it cannot be claimed: a leased event is not claimed within 300
   seconds of its last claim, a failed one not within the backoff of its last
   failed finish, and a delivered one never.
   */
  lemma NotBeforeItsTime(s: System, events: seq<Event>, key: Key, w: WorkerId, now: Time)
    requires IsFresh(s) && key in After(s, events).rows && At(After(s, events), w) == Idle
    requires !WaitIsOver(After(s, events), key, now)
    ensures At(Next(After(s, events), TryClaim(w, key, now)), w) == Idle
  {
    hide After, Next, IsFresh, ClaimTimes, LastFailure, Wait;
    var end := After(s, events);
    FreshWaits(s);
    RunWaits(s, events);
    assert RowWaits(end, key);
    hide WaitsOk;
    ClaimTried(end, w, key, now);
    ClaimSucceedsIff(end, w, key, now) by {
      assert key in end.outbox by {
        HasPayload(end, key);
      }
    }
  }

  // ----- Finishing -----

  /** A worker's finish is recorded exactly while its token is on the leased row and the lease has not ended. */
  lemma FinishSucceedsIff(s: System, w: WorkerId, now: Time)
    requires At(s, w).Finishing?
    ensures var worker, after := At(s, w), FinishStep(s, w, now);
            && At(after, w) == Idle
            && (after.trace != s.trace <==>
                  && worker.key in s.rows && s.rows[worker.key].status == InFlight && s.rows[worker.key].token == Some(worker.token)
                  && s.rows[worker.key].expires.Some? && now < s.rows[worker.key].expires.value)
            && (after.trace == s.trace ==> after.rows == s.rows)
            && (after.trace != s.trace ==>
                  && after.trace == s.trace + [Finish(worker.key, worker.success, now)]
                  && after.rows == s.rows[worker.key := after.rows[worker.key]]
                  && after.rows[worker.key].token.None? && after.rows[worker.key].expires.None?
                  && after.rows[worker.key].attempts == s.rows[worker.key].attempts
                  && (if worker.success then
                        after.rows[worker.key].status == Delivered && after.rows[worker.key].deliveredAt == Some(now)
                        && after.rows[worker.key].nextAttempt.None?
                      else
                        after.rows[worker.key].status == Failed
                        && after.rows[worker.key].nextAttempt == Some(now + Wait(s.rows[worker.key].attempts))))
  {
    hide TwoTo;
  }
}
