/**
 Delivering outbox events (internal/repository/relay, internal/service/relay):
 leases in the relay table, and workers that claim, send and finish.
 */
module Relay {
  import opened Wrappers

  type Key = nat
  type Token = nat
  type WorkerId = nat
  type Payload = string
  /** Microseconds. */
  type Time = int

  const SECOND: Time := 1000000
  const LEASE: Time := 300 * SECOND

  datatype Status = Pending | InFlight | Failed | Delivered

  datatype Row = Row(
    status: Status,
    attempts: nat,
    token: Option<Token>,
    expires: Option<Time>,
    nextAttempt: Option<Time>,
    deliveredAt: Option<Time>)

  datatype RelayError = NotFound | LeaseExpired

  // ----- One row -----

  /** A claim finds nothing to do: delivered, leased to somebody, or not due yet. */
  predicate IsBusy(row: Row, now: Time) {
    || row.status == Delivered
    || (row.status == InFlight && row.expires.Some? && row.expires.value > now)
    || (row.status == Failed && row.nextAttempt.Some? && row.nextAttempt.value > now)
  }

  function ClaimedRow(row: Row, token: Token, now: Time): Row {
    row.(status := InFlight, attempts := row.attempts + 1, token := Some(token), expires := Some(now + LEASE))
  }

  function TwoTo(k: nat): nat {
    if k == 0 then 1 else 2 * TwoTo(k - 1)
  }

  function Backoff(attempts: nat): Time {
    TwoTo(if attempts > 12 then 12 else attempts) * SECOND
  }

  function FinishedRow(row: Row, success: bool, now: Time): Row {
    if success then row.(status := Delivered, token := None, expires := None, nextAttempt := None, deliveredAt := Some(now))
    else row.(status := Failed, token := None, expires := None, nextAttempt := Some(now + Backoff(row.attempts)))
  }

  /** A lease may finish while its token is on the row and it has not run out. */
  function FinishError(rows: map<Key, Row>, key: Key, token: Token, now: Time): Option<RelayError> {
    if key !in rows || rows[key].token != Some(token) || rows[key].status != InFlight then Some(NotFound)
    else if rows[key].expires.None? || rows[key].expires.value <= now then Some(LeaseExpired)
    else None
  }

  // ----- The system -----

  /** Where a worker stands in its delivery. */
  datatype Worker =
    | Idle
    | Sending(key: Key, payload: Payload, token: Token)
    | Finishing(key: Key, token: Token, success: bool)

  /** What happened, in order. */
  datatype Entry =
    | Claim(claimed: Key, at: Time)
    | Accept(accepted: Key, payload: Payload)
    | Finish(finished: Key, success: bool, when: Time)

  datatype System = System(
    outbox: map<Key, Payload>,
    rows: map<Key, Row>,
    nextToken: Token,
    workers: map<WorkerId, Worker>,
    trace: seq<Entry>,
    clock: Time)

  /** One step of one worker; a worker may stop at any point and start again. */
  datatype Event =
    | TryClaim(w: WorkerId, key: Key, now: Time)
    | Send(w: WorkerId, accepts: bool)
    | TryFinish(w: WorkerId, now: Time)
    | Stop(w: WorkerId)

  function At(s: System, w: WorkerId): Worker {
    if w in s.workers then s.workers[w] else Idle
  }

  function ClaimStep(s: System, w: WorkerId, key: Key, now: Time): System {
    if At(s, w) != Idle || key !in s.rows || key !in s.outbox || IsBusy(s.rows[key], now) then s.(clock := now)
    else
      s.(rows := s.rows[key := ClaimedRow(s.rows[key], s.nextToken, now)],
         nextToken := s.nextToken + 1,
         workers := s.workers[w := Sending(key, s.outbox[key], s.nextToken)],
         trace := s.trace + [Claim(key, now)],
         clock := now)
  }

  function SendStep(s: System, w: WorkerId, accepts: bool): System {
    match At(s, w)
    case Sending(key, payload, token) =>
      s.(workers := s.workers[w := Finishing(key, token, accepts)],
         trace := if accepts then s.trace + [Accept(key, payload)] else s.trace)
    case _ => s
  }

  function FinishStep(s: System, w: WorkerId, now: Time): System {
    match At(s, w)
    case Finishing(key, token, success) =>
      if FinishError(s.rows, key, token, now).Some? then s.(workers := s.workers[w := Idle], clock := now)
      else
        s.(rows := s.rows[key := FinishedRow(s.rows[key], success, now)],
           workers := s.workers[w := Idle],
           trace := s.trace + [Finish(key, success, now)],
           clock := now)
    case _ => s.(clock := now)
  }

  function Next(s: System, e: Event): System {
    match e
    case TryClaim(w, key, now) => ClaimStep(s, w, key, now)
    case Send(w, accepts) => SendStep(s, w, accepts)
    case TryFinish(w, now) => FinishStep(s, w, now)
    case Stop(w) => s.(workers := s.workers[w := Idle])
  }

  function After(s: System, events: seq<Event>): System {
    if events == [] then s else Next(After(s, events[..|events| - 1]), events[|events| - 1])
  }

  // ----- Reading the trace -----

  function ClaimTimes(trace: seq<Entry>, key: Key): seq<Time> {
    if trace == [] then []
    else
      var last := trace[|trace| - 1];
      ClaimTimes(trace[..|trace| - 1], key) + if last.Claim? && last.claimed == key then [last.at] else []
  }

  /** The entry records a finish of the event with this result. */
  predicate IsFinish(e: Entry, key: Key, success: bool) {
    e.Finish? && e.finished == key && e.success == success
  }

  function Successes(trace: seq<Entry>, key: Key): nat {
    if trace == [] then 0
    else
      var last := trace[|trace| - 1];
      Successes(trace[..|trace| - 1], key) + if IsFinish(last, key, true) then 1 else 0
  }

  lemma TraceGrows(trace: seq<Entry>, e: Entry, key: Key)
    ensures ClaimTimes(trace + [e], key)
         == if e.Claim? && e.claimed == key then ClaimTimes(trace, key) + [e.at] else ClaimTimes(trace, key)
    ensures Successes(trace + [e], key) == Successes(trace, key) + if IsFinish(e, key, true) then 1 else 0
  {
    assert (trace + [e])[..|trace|] == trace;
    assert ClaimTimes(trace, key) + [] == ClaimTimes(trace, key);
  }

  /** What appending events leaves behind: a pending row for each, idle workers, and nothing happened yet. */
  ghost predicate IsFresh(s: System) {
    && s.rows.Keys == s.outbox.Keys && s.workers == map[] && s.trace == []
    && forall key | key in s.rows :: s.rows[key].status == Pending && s.rows[key].attempts == 0
  }

  // ----- Delivery: once, and only what the sink accepted -----

  ghost predicate WorkerOk(s: System, w: Worker) {
    match w
    case Idle => true
    case Sending(key, payload, _) => key in s.outbox && payload == s.outbox[key]
    case Finishing(key, _, success) => key in s.outbox && (success ==> Accept(key, s.outbox[key]) in s.trace)
  }

  ghost predicate RowDelivery(s: System, key: Key)
    requires key in s.rows
  {
    && s.rows[key].attempts == |ClaimTimes(s.trace, key)|
    && Successes(s.trace, key) == (if s.rows[key].status == Delivered then 1 else 0)
    && (s.rows[key].status == Delivered ==> key in s.outbox && Accept(key, s.outbox[key]) in s.trace)
  }

  ghost predicate DeliveryOk(s: System) {
    && (forall w | w in s.workers :: WorkerOk(s, s.workers[w]))
    && (forall key | key in s.rows :: RowDelivery(s, key))
  }

  /** A worker's claims about the sink survive anything that only adds to the trace. */
  lemma WorkersStay(s: System, after: System, w: WorkerId)
    requires DeliveryOk(s) && after.outbox == s.outbox && s.trace <= after.trace
    requires (forall x | x in after.workers && x != w :: x in s.workers && after.workers[x] == s.workers[x])
    requires w in after.workers ==> WorkerOk(after, after.workers[w])
    ensures forall x | x in after.workers :: WorkerOk(after, after.workers[x])
  {
    forall x | x in after.workers ensures WorkerOk(after, after.workers[x]) {
      if x != w {
        assert WorkerOk(s, s.workers[x]);
        assert forall e | e in s.trace :: e in after.trace;
      }
    }
  }

  lemma ClaimDelivers(s: System, w: WorkerId, key: Key, now: Time)
    requires DeliveryOk(s)
    ensures DeliveryOk(ClaimStep(s, w, key, now))
  {
    hide ClaimTimes, Successes, Backoff;
    var after := ClaimStep(s, w, key, now);
    WorkersStay(s, after, w);
    forall k | k in after.rows ensures RowDelivery(after, k) {
      assert RowDelivery(s, k);
      TraceGrows(s.trace, Claim(key, now), k);
    }
  }

  lemma SendDelivers(s: System, w: WorkerId, accepts: bool)
    requires DeliveryOk(s)
    ensures DeliveryOk(SendStep(s, w, accepts))
  {
    hide ClaimTimes, Successes;
    var after := SendStep(s, w, accepts);
    if At(s, w).Sending? {
      var key, payload := At(s, w).key, At(s, w).payload;
      assert WorkerOk(s, s.workers[w]);
      if accepts {
        assert after.trace[|s.trace|] == Accept(key, payload);
      }
      WorkersStay(s, after, w);
      forall k | k in after.rows ensures RowDelivery(after, k) {
        assert RowDelivery(s, k);
        TraceGrows(s.trace, Accept(key, payload), k);
      }
    }
  }

  lemma FinishDelivers(s: System, w: WorkerId, now: Time)
    requires DeliveryOk(s)
    ensures DeliveryOk(FinishStep(s, w, now))
  {
    hide ClaimTimes, Successes, Backoff;
    var after := FinishStep(s, w, now);
    WorkersStay(s, after, w);
    if At(s, w).Finishing? {
      var key, success := At(s, w).key, At(s, w).success;
      assert WorkerOk(s, s.workers[w]);
      forall k | k in after.rows ensures RowDelivery(after, k) {
        assert RowDelivery(s, k);
        TraceGrows(s.trace, Finish(key, success, now), k);
      }
    } else {
      forall k | k in after.rows ensures RowDelivery(after, k) {
        assert RowDelivery(s, k);
      }
    }
  }

  lemma StopDelivers(s: System, w: WorkerId)
    requires DeliveryOk(s)
    ensures DeliveryOk(s.(workers := s.workers[w := Idle]))
  {
    var after := s.(workers := s.workers[w := Idle]);
    WorkersStay(s, after, w);
    forall k | k in after.rows ensures RowDelivery(after, k) {
      assert RowDelivery(s, k);
    }
  }

  lemma StepDelivers(s: System, e: Event)
    requires DeliveryOk(s)
    ensures DeliveryOk(Next(s, e))
  {
    hide DeliveryOk, ClaimStep, SendStep, FinishStep;
    match e
    case TryClaim(w, key, now) => ClaimDelivers(s, w, key, now);
    case Send(w, accepts) => SendDelivers(s, w, accepts);
    case TryFinish(w, now) => FinishDelivers(s, w, now);
    case Stop(w) => StopDelivers(s, w);
  }

  lemma {:induction false} RunDelivers(s: System, events: seq<Event>)
    requires DeliveryOk(s)
    ensures DeliveryOk(After(s, events))
  {
    hide DeliveryOk, Next;
    if events != [] {
      RunDelivers(s, events[..|events| - 1]);
      StepDelivers(After(s, events[..|events| - 1]), events[|events| - 1]);
    }
  }

  lemma FreshDelivers(s: System)
    requires IsFresh(s)
    ensures DeliveryOk(s)
  {
    forall key | key in s.rows ensures RowDelivery(s, key) {
    }
  }

  /** Over any run an event is finished successfully at most once, and delivered means the sink took its payload. */
  lemma DeliveredOnce(s: System, events: seq<Event>, key: Key)
    requires IsFresh(s) && key in After(s, events).rows
    ensures var end := After(s, events);
            && Successes(end.trace, key) <= 1
            && (end.rows[key].status == Delivered <==> Successes(end.trace, key) == 1)
            && (end.rows[key].status == Delivered ==> key in end.outbox && Accept(key, end.outbox[key]) in end.trace)
            && end.rows[key].attempts == |ClaimTimes(end.trace, key)|
  {
    hide After, IsFresh, ClaimTimes, Successes;
    FreshDelivers(s);
    RunDelivers(s, events);
    assert RowDelivery(After(s, events), key);
  }

  lemma DeliveredStays(s: System, e: Event, key: Key)
    requires key in s.rows && s.rows[key].status == Delivered
    ensures key in Next(s, e).rows && Next(s, e).rows[key] == s.rows[key]
  {
  }

  /** Delivered is final: nothing writes the row again. */
  lemma {:induction false} DeliveredIsAbsorbing(s: System, events: seq<Event>, key: Key)
    requires key in s.rows && s.rows[key].status == Delivered
    ensures key in After(s, events).rows && After(s, events).rows[key] == s.rows[key]
  {
    hide Next;
    if events != [] {
      DeliveredIsAbsorbing(s, events[..|events| - 1], key);
      DeliveredStays(After(s, events[..|events| - 1]), events[|events| - 1], key);
    }
  }

  // ----- Timing: claims keep their distance -----

  /** The least distance between the k-th claim and the next. */
  function Gap(k: nat): Time {
    var seconds := TwoTo(if k > 12 then 12 else k);
    (if seconds > 300 then 300 else seconds) * SECOND
  }

  ghost predicate Spaced(times: seq<Time>) {
    forall i | 0 < i < |times| :: times[i] - times[i - 1] >= Gap(i)
  }

  /** The next claim cannot come before the gap after the last one is over. */
  ghost predicate Timed(row: Row, times: seq<Time>, clock: Time) {
    && Spaced(times) && row.attempts == |times|
    && (row.status == Pending <==> times == [])
    && (row.status == InFlight && times != [] ==> row.expires == Some(times[|times| - 1] + LEASE))
    && (row.status == Failed && times != [] ==>
          row.nextAttempt.Some? && row.nextAttempt.value >= times[|times| - 1] + Gap(|times|))
    && (times != [] ==> times[|times| - 1] <= clock)
  }

  ghost predicate RowTiming(s: System, key: Key)
    requires key in s.rows
  {
    Timed(s.rows[key], ClaimTimes(s.trace, key), s.clock)
  }

  ghost predicate TimingOk(s: System) {
    forall key | key in s.rows :: RowTiming(s, key)
  }

  lemma GapIsShort(k: nat)
    ensures Gap(k) <= LEASE && Gap(k) <= Backoff(k)
  {
  }

  lemma SpacedGrows(times: seq<Time>, now: Time)
    requires Spaced(times) && (times != [] ==> now - times[|times| - 1] >= Gap(|times|))
    ensures Spaced(times + [now])
  {
    hide Gap;
    var more := times + [now];
    forall i | 0 < i < |more| ensures more[i] - more[i - 1] >= Gap(i) {
      if i < |times| {
        assert times[i] - times[i - 1] >= Gap(i);
      }
    }
  }

  lemma ClaimedIsTimed(row: Row, times: seq<Time>, clock: Time, token: Token, now: Time)
    requires Timed(row, times, clock) && clock <= now && !IsBusy(row, now)
    ensures Timed(ClaimedRow(row, token, now), times + [now], now)
  {
    hide Gap, Backoff, Spaced;
    GapIsShort(|times|);
    SpacedGrows(times, now);
  }

  lemma FinishedIsTimed(row: Row, times: seq<Time>, clock: Time, success: bool, now: Time)
    requires Timed(row, times, clock) && clock <= now && row.status == InFlight
    ensures Timed(FinishedRow(row, success, now), times, now)
  {
    hide Gap, Backoff, Spaced;
    GapIsShort(row.attempts);
  }

  lemma TimedLater(row: Row, times: seq<Time>, clock: Time, now: Time)
    requires Timed(row, times, clock) && clock <= now
    ensures Timed(row, times, now)
  {
    hide Gap, Spaced;
  }

  lemma ClaimIsTimely(s: System, w: WorkerId, key: Key, now: Time)
    requires TimingOk(s) && s.clock <= now
    ensures TimingOk(ClaimStep(s, w, key, now))
  {
    hide ClaimTimes, Timed, IsBusy, ClaimedRow;
    var after := ClaimStep(s, w, key, now);
    forall k | k in after.rows ensures RowTiming(after, k) {
      assert RowTiming(s, k);
      TraceGrows(s.trace, Claim(key, now), k);
      TimedLater(s.rows[k], ClaimTimes(s.trace, k), s.clock, now);
      if k == key && !IsBusy(s.rows[k], now) {
        ClaimedIsTimed(s.rows[k], ClaimTimes(s.trace, k), s.clock, s.nextToken, now);
      }
    }
  }

  lemma FinishIsTimely(s: System, w: WorkerId, now: Time)
    requires TimingOk(s) && s.clock <= now
    ensures TimingOk(FinishStep(s, w, now))
  {
    hide ClaimTimes, Timed, FinishedRow;
    var after := FinishStep(s, w, now);
    forall k | k in after.rows ensures RowTiming(after, k) {
      assert RowTiming(s, k);
      TimedLater(s.rows[k], ClaimTimes(s.trace, k), s.clock, now);
      if At(s, w).Finishing? {
        TraceGrows(s.trace, Finish(At(s, w).key, At(s, w).success, now), k);
        if s.rows[k].status == InFlight {
          FinishedIsTimed(s.rows[k], ClaimTimes(s.trace, k), s.clock, At(s, w).success, now);
        }
      }
    }
  }

  lemma SendIsTimely(s: System, w: WorkerId, accepts: bool)
    requires TimingOk(s)
    ensures TimingOk(SendStep(s, w, accepts))
  {
    hide ClaimTimes, Timed;
    var after := SendStep(s, w, accepts);
    forall k | k in after.rows ensures RowTiming(after, k) {
      assert RowTiming(s, k);
      if At(s, w).Sending? {
        TraceGrows(s.trace, Accept(At(s, w).key, At(s, w).payload), k);
      }
    }
  }

  lemma StopIsTimely(s: System, w: WorkerId)
    requires TimingOk(s)
    ensures TimingOk(s.(workers := s.workers[w := Idle]))
  {
    hide ClaimTimes, Timed;
    forall k | k in s.rows ensures RowTiming(s.(workers := s.workers[w := Idle]), k) {
      assert RowTiming(s, k);
    }
  }

  predicate Timely(s: System, e: Event) {
    match e
    case TryClaim(_, _, now) => s.clock <= now
    case TryFinish(_, now) => s.clock <= now
    case _ => true
  }

  /** The clock never goes back along the run. */
  ghost predicate NonDecreasing(s: System, events: seq<Event>) {
    forall i | 0 <= i < |events| :: Timely(After(s, events[..i]), events[i])
  }

  lemma StepIsTimely(s: System, e: Event)
    requires TimingOk(s) && Timely(s, e)
    ensures TimingOk(Next(s, e))
  {
    hide TimingOk, ClaimStep, SendStep, FinishStep;
    match e
    case TryClaim(w, key, now) => ClaimIsTimely(s, w, key, now);
    case Send(w, accepts) => SendIsTimely(s, w, accepts);
    case TryFinish(w, now) => FinishIsTimely(s, w, now);
    case Stop(w) => StopIsTimely(s, w);
  }

  lemma {:induction false} RunIsTimely(s: System, events: seq<Event>)
    requires TimingOk(s) && NonDecreasing(s, events)
    ensures TimingOk(After(s, events))
  {
    hide TimingOk, Timely, Next;
    if events != [] {
      var n := |events| - 1;
      assert NonDecreasing(s, events[..n]) by {
        forall i | 0 <= i < n ensures Timely(After(s, events[..n][..i]), events[..n][i]) {
          assert events[..n][..i] == events[..i];
        }
      }
      RunIsTimely(s, events[..n]);
      assert Timely(After(s, events[..n]), events[n]);
      StepIsTimely(After(s, events[..n]), events[n]);
    }
  }

  lemma FreshIsTimely(s: System)
    requires IsFresh(s)
    ensures TimingOk(s)
  {
    forall key | key in s.rows ensures RowTiming(s, key) {
    }
  }

  /** Claim i and claim i + 1 of an event are at least min(300, 2^min(i, 12)) seconds apart. */
  lemma ClaimsKeepTheirDistance(s: System, events: seq<Event>, key: Key, i: nat)
    requires IsFresh(s) && NonDecreasing(s, events) && key in After(s, events).rows
    requires 0 < i < |ClaimTimes(After(s, events).trace, key)|
    ensures var times := ClaimTimes(After(s, events).trace, key);
            times[i] - times[i - 1] >= Gap(i)
  {
    hide After, ClaimTimes, NonDecreasing, Gap, IsFresh;
    FreshIsTimely(s);
    RunIsTimely(s, events);
    assert RowTiming(After(s, events), key);
  }

  // ----- The repository and the worker -----

  lemma ThreeSteps(s: System, a: Event, b: Event, c: Event)
    ensures After(s, [a, b, c]) == Next(Next(Next(s, a), b), c)
  {
    hide Next;
    assert [a, b, c][..2] == [a, b] && [a, b][..1] == [a] && [a][..0] == [];
    assert After(s, [a]) == Next(After(s, []), a);
    assert After(s, [a, b]) == Next(After(s, [a]), b);
  }

  class RelayRepository {
    var outbox: map<Key, Payload>
    var rows: map<Key, Row>
    var nextToken: Token

    constructor (outbox: map<Key, Payload>, rows: map<Key, Row>, nextToken: Token)
      ensures this.outbox == outbox && this.rows == rows && this.nextToken == nextToken
    {
      this.outbox := outbox;
      this.rows := rows;
      this.nextToken := nextToken;
    }

    ghost predicate Shows(s: System)
      reads this
    {
      outbox == s.outbox && rows == s.rows && nextToken == s.nextToken
    }

    /** Leases one event when it is due; None when there is nothing to do. */
    method ClaimAt(key: Key, now: Time) returns (r: Result<Option<(Payload, Token)>, RelayError>)
      modifies this
      ensures outbox == old(outbox)
      ensures r.Failure? <==> key !in old(rows) || (key !in outbox && !IsBusy(old(rows)[key], now))
      ensures r.Success? && r.value.None? <==> key in old(rows) && IsBusy(old(rows)[key], now)
      ensures forall s: System, w | old(Shows(s)) && At(s, w) == Idle ::
                var after := ClaimStep(s, w, key, now);
                && Shows(after)
                && (r.Success? && r.value.Some? <==> At(after, w) != Idle)
                && (r.Success? && r.value.Some? ==> At(after, w) == Sending(key, r.value.value.0, r.value.value.1))
    {
      if key !in rows {
        return Failure(NotFound);
      }
      var state := rows[key];
      if state.status == Delivered
         || (state.status == InFlight && state.expires.Some? && state.expires.value > now)
         || (state.status == Failed && state.nextAttempt.Some? && state.nextAttempt.value > now) {
        return Success(None);
      }
      if key !in outbox {
        return Failure(NotFound);
      }
      var lease := nextToken;
      nextToken := nextToken + 1;
      rows := rows[key := state.(status := InFlight, attempts := state.attempts + 1, token := Some(lease), expires := Some(now + LEASE))];
      return Success(Some((outbox[key], lease)));
    }

    /** Records the result of a delivery for a lease that is still in force. */
    method FinishAt(key: Key, lease: Token, success: bool, now: Time) returns (r: Result<(), RelayError>)
      modifies this`rows
      ensures match FinishError(old(rows), key, lease, now)
              case Some(e) => r == Failure(e) && rows == old(rows)
              case None => r.Success? && rows == old(rows)[key := FinishedRow(old(rows)[key], success, now)]
    {
      if key !in rows || rows[key].token != Some(lease) || rows[key].status != InFlight {
        return Failure(NotFound);
      }
      var state := rows[key];
      if state.expires.None? || state.expires.value <= now {
        return Failure(LeaseExpired);
      }
      state := state.(token := None, expires := None);
      if success {
        state := state.(status := Delivered, deliveredAt := Some(now), nextAttempt := None);
      } else {
        var attempt := state.attempts;
        if attempt > 12 {
          attempt := 12;
        }
        state := state.(status := Failed, nextAttempt := Some(now + TwoTo(attempt) * SECOND));
      }
      rows := rows[key := state];
      return Success(());
    }

    /** A whole delivery that nothing interleaves is three steps of one worker. */
    method Deliver(ghost s: System, ghost w: WorkerId, key: Key, accepts: bool, claimedAt: Time, finishedAt: Time)
      returns (claimed: bool)
      requires Shows(s) && At(s, w) == Idle
      modifies this
      ensures Shows(After(s, [TryClaim(w, key, claimedAt), Send(w, accepts), TryFinish(w, finishedAt)]))
           || (!claimed && Shows(Next(s, TryClaim(w, key, claimedAt))))
      ensures claimed <==> At(Next(s, TryClaim(w, key, claimedAt)), w) != Idle
    {
      hide IsBusy, ClaimedRow, FinishedRow, FinishError;
      var claim := ClaimAt(key, claimedAt);
      ghost var s1 := Next(s, TryClaim(w, key, claimedAt));
      if claim.Failure? || claim.value.None? {
        return false;
      }
      ghost var s2 := Next(s1, Send(w, accepts));
      var finish := FinishAt(key, claim.value.value.1, accepts, finishedAt);
      ghost var s3 := Next(s2, TryFinish(w, finishedAt));
      assert Shows(s3);
      ThreeSteps(s, TryClaim(w, key, claimedAt), Send(w, accepts), TryFinish(w, finishedAt));
      return true;
    }
  }
}
