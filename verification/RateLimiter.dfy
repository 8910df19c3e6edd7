/**
 The sliding-window limiter of the anonymous password routes
 (internal/httpapi/account): each address keeps a slice of admission times
 that is filtered in place over its own backing array.
 */
module RateLimiter {

  /** Any unit; the source counts nanoseconds. */
  type Time = int

  datatype Limits = Limits(limit: nat, window: Time)

  const MINUTE: Time := 60 * 1000000000

  /** The limits in force for the numbers given. */
  function Normalized(limit: int, window: Time): (l: Limits)
    ensures l.limit >= 1 && l.window > 0
    ensures l.limit == (if limit >= 1 then limit else 1) && l.window == (if window > 0 then window else 60000000000)
  {
    Limits(if limit < 1 then 1 else limit, if window <= 0 then MINUTE else window)
  }

  // ----- One call -----

  /** The times after the cutoff, in their order. */
  function Kept(times: seq<Time>, cutoff: Time): seq<Time> {
    if times == [] then []
    else
      var last := times[|times| - 1];
      Kept(times[..|times| - 1], cutoff) + if last > cutoff then [last] else []
  }

  predicate Admits(l: Limits, times: seq<Time>, now: Time) {
    |Kept(times, now - l.window)| < l.limit
  }

  function NextTimes(l: Limits, times: seq<Time>, now: Time): seq<Time> {
    Kept(times, now - l.window) + if Admits(l, times, now) then [now] else []
  }

  function TimesOf(lists: map<string, seq<Time>>, address: string): seq<Time> {
    if address in lists then lists[address] else []
  }

  function NextLists(l: Limits, lists: map<string, seq<Time>>, address: string, now: Time): map<string, seq<Time>> {
    lists[address := NextTimes(l, TimesOf(lists, address), now)]
  }

  // ----- Runs -----

  datatype Call = Call(address: string, at: Time)

  function ListsAfter(l: Limits, calls: seq<Call>): map<string, seq<Time>> {
    if calls == [] then map[]
    else
      var last := calls[|calls| - 1];
      NextLists(l, ListsAfter(l, calls[..|calls| - 1]), last.address, last.at)
  }

  /** Whether a call was admitted after the calls before it. */
  predicate Admitted(l: Limits, calls: seq<Call>, i: nat)
    requires i < |calls|
  {
    Admits(l, TimesOf(ListsAfter(l, calls[..i]), calls[i].address), calls[i].at)
  }

  /** The times of all admissions of an address, from the whole history. */
  function Admissions(l: Limits, calls: seq<Call>, address: string): seq<Time> {
    if calls == [] then []
    else
      var n := |calls| - 1;
      Admissions(l, calls[..n], address) + if calls[n].address == address && Admitted(l, calls, n) then [calls[n].at] else []
  }

  /** How many of the times lie in the window that ends at a moment. */
  function InWindow(times: seq<Time>, from: Time, to: Time): nat {
    if times == [] then 0
    else
      var last := times[|times| - 1];
      InWindow(times[..|times| - 1], from, to) + if from < last <= to then 1 else 0
  }

  ghost predicate NonDecreasing(calls: seq<Call>) {
    forall i, j | 0 <= i <= j < |calls| :: calls[i].at <= calls[j].at
  }

  // ----- Filtering -----

  lemma KeptGrows(times: seq<Time>, t: Time, cutoff: Time)
    ensures Kept(times + [t], cutoff) == if t > cutoff then Kept(times, cutoff) + [t] else Kept(times, cutoff)
  {
    assert (times + [t])[..|times|] == times;
    assert Kept(times, cutoff) + [] == Kept(times, cutoff);
  }

  lemma {:induction false} KeptTwice(times: seq<Time>, c: Time, d: Time)
    requires c <= d
    ensures Kept(Kept(times, c), d) == Kept(times, d)
  {
    if times != [] {
      var n := |times| - 1;
      KeptTwice(times[..n], c, d);
      assert times == times[..n] + [times[n]];
      KeptGrows(times[..n], times[n], c);
      KeptGrows(times[..n], times[n], d);
      KeptGrows(Kept(times[..n], c), times[n], d);
    }
  }

  lemma {:induction false} KeptCounts(times: seq<Time>, cutoff: Time, now: Time)
    requires forall i | 0 <= i < |times| :: times[i] <= now
    ensures |Kept(times, cutoff)| == InWindow(times, cutoff, now)
  {
    if times != [] {
      KeptCounts(times[..|times| - 1], cutoff, now);
    }
  }

  lemma {:induction false} WindowShrinks(times: seq<Time>, from: Time, to: Time, cutoff: Time, now: Time)
    requires cutoff <= from && forall i | 0 <= i < |times| :: times[i] <= now
    ensures InWindow(times, from, to) <= InWindow(times, cutoff, now)
  {
    if times != [] {
      WindowShrinks(times[..|times| - 1], from, to, cutoff, now);
    }
  }

  lemma WindowGrows(times: seq<Time>, t: Time, from: Time, to: Time)
    ensures InWindow(times + [t], from, to) == InWindow(times, from, to) + if from < t <= to then 1 else 0
  {
    assert (times + [t])[..|times|] == times;
  }

  // ----- The slices refine the history -----

  /** Every admission of an address happened no later than the last call. */
  lemma {:induction false} AdmissionsAreEarlier(l: Limits, calls: seq<Call>, address: string, now: Time)
    requires forall i | 0 <= i < |calls| :: calls[i].at <= now
    ensures forall i | 0 <= i < |Admissions(l, calls, address)| :: Admissions(l, calls, address)[i] <= now
  {
    hide Admitted;
    if calls != [] {
      AdmissionsAreEarlier(l, calls[..|calls| - 1], address, now);
    }
  }

  /** What a slice keeps is what the history has inside any later window. */
  lemma {:induction false} SliceIsHistory(l: Limits, calls: seq<Call>, address: string, now: Time)
    requires l.window > 0 && NonDecreasing(calls) && forall i | 0 <= i < |calls| :: calls[i].at <= now
    ensures Kept(TimesOf(ListsAfter(l, calls), address), now - l.window) == Kept(Admissions(l, calls, address), now - l.window)
  {
    hide Kept;
    if calls != [] {
      var n := |calls| - 1;
      var last, cutoff := calls[n], now - l.window;
      var lists := ListsAfter(l, calls[..n]);
      SliceIsHistory(l, calls[..n], address, now);
      if last.address == address {
        var before := TimesOf(lists, address);
        var kept := Kept(before, last.at - l.window);
        KeptTwice(before, last.at - l.window, cutoff);
        KeptGrows(kept, last.at, cutoff);
        KeptGrows(Admissions(l, calls[..n], address), last.at, cutoff);
        assert kept + [] == kept;
      }
      assert Admissions(l, calls[..n], address) + [] == Admissions(l, calls[..n], address);
    }
  }

  /** A call is admitted exactly when fewer than limit earlier admissions of its address lie in its window. */
  lemma AdmittedIff(l: Limits, calls: seq<Call>, i: nat)
    requires l.window > 0 && NonDecreasing(calls) && i < |calls|
    ensures var c := calls[i];
            Admitted(l, calls, i) <==> InWindow(Admissions(l, calls[..i], c.address), c.at - l.window, c.at) < l.limit
  {
    hide Kept, InWindow, Admissions, ListsAfter, TimesOf;
    var c := calls[i];
    SliceIsHistory(l, calls[..i], c.address, c.at);
    AdmissionsAreEarlier(l, calls[..i], c.address, c.at);
    KeptCounts(Admissions(l, calls[..i], c.address), c.at - l.window, c.at);
  }

  lemma NothingInWindow(from: Time, to: Time)
    ensures InWindow([], from, to) == 0
  {
  }

  /** No window of that length, wherever it ends, ever holds more than limit admissions of one address. */
  lemma {:induction false} NoWindowOverflows(l: Limits, calls: seq<Call>, address: string, end: Time)
    requires l.window > 0 && NonDecreasing(calls)
    ensures InWindow(Admissions(l, calls, address), end - l.window, end) <= l.limit
  {
    hide InWindow, Admitted;
    if calls == [] {
      assert InWindow([], end - l.window, end) == 0 by {
        NothingInWindow(end - l.window, end);
      }
    } else {
      var n := |calls| - 1;
      var last, earlier := calls[n], Admissions(l, calls[..n], address);
      NoWindowOverflows(l, calls[..n], address, end);
      assert earlier + [] == earlier;
      if last.address == address && Admitted(l, calls, n) {
        WindowGrows(earlier, last.at, end - l.window, end);
        AdmittedIff(l, calls, n);
        AdmissionsAreEarlier(l, calls[..n], address, last.at);
        if last.at <= end {
          WindowShrinks(earlier, end - l.window, end, last.at - l.window, last.at);
        }
      }
    }
  }

  lemma {:induction false} KeptIsShorter(times: seq<Time>, cutoff: Time)
    ensures |Kept(times, cutoff)| <= |times|
  {
    if times != [] {
      KeptIsShorter(times[..|times| - 1], cutoff);
    }
  }

  /** A stored list never holds more than limit times, whatever the clock does. */
  lemma {:induction false} ListsStayShort(l: Limits, calls: seq<Call>, address: string)
    requires l.limit >= 1
    ensures |TimesOf(ListsAfter(l, calls), address)| <= l.limit
  {
    hide Kept;
    if calls != [] {
      var last := calls[|calls| - 1];
      ListsStayShort(l, calls[..|calls| - 1], address);
      KeptIsShorter(TimesOf(ListsAfter(l, calls[..|calls| - 1]), address), last.at - l.window);
    }
  }

  // ----- A clock that goes back -----

  /** No call reads a time more than lag before an earlier call's. */
  ghost predicate LagsAtMost(calls: seq<Call>, lag: Time) {
    forall i, j | 0 <= i < j < |calls| :: calls[i].at - calls[j].at <= lag
  }

  ghost predicate WindowBounded(l: Limits, calls: seq<Call>, address: string, end: Time) {
    InWindow(Admissions(l, calls, address), end - l.window, end) <= l.limit
  }

  /** No window of any address holds more than limit admissions, whatever calls within the lag are made. */
  ghost predicate StaysBounded(l: Limits, lag: Time) {
    forall calls: seq<Call>, address, end | LagsAtMost(calls, lag) :: WindowBounded(l, calls, address, end)
  }

  /** With a limit of one the last admission is the only one kept, and the latest of all. */
  ghost predicate KeepsLast(kept: seq<Time>, admissions: seq<Time>) {
    if admissions == [] then kept == []
    else
      var last := admissions[|admissions| - 1];
      kept == [last] && forall i | 0 <= i < |admissions| :: admissions[i] <= last
  }

  lemma NothingLate(times: seq<Time>, from: Time, to: Time)
    requires forall i | 0 <= i < |times| :: times[i] <= from
    ensures InWindow(times, from, to) == 0
    decreases |times|
  {
    if times != [] {
      NothingLate(times[..|times| - 1], from, to);
    }
  }

  lemma OneKept(t: Time, cutoff: Time)
    ensures Kept([t], cutoff) == if t > cutoff then [t] else []
    ensures Kept([], cutoff) == []
  {
    assert [t][..0] == [];
  }

  /** What one more call does to the slice and to the admissions of an address. */
  lemma OneMoreCall(l: Limits, calls: seq<Call>, c: Call, address: string)
    ensures var before := TimesOf(ListsAfter(l, calls), address);
            && TimesOf(ListsAfter(l, calls + [c]), address)
               == (if c.address == address then NextTimes(l, before, c.at) else before)
            && Admissions(l, calls + [c], address)
               == if c.address == address && Admits(l, before, c.at) then Admissions(l, calls, address) + [c.at]
                  else Admissions(l, calls, address)
  {
    hide Admits, NextTimes;
    assert (calls + [c])[..|calls|] == calls;
    assert Admissions(l, calls, address) + [] == Admissions(l, calls, address);
  }

  lemma NothingYet(l: Limits, address: string)
    ensures TimesOf(ListsAfter(l, []), address) == [] && Admissions(l, [], address) == []
  {
  }

  lemma LimitOneStep(l: Limits, kept: seq<Time>, admissions: seq<Time>, t: Time)
    requires l.limit == 1 && l.window > 0 && KeepsLast(kept, admissions)
    ensures KeepsLast(NextTimes(l, kept, t), if Admits(l, kept, t) then admissions + [t] else admissions)
    ensures Admits(l, kept, t) ==> forall i | 0 <= i < |admissions| :: admissions[i] <= t - l.window
  {
    hide Kept;
    OneKept(if kept == [] then 0 else kept[0], t - l.window);
    assert [] + [t] == [t];
    if kept != [] {
      assert kept == [kept[0]];
      assert kept + [] == kept;
    }
  }

  /** A limit of one bounds every window whatever the clock does. */
  lemma {:induction false} LimitOneIsBounded(l: Limits, calls: seq<Call>, address: string, end: Time)
    requires l.limit == 1 && l.window > 0
    ensures KeepsLast(TimesOf(ListsAfter(l, calls), address), Admissions(l, calls, address))
    ensures WindowBounded(l, calls, address, end)
  {
    hide InWindow, Kept, ListsAfter, Admissions, Admits, NextTimes, TimesOf;
    if calls == [] {
      NothingYet(l, address);
      NothingInWindow(end - l.window, end);
    } else {
      hide KeepsLast;
      var n := |calls| - 1;
      var last, earlier := calls[n], Admissions(l, calls[..n], address);
      var kept := TimesOf(ListsAfter(l, calls[..n]), address);
      LimitOneIsBounded(l, calls[..n], address, end);
      assert calls == calls[..n] + [last];
      OneMoreCall(l, calls[..n], last, address);
      if last.address == address {
        LimitOneStep(l, kept, earlier, last.at);
        if Admits(l, kept, last.at) {
          WindowGrows(earlier, last.at, end - l.window, end);
          if last.at <= end {
            NothingLate(earlier, end - l.window, end);
          }
        }
      }
    }
  }

  /** The same reading, as often as the limit allows. */
  function Repeated(n: nat): seq<Call> {
    if n == 0 then [] else Repeated(n - 1) + [Call("", 0)]
  }

  function Zeros(n: nat): seq<Time> {
    if n == 0 then [] else Zeros(n - 1) + [0]
  }

  lemma {:induction false} ZerosKept(n: nat, cutoff: Time)
    ensures |Zeros(n)| == n && Kept(Zeros(n), cutoff) == if cutoff < 0 then Zeros(n) else []
  {
    if n > 0 {
      ZerosKept(n - 1, cutoff);
      KeptGrows(Zeros(n - 1), 0, cutoff);
    }
  }

  lemma {:induction false} ZerosInWindow(n: nat, from: Time, to: Time)
    requires from < 0 <= to
    ensures InWindow(Zeros(n), from, to) == n
  {
    if n > 0 {
      ZerosInWindow(n - 1, from, to);
      WindowGrows(Zeros(n - 1), 0, from, to);
    }
  }

  lemma ZerosAreAdmitted(l: Limits, n: nat)
    requires l.window > 0 && n < l.limit
    ensures Admits(l, Zeros(n), 0) && NextTimes(l, Zeros(n), 0) == Zeros(n) + [0]
  {
    hide Kept;
    ZerosKept(n, -l.window);
  }

  lemma {:induction false} RepeatedAreAdmitted(l: Limits, n: nat)
    requires l.window > 0 && n <= l.limit
    ensures TimesOf(ListsAfter(l, Repeated(n)), "") == Zeros(n) && Admissions(l, Repeated(n), "") == Zeros(n)
  {
    hide Admits, NextTimes, ListsAfter, Admissions, TimesOf;
    if n == 0 {
      NothingYet(l, "");
    } else {
      RepeatedAreAdmitted(l, n - 1);
      ZerosAreAdmitted(l, n - 1);
      OneMoreCall(l, Repeated(n - 1), Call("", 0), "");
    }
  }

  lemma {:induction false} RepeatedCalls(n: nat)
    ensures |Repeated(n)| == n && forall i | 0 <= i < n :: Repeated(n)[i] == Call("", 0)
  {
    if n > 0 {
      RepeatedCalls(n - 1);
    }
  }

  /** As many calls as the limit at one time, one a window later, and one that reads the unit before it. */
  function Overflowing(l: Limits): seq<Call> {
    Repeated(l.limit) + [Call("", l.window)] + [Call("", l.window - 1)]
  }

  lemma OverflowLag(l: Limits)
    requires l.window > 0
    ensures LagsAtMost(Overflowing(l), 1)
  {
    RepeatedCalls(l.limit);
    var calls := Overflowing(l);
    forall i | 0 <= i < |calls| ensures calls[i].at == if i < l.limit then 0 else if i == l.limit then l.window else l.window - 1 {
    }
  }

  /** The calls that fill the limit are forgotten a window later, and the late call is admitted. */
  lemma OverflowAdmissions(l: Limits)
    requires l.window > 0 && l.limit >= 2
    ensures Admissions(l, Overflowing(l), "") == Zeros(l.limit) + [l.window] + [l.window - 1]
  {
    hide ListsAfter, Admissions, TimesOf, Kept, Repeated, Zeros;
    var n, w := l.limit, l.window;
    RepeatedAreAdmitted(l, n);
    ZerosKept(n, 0);
    OneMoreCall(l, Repeated(n), Call("", w), "");
    assert [] + [w] == [w];
    OneKept(w, -1);
    OneMoreCall(l, Repeated(n) + [Call("", w)], Call("", w - 1), "");
  }

  /** With a limit above one, a clock that goes back by one unit is enough to admit one call too many to a window. */
  lemma ClockGoingBackOverflows(l: Limits)
    requires l.window > 0 && l.limit >= 2
    ensures LagsAtMost(Overflowing(l), 1)
    ensures InWindow(Admissions(l, Overflowing(l), ""), -1, l.window - 1) == l.limit + 1
  {
    hide Overflowing, Admissions, InWindow, Zeros, LagsAtMost;
    OverflowLag(l);
    OverflowAdmissions(l);
    ZerosInWindow(l.limit, -1, l.window - 1);
    WindowGrows(Zeros(l.limit), l.window, -1, l.window - 1);
    WindowGrows(Zeros(l.limit) + [l.window], l.window - 1, -1, l.window - 1);
  }

  /** Windows are bounded under a lagging clock exactly when the lag is nothing or the limit is one. */
  lemma WindowsBoundedIff(l: Limits, lag: Time)
    requires l.window > 0 && l.limit >= 1 && lag >= 0
    ensures StaysBounded(l, lag) <==> lag == 0 || l.limit == 1
  {
    hide InWindow, Admissions;
    if l.limit == 1 {
      forall calls: seq<Call>, address, end | LagsAtMost(calls, lag) ensures WindowBounded(l, calls, address, end) {
        LimitOneIsBounded(l, calls, address, end);
      }
    } else if lag == 0 {
      forall calls: seq<Call>, address, end | LagsAtMost(calls, lag) ensures WindowBounded(l, calls, address, end) {
        assert NonDecreasing(calls) by {
          assert forall i, j | 0 <= i < j < |calls| :: calls[i].at - calls[j].at <= 0;
        }
        NoWindowOverflows(l, calls, address, end);
      }
    } else {
      ClockGoingBackOverflows(l);
      hide Overflowing;
      assert LagsAtMost(Overflowing(l), lag);
      assert !WindowBounded(l, Overflowing(l), "", l.window - 1);
    }
  }

  // ----- The limiter -----

  /** A Go slice: the first length elements of a backing array. */
  datatype Slice = Slice(backing: array<Time>, length: nat)

  class Limiter {
    const limits: Limits
    var visits: map<string, Slice>

    ghost function Arrays(): set<array<Time>>
      reads this
    {
      set a | a in visits :: visits[a].backing
    }

    /** Slices fit their arrays, and no two addresses share one. */
    ghost predicate Valid()
      reads this, Arrays()
    {
      && limits.limit >= 1
      && (forall a | a in visits :: visits[a].length <= visits[a].backing.Length)
      && (forall a, b | a in visits && b in visits && a != b :: visits[a].backing != visits[b].backing)
    }

    ghost function Lists(): map<string, seq<Time>>
      reads this, Arrays()
      requires Valid()
    {
      map a | a in visits :: visits[a].backing[..visits[a].length]
    }

    constructor (limit: int, window: Time)
      ensures Valid() && limits == Normalized(limit, window) && Lists() == map[]
    {
      limits := Normalized(limit, window);
      visits := map[];
    }

    /** Keeps the elements after the cutoff at the front of the same array. */
    static method FilterInPlace(s: Slice, cutoff: Time) returns (length: nat)
      requires s.length <= s.backing.Length
      modifies s.backing
      ensures length <= s.length && s.backing[..length] == Kept(old(s.backing[..s.length]), cutoff)
    {
      var a := s.backing;
      ghost var times := a[..s.length];
      length := 0;
      for i := 0 to s.length
        invariant length <= i && a[..length] == Kept(times[..i], cutoff)
        invariant a[i..s.length] == times[i..]
      {
        var visit := a[i];
        assert visit == times[i] by {
          assert a[i..s.length][0] == times[i..][0];
        }
        assert times[..i + 1] == times[..i] + [times[i]];
        KeptGrows(times[..i], times[i], cutoff);
        ghost var tail := a[i..s.length];
        if visit > cutoff {
          a[length] := visit;
          length := length + 1;
        }
        assert a[i + 1..s.length] == tail[1..];
      }
      assert times[..s.length] == times;
    }

    /** append: in place while the array has room, otherwise into a larger copy. */
    static method Append(s: Slice, t: Time) returns (r: Slice)
      requires s.length <= s.backing.Length
      modifies s.backing
      ensures r.length == s.length + 1 <= r.backing.Length
      ensures r.backing[..r.length] == old(s.backing[..s.length]) + [t]
      ensures r.backing == s.backing || fresh(r.backing)
    {
      if s.length < s.backing.Length {
        s.backing[s.length] := t;
        return Slice(s.backing, s.length + 1);
      }
      var larger := new Time[2 * s.length + 1];
      for i := 0 to s.length
        invariant larger[..i] == s.backing[..i]
        invariant s.backing[..s.length] == old(s.backing[..s.length])
      {
        larger[i] := s.backing[i];
      }
      larger[s.length] := t;
      return Slice(larger, s.length + 1);
    }

    /** A slice on its own, while every other address still has its list in an array of its own. */
    ghost predicate Apart(lists: map<string, seq<Time>>, address: string, slice: Slice)
      reads this, Arrays(), slice.backing
    {
      && limits.limit >= 1 && slice.length <= slice.backing.Length
      && lists.Keys + {address} == visits.Keys + {address}
      && (forall a | a in visits && a != address ::
            && visits[a].length <= visits[a].backing.Length && visits[a].backing != slice.backing
            && a in lists && visits[a].backing[..visits[a].length] == lists[a])
      && (forall a, b | a in visits && b in visits && a != b :: visits[a].backing != visits[b].backing)
    }

    method Load(address: string) returns (slice: Slice)
      requires Valid()
      ensures Apart(Lists(), address, slice) && slice.backing[..slice.length] == TimesOf(Lists(), address)
      ensures slice.backing in Arrays() || fresh(slice.backing)
    {
      if address in visits {
        slice := visits[address];
      } else {
        var none := new Time[0];
        slice := Slice(none, 0);
      }
    }

    /** Filters a slice and adds the call when it is admitted. */
    method Visit(s: Slice, now: Time, ghost lists: map<string, seq<Time>>, ghost address: string) returns (ok: bool, slice: Slice)
      requires Apart(lists, address, s)
      modifies s.backing
      ensures Apart(lists, address, slice) && (slice.backing == s.backing || fresh(slice.backing))
      ensures ok <==> Admits(limits, old(s.backing[..s.length]), now)
      ensures slice.backing[..slice.length] == NextTimes(limits, old(s.backing[..s.length]), now)
    {
      hide Kept;
      ghost var times := s.backing[..s.length];
      var cutoff := now - limits.window;
      var length := FilterInPlace(s, cutoff);
      slice := Slice(s.backing, length);
      ok := length < limits.limit;
      if ok {
        slice := Append(slice, now);
      } else {
        assert Kept(times, cutoff) + [] == Kept(times, cutoff);
      }
    }

    /** Stores the slice of one address; the others stay as they were. */
    method Put(address: string, slice: Slice, ghost lists: map<string, seq<Time>>)
      requires Apart(lists, address, slice)
      modifies this`visits
      ensures Valid() && Lists() == lists[address := slice.backing[..slice.length]]
      ensures Arrays() <= old(Arrays()) + {slice.backing}
    {
      ghost var before := visits;
      visits := visits[address := slice];
      assert Valid() by {
        forall a, b | a in visits && b in visits && a != b ensures visits[a].backing != visits[b].backing {
          if a != address && b != address {
            assert visits[a] == before[a] && visits[b] == before[b];
          }
        }
      }
      ghost var after := lists[address := slice.backing[..slice.length]];
      assert Lists().Keys == after.Keys;
      forall a | a in after ensures Lists()[a] == after[a] {
        if a != address {
          assert visits[a] == before[a];
        }
      }
    }

    /** Records one request of an address and says whether it is within the limit. */
    method Allow(address: string, now: Time) returns (ok: bool)
      requires Valid()
      modifies this, Arrays()
      ensures Valid() && fresh(Arrays() - old(Arrays()))
      ensures ok <==> Admits(limits, TimesOf(old(Lists()), address), now)
      ensures Lists() == NextLists(limits, old(Lists()), address, now)
    {
      hide NextTimes, Admits, Apart, Kept;
      ghost var lists := Lists();
      var slice := Load(address);
      ok, slice := Visit(slice, now, lists, address);
      Put(address, slice, lists);
    }
  }
}
