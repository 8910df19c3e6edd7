/** The order of texts by code point, which is also their order by UTF-8 bytes, and sorting by it. */
module TextOrder {

  predicate Before(a: string, b: string) {
    if b == "" then false
    else if a == "" then true
    else if a[0] != b[0] then a[0] < b[0]
    else Before(a[1..], b[1..])
  }

  lemma {:induction false} BeforeIsTotal(a: string, b: string)
    ensures Before(a, b) || Before(b, a) || a == b
    ensures !(Before(a, b) && Before(b, a))
    ensures !Before(a, a)
  {
    if a != "" && b != "" {
      BeforeIsTotal(a[1..], b[1..]);
      if a[0] == b[0] && a[1..] == b[1..] {
        assert a == [a[0]] + a[1..] && b == [b[0]] + b[1..];
      }
    }
    if a != "" {
      BeforeIsTotal(a[1..], a[1..]);
    }
  }

  /** One text comes before another when it is a proper beginning of it, or has the smaller character where they first differ. */
  lemma {:induction false} BeforeIff(a: string, b: string)
    ensures Before(a, b) <==>
            exists i :: 0 <= i <= |a| && i < |b| && a[..i] == b[..i] && (i == |a| || a[i] < b[i])
  {
    if a == "" || b == "" || a[0] != b[0] {
      if a == "" && b != "" {
        assert a[..0] == b[..0];
      }
      if a != "" && b != "" && a[0] != b[0] {
        assert a[..0] == b[..0];
        assert forall i | 0 < i <= |a| && i < |b| :: a[..i][0] == a[0] && b[..i][0] == b[0];
      }
    } else {
      BeforeIff(a[1..], b[1..]);
      if i :| 0 <= i <= |a[1..]| && i < |b[1..]| && a[1..][..i] == b[1..][..i] && (i == |a[1..]| || a[1..][i] < b[1..][i]) {
        assert a[..i + 1] == [a[0]] + a[1..][..i] && b[..i + 1] == [b[0]] + b[1..][..i];
      }
      if i :| 0 <= i <= |a| && i < |b| && a[..i] == b[..i] && (i == |a| || a[i] < b[i]) {
        assert i > 0;
        assert a[1..][..i - 1] == a[..i][1..] && b[1..][..i - 1] == b[..i][1..];
      }
    }
  }

  lemma {:induction false} BeforeIsTransitive(a: string, b: string, c: string)
    requires Before(a, b) && Before(b, c)
    ensures Before(a, c)
  {
    if a != "" && a[0] == b[0] && b[0] == c[0] {
      BeforeIsTransitive(a[1..], b[1..], c[1..]);
    }
  }

  /** Strictly increasing, hence without repetition. */
  ghost predicate Increasing(s: seq<string>) {
    forall i, j | 0 <= i < j < |s| :: Before(s[i], s[j])
  }

  /** The increasing list of a set of keys. */
  ghost predicate Lists(s: seq<string>, keys: set<string>) {
    Increasing(s) && (forall k :: k in keys <==> k in s)
  }

  lemma TailLists(s: seq<string>, keys: set<string>)
    requires s != [] && Lists(s, keys)
    ensures Lists(s[1..], keys - {s[0]})
  {
    var tail := s[1..];
    forall k ensures k in keys - {s[0]} <==> k in tail {
      BeforeIsTotal(s[0], s[0]);
      if k in tail {
        var i :| 0 <= i < |tail| && tail[i] == k;
        assert s[i + 1] == k;
      }
      if k in keys - {s[0]} {
        var i :| 0 <= i < |s| && s[i] == k;
        assert tail[i - 1] == k;
      }
    }
  }

  /** A set has one increasing list. */
  lemma {:induction false} OneIncreasingList(s: seq<string>, u: seq<string>, keys: set<string>)
    requires Lists(s, keys) && Lists(u, keys)
    ensures s == u
  {
    if u != [] {
      assert u[0] in keys;
    }
    if s != [] {
      assert s[0] in s && s[0] in u;
      assert u[0] in u && u[0] in s;
      var i :| 0 <= i < |u| && u[i] == s[0];
      var j :| 0 <= j < |s| && s[j] == u[0];
      BeforeIsTotal(s[0], u[0]);
      assert s[0] == u[0];
      TailLists(s, keys);
      TailLists(u, keys);
      OneIncreasingList(s[1..], u[1..], keys - {s[0]});
      assert s == [s[0]] + s[1..] && u == [u[0]] + u[1..];
    }
  }

  /** Inserts a new key at its place. */
  function Insert(k: string, s: seq<string>): seq<string> {
    if s == [] then [k]
    else if Before(k, s[0]) then [k] + s
    else [s[0]] + Insert(k, s[1..])
  }

  lemma {:induction false} InsertMembers(k: string, s: seq<string>)
    ensures forall x :: x in Insert(k, s) <==> x == k || x in s
  {
    if s != [] && !Before(k, s[0]) {
      InsertMembers(k, s[1..]);
      assert s == [s[0]] + s[1..];
    }
  }

  lemma {:induction false} InsertIncreases(k: string, s: seq<string>)
    requires Increasing(s) && k !in s
    ensures Increasing(Insert(k, s))
  {
    if s == [] {
    } else if Before(k, s[0]) {
      forall i | 0 <= i < |s| ensures Before(k, s[i]) {
        if i > 0 {
          BeforeIsTransitive(k, s[0], s[i]);
        }
      }
    } else {
      var tail := s[1..];
      assert s == [s[0]] + tail;
      BeforeIsTotal(k, s[0]);
      InsertIncreases(k, tail);
      InsertMembers(k, tail);
      var more := Insert(k, tail);
      forall i | 0 <= i < |more| ensures Before(s[0], more[i]) {
        assert more[i] in more;
        if more[i] != k {
          var j :| 0 <= j < |tail| && tail[j] == more[i];
          assert s[j + 1] == more[i];
        }
      }
    }
  }

  /** The increasing list of a finite set. */
  ghost function Sorted(keys: set<string>): (s: seq<string>)
    ensures Lists(s, keys)
  {
    if keys == {} then []
    else
      var k :| k in keys;
      var rest := Sorted(keys - {k});
      InsertMembers(k, rest);
      InsertIncreases(k, rest);
      assert forall x :: x in keys <==> x == k || x in keys - {k};
      Insert(k, rest)
  }

  /** Sorts keys that arrive in any order without repetition. */
  method SortStrings(names: seq<string>, keys: set<string>) returns (s: seq<string>)
    requires (forall i, j | 0 <= i < j < |names| :: names[i] != names[j]) && (forall k :: k in keys <==> k in names)
    ensures s == Sorted(keys)
  {
    s := [];
    for i := 0 to |names|
      invariant Increasing(s) && (forall k :: k in s <==> k in names[..i])
    {
      InsertMembers(names[i], s);
      InsertIncreases(names[i], s);
      assert names[..i + 1] == names[..i] + [names[i]];
      s := Insert(names[i], s);
    }
    assert names[..|names|] == names;
    OneIncreasingList(s, Sorted(keys), keys);
  }
}
