/** The database handle the repositories share, and the queries that search a table. */
module LedgerDatabase {
  import opened Wrappers
  import opened LedgerTables
  import opened LedgerInvariant

  /** A transaction works on a copy of the tables and stores it back when it commits. */
  class Database {
    var tables: Tables

    constructor (tables: Tables)
      ensures this.tables == tables
    {
      this.tables := tables;
    }
  }

  /** What a transaction leaves: the specified tables when it commits, the old ones when it is refused. */
  ghost predicate Ends<T>(before: Tables, specified: Result<Tables, Error>, after: Tables, r: Result<T, Error>) {
    match specified
    case Success(t) => after == t && r.Success?
    case Failure(e) => after == before && r == Failure(e)
  }

  /** coalesce(max(column), 0) over the numbers of a column. */
  method QueryMax(numbers: set<nat>) returns (m: nat)
    ensures m == CoalesceMax(numbers)
  {
    m := 0;
    var rest := numbers;
    while rest != {}
      invariant rest <= numbers
      invariant forall n | n in numbers - rest :: n <= m
      invariant m in numbers - rest || (m == 0 && numbers == rest)
      decreases |rest|
    {
      var n :| n in rest;
      if m <= n {
        m := n;
      }
      assert forall k | k in numbers - (rest - {n}) :: k == n || k in numbers - rest;
      rest := rest - {n};
    }
    ghost var c := CoalesceMax(numbers);
    assert numbers - rest == numbers;
    assert numbers != {} ==> c in numbers && m in numbers;
  }

  /** The last locked shift of a station before a sequence number. */
  method QueryPredecessor(shifts: map<Id, Shift>, station: Station, before: nat, withReport: bool) returns (p: Option<Id>)
    requires ShiftsOk(shifts)
    ensures p == Predecessor(shifts, station, before, withReport)
  {
    p := None;
    var rest := shifts.Keys;
    while rest != {}
      invariant rest <= shifts.Keys
      invariant p.Some? ==> p.value in shifts && IsEarlierLocked(shifts[p.value], station, before, withReport)
      invariant forall s | s in shifts.Keys - rest && IsEarlierLocked(shifts[s], station, before, withReport) ::
                  p.Some? && shifts[s].sequence <= shifts[p.value].sequence
      decreases |rest|
    {
      var s :| s in rest;
      if IsEarlierLocked(shifts[s], station, before, withReport)
         && (p.None? || shifts[p.value].sequence < shifts[s].sequence) {
        p := Some(s);
      }
      rest := rest - {s};
    }
    if p.Some? {
      assert IsPredecessor(shifts, station, before, withReport, p.value);
      var q := Predecessor(shifts, station, before, withReport).value;
      assert shifts[q].sequence == shifts[p.value].sequence;
    }
  }
}
