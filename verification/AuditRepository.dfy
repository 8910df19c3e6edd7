/** The audit repository: appending one event, and checking a whole chain. */
module AuditRepository {
  import opened Wrappers
  import opened TextTrim
  import opened Canonical
  import opened CanonicalBuffer
  import opened AuditText
  import opened AuditChain

  // ----- Rows in the order of their sequence numbers -----

  function InsertRow(row: LogRow, rows: seq<LogRow>): seq<LogRow> {
    if rows == [] then [row]
    else
      var last := rows[|rows| - 1];
      if last.sequence <= row.sequence then rows + [row] else InsertRow(row, rows[..|rows| - 1]) + [last]
  }

  function BySequence(rows: seq<LogRow>): seq<LogRow> {
    if rows == [] then [] else InsertRow(rows[|rows| - 1], BySequence(rows[..|rows| - 1]))
  }

  /** Ordering loses no row and makes none up. */
  lemma {:induction false} InsertKeepsRows(row: LogRow, rows: seq<LogRow>)
    ensures multiset(InsertRow(row, rows)) == multiset(rows) + multiset{row}
  {
    if rows != [] {
      var n := |rows| - 1;
      assert rows == rows[..n] + [rows[n]];
      InsertKeepsRows(row, rows[..n]);
    }
  }

  lemma {:induction false} OrderKeepsRows(rows: seq<LogRow>)
    ensures multiset(BySequence(rows)) == multiset(rows)
  {
    if rows != [] {
      var n := |rows| - 1;
      assert rows == rows[..n] + [rows[n]];
      OrderKeepsRows(rows[..n]);
      InsertKeepsRows(rows[n], BySequence(rows[..n]));
    }
  }

  /** A chain built by appending is already in order. */
  lemma {:induction false} ChainIsOrdered(rows: seq<LogRow>, env: Env)
    requires ChainValid(rows, env)
    ensures BySequence(rows) == rows
  {
    hide RowHash;
    if rows != [] {
      var n := |rows| - 1;
      PrefixIsAccepted(rows, n, env);
      ChainIsOrdered(rows[..n], env);
      assert RowValid(rows, n, env);
      if n > 0 {
        assert RowValid(rows, n - 1, env);
        assert rows[..n][n - 1] == rows[n - 1];
      }
      assert rows == rows[..n] + [rows[n]];
    }
  }

  // ----- The repository -----

  class AuditRepository {
    var tables: AuditTables
    const env: Env

    constructor (env: Env)
      ensures this.env == env && AuditOk(tables, env)
    {
      this.env := env;
      this.tables := AuditTables({}, [], map[], map[]);
      EmptyLogVerifies(env);
    }

    method HashRow(row: LogRow) returns (digest: Bytes)
      ensures digest == RowHash(row, env)
    {
      hide Marshal, Preimage;
      var text := MarshalValue(Preimage(row, env), env.accepts);
      if text.None? {
        return [];
      }
      return env.hash(text.value);
    }

    /** The row of an organization with the greatest sequence number. */
    method LoadTail(org: Uuid) returns (tail: Option<LogRow>)
      ensures tail == Tail(RowsOf(tables.log, org))
    {
      tail := None;
      var log := tables.log;
      for i := 0 to |log|
        invariant tail == Tail(RowsOf(log[..i], org))
      {
        assert log[..i + 1][..i] == log[..i];
        if log[i].org == org {
          assert (RowsOf(log[..i], org) + [log[i]])[..|RowsOf(log[..i], org)|] == RowsOf(log[..i], org);
          if tail.None? || tail.value.sequence <= log[i].sequence {
            tail := Some(log[i]);
          }
        } else {
          assert RowsOf(log[..i], org) + [] == RowsOf(log[..i], org);
        }
      }
      assert log[..|log|] == log;
    }

    /** Adds one event to its organization's chain, to the outbox and to the relay. */
    method AppendInTransaction(q: AppendRequest, now: Time) returns (r: Result<nat, AuditError>)
      modifies this
      ensures match Appended(old(tables), q, now, env)
              case Success(after) => r.Success? && tables == after && r.value == after.log[|after.log| - 1].sequence
              case Failure(e) => r == Failure(e) && tables == old(tables)
      ensures AuditOk(old(tables), env) ==> AuditOk(tables, env)
    {
      hide TrimSpace, RowHash, Tail, RowsOf, AuditOk;
      if q.org == NIL_UUID || q.event == NIL_UUID || TrimSpace(q.eventType) == "" || q.payload.None? || TrimSpace(q.outcome) == "" {
        return Failure(InvalidRequest);
      }
      var tail := LoadTail(q.org);
      var sequence := 1;
      var prevHash: Bytes := [];
      if tail.Some? {
        sequence := tail.value.sequence + 1;
        prevHash := tail.value.rowHash;
      }
      if |prevHash| == 0 {
        prevHash := NO_HASH;
      }
      var row := LogRow(q.org, sequence, q.event, q.eventType, q.payload.value, q.outcome, None, now, prevHash, []);
      if TrimSpace(q.outcomeError) != "" {
        row := row.(outcomeError := Some(q.outcomeError));
      }
      var rowHash := HashRow(row);
      if |rowHash| != 32 {
        return Failure(InvalidRequest);
      }
      row := row.(rowHash := rowHash);
      var key := EventKey(q.org, q.event);
      if HasEvent(tables.log, q.event) || key in tables.outbox || key in tables.relay {
        return Failure(ConstraintViolation);
      }
      var tx := tables.(locks := tables.locks + {q.org});
      tx := tx.(log := tx.log + [row]);
      tx := tx.(outbox := tx.outbox[key := OutboxRow(q.eventType, q.payload.value, now)]);
      tx := tx.(relay := tx.relay[key := RelayRow(Pending, 0, Some(now))]);
      if AuditOk(tables, env) {
        AppendKeeps(tables, q, now, env);
      }
      tables := tx;
      return Success(sequence);
    }

    /** Checks the sequence numbers, the links and the hashes of one organization's rows. */
    method Verify(org: Uuid) returns (r: Result<(), AuditError>)
      ensures r == if ChainValid(BySequence(RowsOf(tables.log, org)), env) then Success(()) else Failure(ChainTampered)
    {
      hide RowHash;
      var rows := BySequence(RowsOf(tables.log, org));
      var prev := NO_HASH;
      for i := 0 to |rows|
        invariant prev == LinkAt(rows, i)
        invariant forall j | 0 <= j < i :: RowValid(rows, j, env)
      {
        var row := rows[i];
        if row.sequence != i + 1 || row.prevHash != prev {
          assert !RowValid(rows, i, env);
          return Failure(ChainTampered);
        }
        var expected := HashRow(row);
        if row.rowHash != expected {
          assert !RowValid(rows, i, env);
          return Failure(ChainTampered);
        }
        prev := row.rowHash;
      }
      return Success(());
    }
  }

  /** Verification accepts every log that calls to append built. */
  lemma BuiltLogIsAccepted(calls: seq<Call>, org: Uuid, env: Env)
    ensures ChainValid(BySequence(RowsOf(After(AuditTables({}, [], map[], map[]), calls, env).log, org)), env)
  {
    hide RowsOf, BySequence, ChainValid, After;
    EmptyLogVerifies(env);
    EveryRunVerifies(AuditTables({}, [], map[], map[]), calls, env);
    ChainIsOrdered(RowsOf(After(AuditTables({}, [], map[], map[]), calls, env).log, org), env);
  }
}
