/**
 The hash chain of an organization's audit log (internal/repository/audit):
 what appending does to the tables, what verification accepts, and what an
 accepted log can no longer hide.
 */
module AuditChain {
  import opened Wrappers
  import opened DecimalText
  import opened TextTrim
  import opened Canonical
  import opened AuditText

  type Time = int

  /** The parts a row hash depends on that are not modelled: number syntax, SHA-256, and the layout of a time. */
  datatype Env = Env(accepts: FloatSyntax, hash: string -> Bytes, timeText: Time -> string)

  /** A stored row; its payload is the JSON value it decodes to. */
  datatype LogRow = LogRow(
    org: Uuid,
    sequence: nat,
    eventId: Uuid,
    eventType: string,
    payload: Value,
    outcome: string,
    outcomeError: Option<string>,
    createdAt: Time,
    prevHash: Bytes,
    rowHash: Bytes)

  datatype EventKey = EventKey(org: Uuid, event: Uuid)

  datatype OutboxRow = OutboxRow(eventType: string, payload: Value, createdAt: Time)

  datatype RelayStatus = Pending | Claimed | Retry | Delivered

  datatype RelayRow = RelayRow(status: RelayStatus, attempts: nat, nextAttempt: Option<Time>)

  /** The log in insertion order, with the tables that are written beside it. */
  datatype AuditTables = AuditTables(
    locks: set<Uuid>,
    log: seq<LogRow>,
    outbox: map<EventKey, OutboxRow>,
    relay: map<EventKey, RelayRow>)

  datatype AuditError = InvalidRequest | ConstraintViolation | ChainTampered

  /** The payload is absent when it is empty or not valid JSON. */
  datatype AppendRequest = AppendRequest(
    org: Uuid,
    event: Uuid,
    eventType: string,
    payload: Option<Value>,
    outcome: string,
    outcomeError: string)

  const NIL_UUID: Uuid := [0, 0, 0, 0, 0, 0, 0, 0, 0, 0, 0, 0, 0, 0, 0, 0]
  const NO_HASH: Bytes := NIL_UUID + NIL_UUID

  // ----- The row hash -----

  /** What a row hash is taken over. */
  function Preimage(row: LogRow, env: Env): Value {
    Arr([Int(1), Str(UuidText(row.org)), Int(row.sequence), Str(UuidText(row.eventId)), Str(row.eventType), row.payload,
         Str(env.timeText(row.createdAt)), Str(HexText(row.prevHash))])
  }

  /** The digest of the canonical text; nothing when the payload has none. */
  ghost function RowHash(row: LogRow, env: Env): Bytes {
    match Marshal(Preimage(row, env), env.accepts)
    case None => []
    case Some(text) => env.hash(text)
  }

  // ----- The chain -----

  function RowsOf(log: seq<LogRow>, org: Uuid): seq<LogRow> {
    if log == [] then []
    else
      var last := log[|log| - 1];
      RowsOf(log[..|log| - 1], org) + if last.org == org then [last] else []
  }

  /** The row with the greatest sequence number. */
  function Tail(rows: seq<LogRow>): Option<LogRow> {
    if rows == [] then None
    else
      var last := rows[|rows| - 1];
      var earlier := Tail(rows[..|rows| - 1]);
      if earlier.Some? && earlier.value.sequence > last.sequence then earlier else Some(last)
  }

  /** The hash a row must link back to. */
  function LinkAt(rows: seq<LogRow>, i: nat): Bytes
    requires i <= |rows|
  {
    if i == 0 then NO_HASH else rows[i - 1].rowHash
  }

  ghost predicate RowValid(rows: seq<LogRow>, i: nat, env: Env)
    requires i < |rows|
  {
    rows[i].sequence == i + 1 && rows[i].prevHash == LinkAt(rows, i) && rows[i].rowHash == RowHash(rows[i], env)
  }

  /** What verification accepts, given the rows in the order of their sequence numbers. */
  ghost predicate ChainValid(rows: seq<LogRow>, env: Env) {
    forall i | 0 <= i < |rows| :: RowValid(rows, i, env)
  }

  /** The check constraints of the table. */
  predicate RowStored(row: LogRow) {
    |row.prevHash| == 32 && |row.rowHash| == 32
  }

  // ----- Appending -----

  predicate RequestValid(q: AppendRequest) {
    && q.org != NIL_UUID && q.event != NIL_UUID
    && TrimSpace(q.eventType) != "" && q.payload.Some? && TrimSpace(q.outcome) != ""
  }

  predicate HasEvent(log: seq<LogRow>, event: Uuid) {
    exists i :: 0 <= i < |log| && log[i].eventId == event
  }

  function NextSequence(tail: Option<LogRow>): nat {
    if tail.Some? then tail.value.sequence + 1 else 1
  }

  function NextLink(tail: Option<LogRow>): Bytes {
    if tail.Some? && tail.value.rowHash != [] then tail.value.rowHash else NO_HASH
  }

  /** The row a request adds after the tail of its organization's chain. */
  ghost function NewRow(tail: Option<LogRow>, q: AppendRequest, now: Time, env: Env): LogRow
    requires q.payload.Some?
  {
    var unhashed := LogRow(q.org, NextSequence(tail), q.event, q.eventType, q.payload.value, q.outcome,
                           if TrimSpace(q.outcomeError) != "" then Some(q.outcomeError) else None, now, NextLink(tail), []);
    unhashed.(rowHash := RowHash(unhashed, env))
  }

  ghost function Appended(t: AuditTables, q: AppendRequest, now: Time, env: Env): Result<AuditTables, AuditError> {
    if !RequestValid(q) then Failure(InvalidRequest)
    else
      var row := NewRow(Tail(RowsOf(t.log, q.org)), q, now, env);
      var key := EventKey(q.org, q.event);
      if |row.rowHash| != 32 then Failure(InvalidRequest)
      else if HasEvent(t.log, q.event) || key in t.outbox || key in t.relay then Failure(ConstraintViolation)
      else
        Success(AuditTables(t.locks + {q.org}, t.log + [row],
                            t.outbox[key := OutboxRow(q.eventType, q.payload.value, now)],
                            t.relay[key := RelayRow(Pending, 0, Some(now))]))
  }

  /** A sequence of calls; a refused call leaves the tables as they were. */
  datatype Call = Call(request: AppendRequest, now: Time)

  ghost function After(t: AuditTables, calls: seq<Call>, env: Env): AuditTables {
    if calls == [] then t
    else
      var before := After(t, calls[..|calls| - 1], env);
      var last := calls[|calls| - 1];
      match Appended(before, last.request, last.now, env)
      case Success(after) => after
      case Failure(_) => before
  }

  // ----- Every built log verifies -----

  /** No event is logged twice. */
  ghost predicate EventsDistinct(log: seq<LogRow>) {
    forall i, j | 0 <= i < j < |log| :: log[i].eventId != log[j].eventId
  }

  /** The outbox holds exactly the logged events. */
  ghost predicate SameEvents(log: seq<LogRow>, outbox: map<EventKey, OutboxRow>) {
    && (forall i | 0 <= i < |log| :: EventKey(log[i].org, log[i].eventId) in outbox)
    && (forall key | key in outbox :: exists i :: 0 <= i < |log| && EventKey(log[i].org, log[i].eventId) == key)
  }

  /** Every organization's chain is valid, and log, outbox and relay state hold the same events, each once. */
  ghost predicate AuditOk(t: AuditTables, env: Env) {
    && (forall org :: ChainValid(RowsOf(t.log, org), env))
    && EventsDistinct(t.log)
    && (forall i | 0 <= i < |t.log| :: RowStored(t.log[i]))
    && SameEvents(t.log, t.outbox)
    && t.relay.Keys == t.outbox.Keys
  }

  lemma ChainGrows(rows: seq<LogRow>, row: LogRow, env: Env)
    requires ChainValid(rows, env) && row.sequence == |rows| + 1 && row.prevHash == LinkAt(rows, |rows|)
    requires row.rowHash == RowHash(row, env)
    ensures ChainValid(rows + [row], env)
  {
    hide RowHash;
    var more := rows + [row];
    forall i | 0 <= i < |more| ensures RowValid(more, i, env) {
      if i < |rows| {
        assert RowValid(rows, i, env);
        assert more[i] == rows[i];
        assert LinkAt(more, i) == LinkAt(rows, i);
      } else {
        assert LinkAt(more, i) == LinkAt(rows, |rows|);
      }
    }
  }

  lemma RowsGrow(log: seq<LogRow>, row: LogRow, org: Uuid)
    ensures RowsOf(log + [row], org) == RowsOf(log, org) + if row.org == org then [row] else []
  {
    assert (log + [row])[..|log|] == log;
  }

  lemma NewRowIsHashed(tail: Option<LogRow>, q: AppendRequest, now: Time, env: Env)
    requires q.payload.Some?
    ensures var row := NewRow(tail, q, now, env);
            row.org == q.org && row.sequence == NextSequence(tail) && row.eventId == q.event
            && row.prevHash == NextLink(tail) && row.rowHash == RowHash(row, env)
  {
    hide Marshal, HexText, UuidText;
    var row := NewRow(tail, q, now, env);
    assert Preimage(row, env) == Preimage(row.(rowHash := []), env);
  }

  /** Dropping rows from the end leaves an accepted log: verification does not see it. */
  lemma PrefixIsAccepted(rows: seq<LogRow>, n: nat, env: Env)
    requires ChainValid(rows, env) && n <= |rows|
    ensures ChainValid(rows[..n], env)
  {
    hide RowHash;
    forall i | 0 <= i < n ensures RowValid(rows[..n], i, env) {
      assert RowValid(rows, i, env);
    }
  }

  /** The tail of a valid chain is its last row. */
  lemma {:induction false} TailOfChain(rows: seq<LogRow>, env: Env)
    requires ChainValid(rows, env) && forall i | 0 <= i < |rows| :: RowStored(rows[i])
    ensures NextSequence(Tail(rows)) == |rows| + 1 && NextLink(Tail(rows)) == LinkAt(rows, |rows|)
    ensures |NextLink(Tail(rows))| == 32
  {
    hide RowHash;
    if rows != [] {
      var n := |rows| - 1;
      assert RowValid(rows, n, env);
      PrefixIsAccepted(rows, n, env);
      TailOfChain(rows[..n], env);
    }
  }

  lemma {:induction false} RowsAreStored(log: seq<LogRow>, org: Uuid)
    requires forall i | 0 <= i < |log| :: RowStored(log[i])
    ensures forall i | 0 <= i < |RowsOf(log, org)| :: RowStored(RowsOf(log, org)[i]) && RowsOf(log, org)[i].org == org
  {
    if log != [] {
      RowsAreStored(log[..|log| - 1], org);
    }
  }

  /** The new row extends its organization's chain and no other. */
  lemma AppendKeepsChain(t: AuditTables, q: AppendRequest, now: Time, env: Env, org: Uuid)
    requires AuditOk(t, env) && q.payload.Some?
    ensures var row := NewRow(Tail(RowsOf(t.log, q.org)), q, now, env);
            && ChainValid(RowsOf(t.log + [row], org), env)
            && row.org == q.org && row.eventId == q.event && |row.prevHash| == 32
  {
    hide RowHash, RowsOf, NewRow, ChainValid, TrimSpace, LinkAt, Tail, NextLink, NextSequence, RowStored;
    var rows := RowsOf(t.log, q.org);
    var row := NewRow(Tail(rows), q, now, env);
    NewRowIsHashed(Tail(rows), q, now, env);
    RowsAreStored(t.log, q.org);
    TailOfChain(rows, env);
    RowsGrow(t.log, row, org);
    if org == q.org {
      ChainGrows(rows, row, env);
    } else {
      assert RowsOf(t.log, org) + [] == RowsOf(t.log, org);
    }
  }

  lemma EventsGrow(log: seq<LogRow>, row: LogRow, outbox: map<EventKey, OutboxRow>, entry: OutboxRow)
    requires EventsDistinct(log) && SameEvents(log, outbox) && !HasEvent(log, row.eventId)
    ensures EventsDistinct(log + [row]) && SameEvents(log + [row], outbox[EventKey(row.org, row.eventId) := entry])
  {
    var more, after := log + [row], outbox[EventKey(row.org, row.eventId) := entry];
    forall key | key in after ensures exists i :: 0 <= i < |more| && EventKey(more[i].org, more[i].eventId) == key {
      if key in outbox {
        var i :| 0 <= i < |log| && EventKey(log[i].org, log[i].eventId) == key;
        assert more[i] == log[i];
      } else {
        assert more[|log|] == row;
      }
    }
  }

  lemma AppendKeeps(t: AuditTables, q: AppendRequest, now: Time, env: Env)
    requires AuditOk(t, env) && Appended(t, q, now, env).Success?
    ensures AuditOk(Appended(t, q, now, env).value, env)
  {
    hide RowHash, RowsOf, NewRow, ChainValid, TrimSpace, Tail, EventsDistinct, SameEvents, HasEvent;
    var after := Appended(t, q, now, env).value;
    var row := NewRow(Tail(RowsOf(t.log, q.org)), q, now, env);
    forall org ensures ChainValid(RowsOf(after.log, org), env) {
      AppendKeepsChain(t, q, now, env, org);
    }
    AppendKeepsChain(t, q, now, env, q.org);
    EventsGrow(t.log, row, t.outbox, OutboxRow(q.eventType, q.payload.value, now));
  }

  /** Whatever calls are made, every organization's log verifies, and the three tables hold the same events. */
  lemma {:induction false} EveryRunVerifies(t: AuditTables, calls: seq<Call>, env: Env)
    requires AuditOk(t, env)
    ensures AuditOk(After(t, calls, env), env)
  {
    hide AuditOk, Appended;
    if calls != [] {
      var last := calls[|calls| - 1];
      EveryRunVerifies(t, calls[..|calls| - 1], env);
      var before := After(t, calls[..|calls| - 1], env);
      if Appended(before, last.request, last.now, env).Success? {
        AppendKeeps(before, last.request, last.now, env);
      }
    }
  }

  lemma EmptyLogVerifies(env: Env)
    ensures AuditOk(AuditTables({}, [], map[], map[]), env)
  {
    forall org ensures RowsOf([], org) == [] {
    }
  }

  // ----- What an accepted log can no longer hide -----

  /** Rows that agree on every field the hash covers. */
  predicate SameHashedFields(a: LogRow, b: LogRow) {
    && a.org == b.org && a.sequence == b.sequence && a.eventId == b.eventId && a.eventType == b.eventType
    && Norm(a.payload) == Norm(b.payload) && a.createdAt == b.createdAt && a.prevHash == b.prevHash && a.rowHash == b.rowHash
  }

  /** The hash separates the texts of two rows. */
  ghost predicate Separates(a: LogRow, b: LogRow, env: Env) {
    RowHash(a, env) == RowHash(b, env) ==>
      Marshal(Preimage(a, env), env.accepts) == Marshal(Preimage(b, env), env.accepts)
  }

  /** No two different texts among those of two logs have the same hash. */
  ghost predicate NoCollision(a: seq<LogRow>, b: seq<LogRow>, env: Env) {
    forall i, j | 0 <= i < |a| && 0 <= j < |b| :: Separates(a[i], b[j], env)
  }

  ghost predicate TimesDiffer(env: Env) {
    forall s, t :: env.timeText(s) == env.timeText(t) ==> s == t
  }

  lemma {:induction false} IntTextIsInjective(m: nat, n: nat)
    requires IntText(m) == IntText(n)
    ensures m == n
  {
    NatTextValue(m);
    NatTextValue(n);
  }

  lemma HashedTextExists(row: LogRow, env: Env)
    requires RowStored(row) && row.rowHash == RowHash(row, env)
    ensures Marshal(Preimage(row, env), env.accepts).Some?
  {
    hide Preimage, Marshal;
  }

  lemma PreimagesAgree(a: LogRow, b: LogRow, env: Env)
    requires TimesDiffer(env) && Norm(Preimage(a, env)) == Norm(Preimage(b, env)) && a.rowHash == b.rowHash
    ensures SameHashedFields(a, b)
  {
    hide HexText, UuidText, IntText;
    var p, q := Preimage(a, env), Preimage(b, env);
    forall i | 0 <= i < 8 ensures Norm(p.items[i]) == Norm(q.items[i]) {
      assert Norm(p).items[i] == Norm(q).items[i];
    }
    assert p.items[1] == Str(UuidText(a.org)) && p.items[3] == Str(UuidText(a.eventId)) && p.items[4] == Str(a.eventType);
    assert p.items[2] == Int(a.sequence) && p.items[5] == a.payload;
    assert p.items[6] == Str(env.timeText(a.createdAt)) && p.items[7] == Str(HexText(a.prevHash));
    assert q.items[1] == Str(UuidText(b.org)) && q.items[3] == Str(UuidText(b.eventId)) && q.items[4] == Str(b.eventType);
    assert q.items[2] == Int(b.sequence) && q.items[5] == b.payload;
    assert q.items[6] == Str(env.timeText(b.createdAt)) && q.items[7] == Str(HexText(b.prevHash));
    IntTextIsInjective(a.sequence, b.sequence);
    assert UuidText(a.org) == UuidText(b.org) && UuidText(a.eventId) == UuidText(b.eventId);
    UuidTextIsInjective(a.org, b.org);
    UuidTextIsInjective(a.eventId, b.eventId);
    assert HexText(a.prevHash) == HexText(b.prevHash);
    HexTextIsInjective(a.prevHash, b.prevHash);
  }

  /** Two accepted rows with one hash agree on every hashed field. */
  lemma RowsAgree(a: LogRow, b: LogRow, env: Env)
    requires AcceptsNumbersOnly(env.accepts) && TimesDiffer(env)
    requires RowStored(a) && RowStored(b) && a.rowHash == RowHash(a, env) && b.rowHash == RowHash(b, env)
    requires Separates(a, b, env) && a.rowHash == b.rowHash
    ensures SameHashedFields(a, b)
  {
    hide AcceptsNumbersOnly, TimesDiffer, SameHashedFields, RowHash, Marshal, Preimage, Norm;
    HashedTextExists(a, env);
    HashedTextExists(b, env);
    MarshalIsInjective(Preimage(a, env), Preimage(b, env), env.accepts);
    PreimagesAgree(a, b, env);
  }

  /**
   Tamper evidence: two accepted logs that end in the same hash have the same
   length and agree, row by row, on everything the hash covers.
   */
  lemma {:induction false} LastHashFixesTheLog(a: seq<LogRow>, b: seq<LogRow>, env: Env)
    requires AcceptsNumbersOnly(env.accepts) && TimesDiffer(env) && NoCollision(a, b, env)
    requires ChainValid(a, env) && ChainValid(b, env) && a != [] && b != []
    requires (forall i | 0 <= i < |a| :: RowStored(a[i])) && (forall i | 0 <= i < |b| :: RowStored(b[i]))
    requires a[|a| - 1].rowHash == b[|b| - 1].rowHash
    ensures |a| == |b| && forall i | 0 <= i < |a| :: SameHashedFields(a[i], b[i])
    decreases |a|
  {
    hide AcceptsNumbersOnly, TimesDiffer, Separates, RowHash;
    var m, n := |a| - 1, |b| - 1;
    assert RowValid(a, m, env) && RowValid(b, n, env);
    assert Separates(a[m], b[n], env);
    RowsAgree(a[m], b[n], env);
    if m > 0 {
      PrefixIsAccepted(a, m, env);
      PrefixIsAccepted(b, n, env);
      LastHashFixesTheLog(a[..m], b[..n], env);
      forall i | 0 <= i < m ensures SameHashedFields(a[i], b[i]) {
        assert a[i] == a[..m][i] && b[i] == b[..n][i];
      }
    }
  }

  /** A changed outcome is not seen either: exactly the hashed fields matter to acceptance. */
  lemma OutcomeIsNotHashed(rows: seq<LogRow>, i: nat, outcome: string, detail: Option<string>, env: Env)
    requires i < |rows|
    ensures ChainValid(rows, env) <==> ChainValid(rows[i := rows[i].(outcome := outcome, outcomeError := detail)], env)
  {
    hide Marshal, HexText, UuidText;
    var changed := rows[i := rows[i].(outcome := outcome, outcomeError := detail)];
    forall j | 0 <= j < |rows| ensures RowValid(rows, j, env) <==> RowValid(changed, j, env) {
      assert Preimage(rows[j], env) == Preimage(changed[j], env);
      assert LinkAt(rows, j) == LinkAt(changed, j);
    }
  }
}
