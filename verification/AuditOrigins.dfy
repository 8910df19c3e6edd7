/** What is hashed, when an append is accepted, and what the audit tables say about every accepted event. */
module AuditOrigins {
  import opened Wrappers
  import opened TextTrim
  import opened JsonString
  import opened Canonical
  import opened AuditText
  import opened AuditChain

  // ----- The hashed text -----

  /** The canonical text of a row: version 1 and the seven fields, in this order. */
  ghost function HashedText(row: LogRow, env: Env): string {
    "[1," + Quote(UuidText(row.org)) + "," + IntText(row.sequence) + "," + Quote(UuidText(row.eventId)) + "," + Quote(row.eventType)
    + "," + Text(row.payload) + "," + Quote(env.timeText(row.createdAt)) + "," + Quote(HexText(row.prevHash)) + "]"
  }

  lemma NextItem(v: Value, before: string, i: nat)
    requires v.Arr? && 0 < i < |v.items|
    ensures before + ItemsFrom(v, i) == before + "," + Text(v.items[i]) + ItemsFrom(v, i + 1)
  {
    hide Text;
    assert ItemsFrom(v, i) == "," + Text(v.items[i]) + ItemsFrom(v, i + 1);
    hide ItemsFrom;
  }

  lemma FirstItem(v: Value)
    requires v.Arr? && v.items != []
    ensures Text(v) == "[" + Text(v.items[0]) + ItemsFrom(v, 1)
  {
    assert ItemsFrom(v, 0) == Text(v.items[0]) + ItemsFrom(v, 1);
  }

  lemma NextTwo(v: Value, before: string, i: nat)
    requires v.Arr? && 0 < i < |v.items| - 1
    ensures before + ItemsFrom(v, i) == before + "," + Text(v.items[i]) + "," + Text(v.items[i + 1]) + ItemsFrom(v, i + 2)
  {
    hide Text, ItemsFrom;
    NextItem(v, before, i);
    NextItem(v, before + "," + Text(v.items[i]), i + 1);
  }

  lemma NextThree(v: Value, before: string, i: nat)
    requires v.Arr? && 0 < i < |v.items| - 2
    ensures before + ItemsFrom(v, i)
         == before + "," + Text(v.items[i]) + "," + Text(v.items[i + 1]) + "," + Text(v.items[i + 2]) + ItemsFrom(v, i + 3)
  {
    hide Text, ItemsFrom;
    NextTwo(v, before, i);
    NextItem(v, before + "," + Text(v.items[i]) + "," + Text(v.items[i + 1]), i + 2);
  }

  lemma ArrayEnds(v: Value)
    requires v.Arr?
    ensures ItemsFrom(v, |v.items|) == "]"
  {
  }

  /** The texts of five more items, then what is left. */
  lemma NextFive(v: Value, before: string, i: nat)
    requires v.Arr? && 0 < i < |v.items| - 4
    ensures before + ItemsFrom(v, i)
         == before + "," + Text(v.items[i]) + "," + Text(v.items[i + 1]) + "," + Text(v.items[i + 2])
            + "," + Text(v.items[i + 3]) + "," + Text(v.items[i + 4]) + ItemsFrom(v, i + 5)
  {
    hide Text, ItemsFrom;
    NextThree(v, before, i);
    NextTwo(v, before + "," + Text(v.items[i]) + "," + Text(v.items[i + 1]) + "," + Text(v.items[i + 2]), i + 3);
  }

  lemma EightItems(v: Value)
    requires v.Arr? && |v.items| == 8
    ensures Text(v) == "[" + Text(v.items[0]) + "," + Text(v.items[1]) + "," + Text(v.items[2]) + "," + Text(v.items[3]) + ","
                       + Text(v.items[4]) + "," + Text(v.items[5]) + "," + Text(v.items[6]) + "," + Text(v.items[7]) + "]"
  {
    hide Text, ItemsFrom;
    ArrayEnds(v);
    FirstItem(v);
    NextTwo(v, "[" + Text(v.items[0]), 1);
    NextFive(v, "[" + Text(v.items[0]) + "," + Text(v.items[1]) + "," + Text(v.items[2]), 3);
  }

  lemma OneIsWritten()
    ensures IntText(1) == "1"
  {
  }

  lemma SupportedPreimage(row: LogRow, env: Env)
    ensures Supported(Preimage(row, env), env.accepts) <==> Supported(row.payload, env.accepts)
  {
    var items := Preimage(row, env).items;
    assert items[5] == row.payload;
    hide UuidText, HexText;
    assert forall i | 0 <= i < 8 && i != 5 :: Supported(items[i], env.accepts);
  }

  /** A row hash is the digest of exactly this text, and there is none when the payload has no canonical form. */
  lemma RowHashMeaning(row: LogRow, env: Env)
    ensures RowHash(row, env) == if Supported(row.payload, env.accepts) then env.hash(HashedText(row, env)) else []
  {
    SupportedPreimage(row, env);
    hide Supported, UuidText, HexText, Quote, IntText;
    EightItems(Preimage(row, env));
    OneIsWritten();
    var one := "[" + "1" + ",";
    assert one == "[1,";
    assert Text(Preimage(row, env)) == HashedText(row, env);
  }

  /** Two lower-case digits for each byte, in order. */
  lemma {:induction false} HexTextMeaning(b: Bytes, i: nat)
    requires i < |b|
    ensures HexValue(HexText(b)[2 * i]) == Some(b[i] / 16) && HexValue(HexText(b)[2 * i + 1]) == Some(b[i] % 16)
  {
    if i == 0 {
      HexDigitValue(b[0] / 16);
      HexDigitValue(b[0] % 16);
    } else {
      HexTextMeaning(b[1..], i - 1);
    }
  }

  /** Where the digits of byte i stand in a UUID. */
  function DigitAt(i: nat): nat {
    2 * i + (if i < 4 then 0 else if i < 6 then 1 else if i < 8 then 2 else if i < 10 then 3 else 4)
  }

  /** A UUID is written as 36 characters: its sixteen bytes in order, with four hyphens. */
  lemma UuidTextMeaning(u: Uuid, i: nat)
    requires i < 16
    ensures |UuidText(u)| == 36 && (forall k | k in {8, 13, 18, 23} :: UuidText(u)[k] == '-')
    ensures HexValue(UuidText(u)[DigitAt(i)]) == Some(u[i] / 16) && HexValue(UuidText(u)[DigitAt(i) + 1]) == Some(u[i] % 16)
  {
    hide HexText, HexValue;
    if i < 4 {
      HexTextMeaning(u[..4], i);
    } else if i < 6 {
      HexTextMeaning(u[4..6], i - 4);
    } else if i < 8 {
      HexTextMeaning(u[6..8], i - 6);
    } else if i < 10 {
      HexTextMeaning(u[8..10], i - 8);
    } else {
      HexTextMeaning(u[10..], i - 10);
    }
  }

  // ----- Appending -----

  /** The request names its event and organization, a type, an outcome and a payload with a canonical form. */
  predicate IsComplete(q: AppendRequest, accepts: FloatSyntax) {
    && q.org != NIL_UUID && q.event != NIL_UUID && !IsBlank(q.eventType) && !IsBlank(q.outcome)
    && q.payload.Some? && Supported(q.payload.value, accepts)
  }

  /** The row says what the request says, next in its organization's chain. */
  ghost predicate Logs(rows: seq<LogRow>, row: LogRow, q: AppendRequest, now: Time, env: Env) {
    && row.org == q.org && row.eventId == q.event && row.eventType == q.eventType && Some(row.payload) == q.payload
    && row.outcome == q.outcome && row.createdAt == now
    && row.outcomeError == (if IsBlank(q.outcomeError) then None else Some(q.outcomeError))
    && row.sequence == |rows| + 1 && row.prevHash == LinkAt(rows, |rows|)
    && row.rowHash == env.hash(HashedText(row, env))
  }

  lemma NewRowLogs(t: AuditTables, q: AppendRequest, now: Time, env: Env)
    requires AuditOk(t, env) && q.payload.Some? && Supported(q.payload.value, env.accepts)
    ensures Logs(RowsOf(t.log, q.org), NewRow(Tail(RowsOf(t.log, q.org)), q, now, env), q, now, env)
  {
    hide RowsOf, RowHash, TrimSpace, IsBlank, Tail, NextLink, NextSequence, LinkAt, HashedText, RowStored, Supported, ChainValid;
    var rows := RowsOf(t.log, q.org);
    RowsAreStored(t.log, q.org);
    TailOfChain(rows, env);
    NewRowIsHashed(Tail(rows), q, now, env);
    RowHashMeaning(NewRow(Tail(rows), q, now, env), env);
    TrimmedAwayIffBlank(q.outcomeError);
  }

  lemma NoTrace(t: AuditTables, q: AppendRequest, env: Env)
    requires AuditOk(t, env)
    ensures !HasEvent(t.log, q.event) ==> EventKey(q.org, q.event) !in t.outbox && EventKey(q.org, q.event) !in t.relay
  {
    hide ChainValid, RowsOf, RowStored;
  }

  lemma UnhashedIsEmpty(tail: Option<LogRow>, q: AppendRequest, now: Time, env: Env)
    requires q.payload.Some? && !Supported(q.payload.value, env.accepts)
    ensures NewRow(tail, q, now, env).rowHash == []
  {
    hide TrimSpace, NextLink, NextSequence, Supported, RowHash, HashedText;
    RowHashMeaning(NewRow(tail, q, now, env).(rowHash := []), env);
  }

  /**
   An append is accepted exactly for a complete request with a new event, when
   the digest has its 32 bytes. It then adds one row, one outbox entry with the
   event's type, payload and time, and a delivery that is pending and due at once.
   */
  lemma AppendedIff(t: AuditTables, q: AppendRequest, now: Time, env: Env)
    requires AuditOk(t, env)
    ensures Appended(t, q, now, env).Success? <==>
            && IsComplete(q, env.accepts) && (forall i | 0 <= i < |t.log| :: t.log[i].eventId != q.event)
            && |NewRow(Tail(RowsOf(t.log, q.org)), q, now, env).rowHash| == 32
    ensures Appended(t, q, now, env).Success? ==>
              var t' := Appended(t, q, now, env).value;
              var key := EventKey(q.org, q.event);
              && |t'.log| == |t.log| + 1 && t.log <= t'.log && Logs(RowsOf(t.log, q.org), t'.log[|t.log|], q, now, env)
              && t'.outbox == t.outbox[key := OutboxRow(q.eventType, q.payload.value, now)]
              && t'.relay == t.relay[key := RelayRow(Pending, 0, Some(now))]
  {
    hide AuditOk, TrimSpace, IsBlank, NewRow, Tail, RowsOf, Logs, Supported;
    TrimmedAwayIffBlank(q.eventType);
    TrimmedAwayIffBlank(q.outcome);
    NoTrace(t, q, env);
    if q.payload.Some? {
      if Supported(q.payload.value, env.accepts) {
        NewRowLogs(t, q, now, env);
      } else {
        UnhashedIsEmpty(Tail(RowsOf(t.log, q.org)), q, now, env);
      }
    }
  }

  // ----- Along a run -----

  /** The outbox carries the row's event, and its delivery starts when it was logged. */
  ghost predicate IsQueued(t: AuditTables, row: LogRow) {
    var key := EventKey(row.org, row.eventId);
    && key in t.outbox && t.outbox[key] == OutboxRow(row.eventType, row.payload, row.createdAt)
    && key in t.relay && t.relay[key] == RelayRow(Pending, 0, Some(row.createdAt))
  }

  /** The call asked for the row. */
  ghost predicate AskedFor(call: Call, row: LogRow) {
    && row.org == call.request.org && row.eventId == call.request.event && row.eventType == call.request.eventType
    && Some(row.payload) == call.request.payload && row.outcome == call.request.outcome && row.createdAt == call.now
    && row.outcomeError == (if IsBlank(call.request.outcomeError) then None else Some(call.request.outcomeError))
  }

  ghost predicate WasAsked(calls: seq<Call>, row: LogRow) {
    exists i :: 0 <= i < |calls| && AskedFor(calls[i], row)
  }

  lemma StillAsked(calls: seq<Call>, row: LogRow)
    requires calls != [] && WasAsked(calls[..|calls| - 1], row)
    ensures WasAsked(calls, row)
  {
    hide AskedFor;
    var i :| 0 <= i < |calls| - 1 && AskedFor(calls[..|calls| - 1][i], row);
    assert AskedFor(calls[i], row);
  }

  lemma AppendQueues(t: AuditTables, q: AppendRequest, now: Time, env: Env, i: nat)
    requires AuditOk(t, env) && Appended(t, q, now, env).Success?
    requires forall j | 0 <= j < |t.log| :: IsQueued(t, t.log[j])
    requires i < |Appended(t, q, now, env).value.log|
    ensures var t' := Appended(t, q, now, env).value;
            && IsQueued(t', t'.log[i])
            && (i < |t.log| ==> t'.log[i] == t.log[i])
            && (i == |t.log| ==> AskedFor(Call(q, now), t'.log[i]))
  {
    hide AuditOk, Appended, RowsOf, NewRow, Tail, HashedText, LinkAt, IsBlank, Supported;
    AppendedIff(t, q, now, env);
    var t' := Appended(t, q, now, env).value;
    if i < |t.log| {
      assert IsQueued(t, t.log[i]);
      assert t.log[i].eventId != q.event;
    }
  }

  /**
   After any calls on empty tables every log row was asked for by one of them
   and says what it asked, and outbox and delivery state carry its type, its
   payload and its time.
   */
  lemma {:induction false} EveryRowWasAsked(calls: seq<Call>, env: Env, i: nat)
    requires i < |After(AuditTables({}, [], map[], map[]), calls, env).log|
    ensures var t := After(AuditTables({}, [], map[], map[]), calls, env);
            WasAsked(calls, t.log[i]) && IsQueued(t, t.log[i])
  {
    hide AuditOk, Appended, IsQueued, AskedFor;
    if calls != [] {
      var empty := AuditTables({}, [], map[], map[]);
      var front, last := calls[..|calls| - 1], calls[|calls| - 1];
      var before := After(empty, front, env);
      EmptyLogVerifies(env);
      EveryRunVerifies(empty, front, env);
      forall j | 0 <= j < |before.log| ensures IsQueued(before, before.log[j]) && WasAsked(calls, before.log[j]) {
        EveryRowWasAsked(front, env, j);
        StillAsked(calls, before.log[j]);
      }
      if Appended(before, last.request, last.now, env).Success? {
        AppendQueues(before, last.request, last.now, env, i);
        AppendedIff(before, last.request, last.now, env);
        assert calls[|calls| - 1] == Call(last.request, last.now);
      }
    }
  }
}
