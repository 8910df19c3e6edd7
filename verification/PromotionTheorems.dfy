/** From what was typed into a draft to what a report says: the way of one row, and the sale it is charged with. */
module PromotionTheorems {
  import opened Wrappers
  import opened DecimalText
  import opened Reconciliation
  import opened LedgerTables
  import opened DraftSteps
  import opened SubmitSteps
  import opened GovernanceSteps
  import opened LedgerInvariant
  import opened LedgerRuns
  import opened SubmissionTheorems

  // ----- The sale a reading is charged with -----

  /** The forward distance times the price, rounded half up to a whole rupiah. */
  ghost function SaleFor(start: string, end: string, modulus: string, price: string): int
    requires IsDecimal(start) && IsDecimal(end) && IsDecimal(modulus) && IsDecimal(price)
  {
    RoundHalfUp(Forward(Value(start), Value(end), Value(modulus)) * Value(price))
  }

  /** The reading takes its price from the shift's catalogue and its sale from the forward distance of its meters. */
  ghost predicate IsPriced(shift: Shift, input: Option<InputReading>, r: Reading) {
    && SnapshotItem(shift.catalog, r.nozzle).Some?
    && var item := SnapshotItem(shift.catalog, r.nozzle).value;
    && r.price == item.price
    && IsDecimal(r.price) && IsDecimal(r.meterStart) && IsDecimal(r.meterEnd) && IsDecimal(item.modulus)
    && IsDecimal(r.expectedSale)
    && Value(r.expectedSale) == SaleFor(r.meterStart, r.meterEnd, item.modulus, r.price) as real
    && r.observed == (if input.Some? && input.value.observed.Some? then input.value.observed.value else true)
  }

  lemma SaleOfDelta(start: string, end: string, modulus: string, delta: string, price: string)
    requires IsDecimal(start) && IsDecimal(end) && IsDecimal(modulus) && IsDecimal(delta) && IsDecimal(price)
    requires Value(delta) == Forward(Value(start), Value(end), Value(modulus))
    ensures RoundHalfUp(ExactSale(delta, price)) == SaleFor(start, end, modulus, price)
  {
    hide Units, Scale, OverTen, IsWhole, Magnitude, Fraction, Whole;
    assert ExactSale(delta, price) == Value(delta) * Value(price);
  }

  lemma PriceIsDecimal(liters: string, price: string)
    requires CalculateExpectedSaleRupiah(liters, price).Success?
    ensures IsDecimal(price)
  {
    hide QuotientHalfUp, ProductRatio, IsDecimal, NatText;
  }

  lemma CheckedSale(start: string, end: string, modulus: string, threshold: string, price: string, delta: string, sale: string)
    requires CalculateMeterDelta(start, end, modulus, threshold) == Success(delta)
    requires CalculateExpectedSaleRupiah(delta, price) == Success(sale)
    ensures IsDecimal(start) && IsDecimal(end) && IsDecimal(modulus) && IsDecimal(price) && IsDecimal(sale)
    ensures Value(sale) == SaleFor(start, end, modulus, price) as real
  {
    hide CalculateMeterDelta, CalculateExpectedSaleRupiah, Value, Forward, RoundHalfUp, IsDecimal, HasNoTrailingZero, ExactSale;
    MeterDeltaAccepts(start, end, modulus, threshold);
    MeterDeltaIsExact(start, end, modulus, threshold);
    PriceIsDecimal(delta, price);
    ExpectedSaleMeaning(delta, price);
    SaleOfDelta(start, end, modulus, delta, price);
  }

  lemma ReadingIsPriced(shift: Shift, row: DraftReading, input: Option<InputReading>, continuity: Continuity,
                        threshold: string, id: Id)
    requires PromotedReading(shift, row, input, continuity, threshold, id).Success?
    ensures IsPriced(shift, input, PromotedReading(shift, row, input, continuity, threshold, id).value)
  {
    hide ValidateMeterStart, CalculateMeterDelta, CalculateExpectedSaleRupiah, Value, IsDecimal, Forward, RoundHalfUp;
    var r := PromotedReading(shift, row, input, continuity, threshold, id).value;
    var modulus := SnapshotItem(shift.catalog, row.nozzle).value.modulus;
    CheckedSale(r.meterStart, r.meterEnd, modulus, threshold, r.price,
                CalculateMeterDelta(r.meterStart, r.meterEnd, modulus, threshold).value, r.expectedSale);
  }

  lemma {:induction false} ReadingsArePriced(t: Tables, s: Id, shift: Shift, rows: seq<DraftReading>, payload: Payload,
                                             policies: Policies, threshold: string, firstId: Id)
    requires PromotedReadings(t, s, shift, rows, payload, policies, threshold, firstId).Success?
    ensures var readings := PromotedReadings(t, s, shift, rows, payload, policies, threshold, firstId).value;
            |readings| == |rows|
            && forall i | 0 <= i < |rows| :: IsPriced(shift, InputFor(payload.readings, rows[i].nozzle), readings[i])
  {
    hide PromotedReading, ContinuityOf, InputFor, IsPriced;
    if rows != [] {
      var last := |rows| - 1;
      ReadingsArePriced(t, s, shift, rows[..last], payload, policies, threshold, firstId);
      ReadingIsPriced(shift, rows[last], InputFor(payload.readings, rows[last].nozzle),
                      ContinuityOf(t, s, shift, rows[last].nozzle, policies), threshold, firstId + last);
    }
  }

  /** Every reading of a first report that is not backfilled is charged its forward distance times its price, rounded half up. */
  lemma EveryReadingIsPriced(t: Tables, q: SubmitRequest, now: Time)
    requires Submitted(t, q, now).Success? && CheckIdempotency(t, q, now).Proceed? && t.shifts[q.shift].backfill.None?
    ensures var t' := Submitted(t, q, now).value;
            && q.payload.Some? && q.draft in t.draftRows && t.nextId in t'.children
            && var rows, readings := t.draftRows[q.draft].readings, t'.children[t.nextId].readings;
            && |readings| == |rows|
            && forall i | 0 <= i < |rows| ::
                 IsPriced(t.shifts[q.shift], InputFor(q.payload.value.readings, rows[i].nozzle), readings[i])
  {
    hide PromotedReadings, PromotedLosses, PromotedEvidence, EvidenceValid, IsPriced, Holds, CheckIdempotency, InputFor;
    var rows := t.draftRows[q.draft].readings;
    ReadingsArePriced(t, q.shift, t.shifts[q.shift], rows, q.payload.value, q.policies, q.policies.threshold.value, t.nextId + 1);
  }

  // ----- The way of one row -----

  ghost predicate Grows(a: DraftRows, b: DraftRows) {
    a.readings <= b.readings && a.sales <= b.sales && a.losses <= b.losses && a.evidence <= b.evidence
  }

  lemma WriteGrows(t: Tables, w: Write, row: Row, now: Time, d: Id)
    requires d in t.draftRows && RowWritten(t, w, row, now).Success?
    ensures d in RowWritten(t, w, row, now).value.draftRows && Grows(t.draftRows[d], RowWritten(t, w, row, now).value.draftRows[d])
  {
    hide RowFits, MutationError;
  }

  lemma OpenGrows(t: Tables, q: OpenRequest, d: Id)
    requires KeysOk(t) && d in t.draftRows && ShiftOpened(t, q).Success?
    ensures d in ShiftOpened(t, q).value.draftRows && ShiftOpened(t, q).value.draftRows[d] == t.draftRows[d]
  {
    hide StationIsFree, Sequences;
    assert d in t.drafts;
  }

  lemma StepGrows(t: Tables, e: Event, d: Id, hash: SnapshotHash)
    requires KeysOk(t) && d in t.draftRows
    ensures d in Next(t, e, hash).draftRows && Grows(t.draftRows[d], Next(t, e, hash).draftRows[d])
  {
    hide KeysOk, ShiftOpened, DraftClaimed, LeaseExtended, RowWritten, Submitted, MarkedFailed, LeftInProgress,
      Acknowledged, AmendmentRequested, AmendmentRejected, AmendmentApproved;
    if Outcome(t, e, hash).Success? && e.step.WriteRow? {
      WriteGrows(t, e.step.write, e.step.row, e.now, d);
    } else if Outcome(t, e, hash).Success? && e.step.OpenShift? {
      OpenGrows(t, e.step.open, d);
    } else {
      RowsUntouched(t, e, hash);
    }
  }

  /** No step removes or changes a row of a draft. */
  lemma {:induction false} RunGrows(t: Tables, run: seq<Event>, d: Id, hash: SnapshotHash)
    requires Inv(t, hash) && d in t.draftRows
    ensures d in After(t, run, hash).draftRows && Grows(t.draftRows[d], After(t, run, hash).draftRows[d])
  {
    hide Inv, Next;
    if run != [] {
      var front := run[..|run| - 1];
      RunGrows(t, front, d, hash);
      RunKeeps(t, front, hash);
      KeysOfInv(After(t, front, hash), hash);
      StepGrows(After(t, front, hash), run[|run| - 1], d, hash);
    }
  }

  /** The report says what was written; submitted meters override written ones. */
  ghost predicate IsReported(row: Row, actor: User, payload: Payload, c: Children) {
    match row
    case ReadingRow(nozzle, s, e) =>
      var input := InputFor(payload.readings, nozzle);
      exists i :: 0 <= i < |c.readings| && c.readings[i].nozzle == nozzle
                  && c.readings[i].meterStart == (if input.Some? then Override(input.value.meterStart, s) else s)
                  && c.readings[i].meterEnd == (if input.Some? then Override(input.value.meterEnd, e) else e)
    case SaleRow(dispenser, cash, cashless) =>
      exists i :: 0 <= i < |c.sales| && c.sales[i].dispenser == dispenser && c.sales[i].cash == cash
                  && c.sales[i].cashless == cashless && c.sales[i].createdBy == actor
    case LossRow(loss, direction, reason, liters, cash, note) =>
      exists i :: 0 <= i < |c.losses| && c.losses[i].loss == loss && c.losses[i].direction == direction
                  && c.losses[i].reasonCode == reason && c.losses[i].liters == liters && TextOr(c.losses[i].cash) == cash
                  && TextOr(c.losses[i].note) == note && c.losses[i].createdBy == actor
    case EvidenceRow(_, kind, mime) =>
      exists i :: 0 <= i < |c.evidence| && c.evidence[i].kind == kind && c.evidence[i].mime == mime
                  && c.evidence[i].status == Uploaded && c.evidence[i].actor == actor
  }

  /** A row among the rows of a draft. */
  ghost predicate Contains(rows: DraftRows, row: Row, actor: User) {
    match row
    case ReadingRow(nozzle, s, e) =>
      exists i :: 0 <= i < |rows.readings| && rows.readings[i].nozzle == nozzle && rows.readings[i].meterStart == s
                  && rows.readings[i].meterEnd == e
    case SaleRow(dispenser, cash, cashless) =>
      exists i :: 0 <= i < |rows.sales| && rows.sales[i].dispenser == dispenser && rows.sales[i].cash == cash
                  && rows.sales[i].cashless == cashless && rows.sales[i].createdBy == actor
    case LossRow(loss, direction, reason, liters, cash, note) =>
      exists i :: 0 <= i < |rows.losses| && rows.losses[i].loss == loss && rows.losses[i].direction == direction
                  && rows.losses[i].reasonCode == reason && rows.losses[i].liters == liters && TextOr(rows.losses[i].cash) == cash
                  && TextOr(rows.losses[i].note) == note && rows.losses[i].createdBy == actor
    case EvidenceRow(_, kind, mime) =>
      exists i :: 0 <= i < |rows.evidence| && rows.evidence[i].kind == kind && rows.evidence[i].mime == mime
                  && rows.evidence[i].status == Uploaded && rows.evidence[i].uploadedBy == actor
  }

  lemma WriteContains(rows: DraftRows, row: Row, id: Id, actor: User)
    ensures Contains(WithRow(rows, row, id, actor), row, actor)
  {
    var after := WithRow(rows, row, id, actor);
    match row
    case ReadingRow(_, _, _) => assert after.readings[|rows.readings|] == after.readings[|after.readings| - 1];
    case SaleRow(_, _, _) => assert after.sales[|rows.sales|] == after.sales[|after.sales| - 1];
    case LossRow(_, _, _, _, _, _) => assert after.losses[|rows.losses|] == after.losses[|after.losses| - 1];
    case EvidenceRow(_, _, _) => assert after.evidence[|rows.evidence|] == after.evidence[|after.evidence| - 1];
  }

  lemma ContainsStays(a: DraftRows, b: DraftRows, row: Row, actor: User)
    requires Grows(a, b) && Contains(a, row, actor)
    ensures Contains(b, row, actor)
  {
    match row
    case ReadingRow(nozzle, s, e) =>
      var i :| 0 <= i < |a.readings| && a.readings[i].nozzle == nozzle && a.readings[i].meterStart == s && a.readings[i].meterEnd == e;
      assert b.readings[i] == a.readings[i];
    case SaleRow(dispenser, cash, cashless) =>
      var i :| 0 <= i < |a.sales| && a.sales[i].dispenser == dispenser && a.sales[i].cash == cash
               && a.sales[i].cashless == cashless && a.sales[i].createdBy == actor;
      assert b.sales[i] == a.sales[i];
    case LossRow(loss, direction, reason, liters, cash, note) =>
      var i :| 0 <= i < |a.losses| && a.losses[i].loss == loss && a.losses[i].direction == direction
               && a.losses[i].reasonCode == reason && a.losses[i].liters == liters && TextOr(a.losses[i].cash) == cash
               && TextOr(a.losses[i].note) == note && a.losses[i].createdBy == actor;
      assert b.losses[i] == a.losses[i];
    case EvidenceRow(_, kind, mime) =>
      var i :| 0 <= i < |a.evidence| && a.evidence[i].kind == kind && a.evidence[i].mime == mime
               && a.evidence[i].status == Uploaded && a.evidence[i].uploadedBy == actor;
      assert b.evidence[i] == a.evidence[i];
  }

  lemma PromotionReports(rows: DraftRows, payload: Payload, c: Children, row: Row, actor: User)
    requires Contains(rows, row, actor) && IsPromotion(rows, payload, c)
    ensures IsReported(row, actor, payload, c)
  {
    hide InputFor;
    match row
    case ReadingRow(nozzle, s, e) =>
      var i :| 0 <= i < |rows.readings| && rows.readings[i].nozzle == nozzle && rows.readings[i].meterStart == s
               && rows.readings[i].meterEnd == e;
      assert IsPromotedReading(rows.readings[i], InputFor(payload.readings, nozzle), c.readings[i]);
    case SaleRow(dispenser, cash, cashless) =>
      var i :| 0 <= i < |rows.sales| && rows.sales[i].dispenser == dispenser && rows.sales[i].cash == cash
               && rows.sales[i].cashless == cashless && rows.sales[i].createdBy == actor;
      assert IsPromotedSale(rows.sales[i], c.sales[i]);
    case LossRow(loss, direction, reason, liters, cash, note) =>
      var i :| 0 <= i < |rows.losses| && rows.losses[i].loss == loss && rows.losses[i].direction == direction
               && rows.losses[i].reasonCode == reason && rows.losses[i].liters == liters && TextOr(rows.losses[i].cash) == cash
               && TextOr(rows.losses[i].note) == note && rows.losses[i].createdBy == actor;
      assert IsPromotedLoss(rows.losses[i], LossInputFor(payload.losses, rows.losses[i].loss), c.losses[i]);
    case EvidenceRow(_, kind, mime) =>
      var i :| 0 <= i < |rows.evidence| && rows.evidence[i].kind == kind && rows.evidence[i].mime == mime
               && rows.evidence[i].status == Uploaded && rows.evidence[i].uploadedBy == actor;
      assert IsPromotedEvidence(rows.evidence[i], rows.losses, c.losses, c.evidence[i]);
  }

  lemma WriteIsContained(t: Tables, w: Write, row: Row, now: Time, t1: Tables)
    requires RowWritten(t, w, row, now) == Success(t1)
    ensures w.draft in t1.draftRows && Contains(t1.draftRows[w.draft], row, w.actor)
  {
    hide RowFits, MutationError, WithRow, Contains;
    WriteContains(t.draftRows[w.draft], row, t.nextId, w.actor);
  }

  lemma WriteIsAStep(t: Tables, w: Write, row: Row, now: Time, hash: SnapshotHash)
    requires RowWritten(t, w, row, now).Success?
    ensures Next(t, Event(WriteRow(w, row), now), hash) == RowWritten(t, w, row, now).value
  {
    hide RowWritten;
  }

  /**
   Whatever happens between an accepted write and the first submission of its
   draft, the report says what was written and who wrote it.
   */
  lemma WrittenRowIsReported(t: Tables, w: Write, row: Row, now: Time, run: seq<Event>, q: SubmitRequest, later: Time,
                             hash: SnapshotHash, t1: Tables, t2: Tables)
    requires Inv(t, hash) && RowWritten(t, w, row, now) == Success(t1) && t2 == After(t1, run, hash)
    requires Submitted(t2, q, later).Success? && CheckIdempotency(t2, q, later).Proceed?
    requires q.draft == w.draft && t2.shifts[q.shift].backfill.None?
    ensures q.payload.Some? && t2.nextId in Submitted(t2, q, later).value.children
    ensures IsReported(row, w.actor, q.payload.value, Submitted(t2, q, later).value.children[t2.nextId])
  {
    WriteIsContained(t, w, row, now, t1);
    WriteIsAStep(t, w, row, now, hash);
    hide *;
    StepKeeps(t, Event(WriteRow(w, row), now), hash);
    RunGrows(t1, run, w.draft, hash);
    ContainsStays(t1.draftRows[w.draft], t2.draftRows[w.draft], row, w.actor);
    RunKeeps(t1, run, hash);
    SubmissionKeepsEveryRow(t2, q, later, hash);
    PromotionReports(t2.draftRows[w.draft], q.payload.value, Submitted(t2, q, later).value.children[t2.nextId], row, w.actor);
  }
}
