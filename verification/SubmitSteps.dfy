/**
 What a submission does to the tables (internal/repository/submission). The
 policy snapshots, the meter resets, the meter baselines and the variance
 alerts live in tables that other services write; they are inputs here.
 */
module SubmitSteps {
  import opened Wrappers
  import opened Reconciliation
  import opened LedgerTables
  import opened DraftSteps

  datatype InputReading = InputReading(nozzle: Id, meterStart: string, meterEnd: string, observed: Option<bool>)

  datatype InputLoss = InputLoss(loss: Id, nozzle: Id)

  datatype Payload = Payload(readings: seq<InputReading>, losses: seq<InputLoss>)

  datatype Mode = Wajib | Opsional | OtherMode

  datatype EvidenceType = EvidenceType(kind: string, minimum: nat, mimes: seq<string>)

  datatype EvidencePolicy = EvidencePolicy(mode: Mode, types: seq<EvidenceType>)

  datatype MeterReset = MeterReset(station: Station, nozzle: Id, shift: Id, value: string, approved: bool)

  datatype NozzleKey = NozzleKey(station: Station, nozzle: Id)

  /** The current baseline revision of a nozzle. */
  datatype Baseline = Baseline(effective: nat, value: string)

  /**
   The other tables as Submit finds them. The threshold is absent when its
   snapshot cannot be read, the evidence field fails when the policy has no
   types, and varianceRecorded says whether the alerts could be evaluated.
   */
  datatype Policies = Policies(
    threshold: Option<string>,
    evidence: Result<Option<EvidencePolicy>, Error>,
    resets: seq<MeterReset>,
    baselines: map<NozzleKey, Baseline>,
    varianceRecorded: bool)

  /** The payload is absent when its JSON does not decode. */
  datatype SubmitRequest = SubmitRequest(
    station: Station,
    shift: Id,
    draft: Id,
    token: Id,
    revision: nat,
    actor: User,
    key: string,
    requestHash: Digest,
    payload: Option<Payload>,
    policies: Policies)

  // ----- Inputs keyed by nozzle and by loss -----

  /** The map built from the submitted readings holds the last entry of each nozzle. */
  function InputFor(readings: seq<InputReading>, nozzle: Id): Option<InputReading> {
    if readings == [] then None
    else
      var last := readings[|readings| - 1];
      if last.nozzle == nozzle && nozzle != 0 then Some(last)
      else InputFor(readings[..|readings| - 1], nozzle)
  }

  function LossInputFor(losses: seq<InputLoss>, loss: Id): Option<InputLoss> {
    if losses == [] then None
    else
      var last := losses[|losses| - 1];
      if last.loss == loss && loss != 0 then Some(last)
      else LossInputFor(losses[..|losses| - 1], loss)
  }

  function SnapshotItem(catalog: seq<CatalogItem>, nozzle: Id): Option<CatalogItem> {
    if catalog == [] then None
    else if catalog[0].nozzle == nozzle then Some(catalog[0])
    else SnapshotItem(catalog[1..], nozzle)
  }

  // ----- Readings -----

  /** The meter end a shift's current report records for a nozzle, or the empty text. */
  function CurrentEnd(t: Tables, shift: Id, nozzle: Id): string {
    if shift in t.shifts && t.shifts[shift].current.Some? && t.shifts[shift].current.value in t.children then
      match ReadingFor(t.children[t.shifts[shift].current.value].readings, nozzle)
      case None => ""
      case Some(r) => r.meterEnd
    else ""
  }

  /** The predecessor's meter end for a nozzle, or the empty text. */
  ghost function PredecessorEnd(t: Tables, shift: Shift, nozzle: Id): string {
    match Predecessor(t.shifts, shift.station, shift.sequence, false)
    case None => ""
    case Some(p) => CurrentEnd(t, p, nozzle)
  }

  /** The approved reset of a nozzle for a shift, or the empty text. */
  function ResetValue(resets: seq<MeterReset>, station: Station, shift: Id, nozzle: Id): string {
    if resets == [] then ""
    else if resets[0].station == station && resets[0].nozzle == nozzle && resets[0].shift == shift && resets[0].approved then
      resets[0].value
    else ResetValue(resets[1..], station, shift, nozzle)
  }

  /** The current baseline of a nozzle when it is in effect at a sequence number, or the empty text. */
  function BaselineValue(baselines: map<NozzleKey, Baseline>, station: Station, sequence: nat, nozzle: Id): string {
    var k := NozzleKey(station, nozzle);
    if k in baselines && baselines[k].effective <= sequence then baselines[k].value else ""
  }

  /** What a meter's start is checked against: one of these, or nothing. */
  datatype Continuity = Continuity(predecessorEnd: string, resetValue: string, baselineValue: string)

  ghost function ContinuityOf(t: Tables, s: Id, shift: Shift, nozzle: Id, policies: Policies): Continuity {
    Continuity(PredecessorEnd(t, shift, nozzle), ResetValue(policies.resets, shift.station, s, nozzle),
               BaselineValue(policies.baselines, shift.station, shift.sequence, nozzle))
  }

  function Override(submitted: string, written: string): string {
    if submitted != "" then submitted else written
  }

  /** One draft reading turned into a report reading. */
  function PromotedReading(shift: Shift, row: DraftReading, input: Option<InputReading>, continuity: Continuity,
                           threshold: string, id: Id): Result<Reading, Error>
  {
    match SnapshotItem(shift.catalog, row.nozzle)
    case None => Failure(InvalidRequest)
    case Some(item) =>
      var meterStart := if input.Some? then Override(input.value.meterStart, row.meterStart) else row.meterStart;
      var meterEnd := if input.Some? then Override(input.value.meterEnd, row.meterEnd) else row.meterEnd;
      var start := ValidateMeterStart(meterStart, continuity.predecessorEnd, continuity.resetValue, continuity.baselineValue);
      if start.Some? then Failure(MeterRejected)
      else
        var delta := CalculateMeterDelta(meterStart, meterEnd, item.modulus, threshold);
        if delta.Failure? then Failure(MeterRejected)
        else
          var expected := CalculateExpectedSaleRupiah(delta.value, item.price);
          if expected.Failure? then Failure(MeterRejected)
          else
            var observed := if input.Some? && input.value.observed.Some? then input.value.observed.value else true;
            Success(Reading(id, row.nozzle, meterStart, meterEnd, item.price, expected.value, observed, None))
  }

  ghost function PromotedReadings(t: Tables, s: Id, shift: Shift, rows: seq<DraftReading>, payload: Payload,
                                  policies: Policies, threshold: string, firstId: Id): Result<seq<Reading>, Error>
  {
    if rows == [] then Success([])
    else
      var last := |rows| - 1;
      match PromotedReadings(t, s, shift, rows[..last], payload, policies, threshold, firstId)
      case Failure(e) => Failure(e)
      case Success(done) =>
        match PromotedReading(shift, rows[last], InputFor(payload.readings, rows[last].nozzle),
                              ContinuityOf(t, s, shift, rows[last].nozzle, policies), threshold, firstId + last)
        case Failure(e) => Failure(e)
        case Success(r) => Success(done + [r])
  }

  /** A reading repeated from the last locked shift, with its source. */
  function CarriedReading(source: Reading, shift: Id, report: Id, id: Id): Reading {
    Reading(id, source.nozzle, source.meterStart, source.meterEnd, source.price, source.expectedSale, false,
            Some(Source(shift, report, source.id)))
  }

  ghost function CarriedReadings(t: Tables, shift: Shift, items: seq<CatalogItem>, firstId: Id): Result<seq<Reading>, Error>
  {
    if items == [] then Success([])
    else
      var last := |items| - 1;
      match CarriedReadings(t, shift, items[..last], firstId)
      case Failure(e) => Failure(e)
      case Success(done) =>
        var p := Predecessor(t.shifts, shift.station, shift.sequence, true);
        if p.None? || t.shifts[p.value].current.value !in t.children then Failure(InvalidRequest)
        else
          var report := t.shifts[p.value].current.value;
          match ReadingFor(t.children[report].readings, items[last].nozzle)
          case None => Failure(InvalidRequest)
          case Some(source) =>
            if exists i :: 0 <= i < |done| && done[i].nozzle == source.nozzle then Failure(ConstraintViolation)
            else Success(done + [CarriedReading(source, p.value, report, firstId + last)])
  }

  // ----- Sales and losses -----

  function PromotedSales(rows: seq<DraftSale>, firstId: Id): (sales: seq<Sale>)
    ensures |sales| == |rows|
  {
    seq(|rows|, i requires 0 <= i < |rows| =>
      Sale(firstId + i, rows[i].dispenser, rows[i].cash, rows[i].cashless, rows[i].createdBy))
  }

  function PromotedLoss(row: DraftLoss, nozzle: Id, id: Id): Loss {
    Loss(id, 1, row.loss, nozzle, row.direction, row.reasonCode, row.liters, row.cash, row.note, row.createdBy)
  }

  function LossIds(losses: seq<Loss>): set<Id> {
    set i | 0 <= i < |losses| :: losses[i].loss
  }

  /** The losses and the loss identities taken by them. */
  function PromotedLosses(rows: seq<DraftLoss>, inputs: seq<InputLoss>, taken: set<Id>, firstId: Id): Result<seq<Loss>, Error>
  {
    if rows == [] then Success([])
    else
      var last := |rows| - 1;
      match PromotedLosses(rows[..last], inputs, taken, firstId)
      case Failure(e) => Failure(e)
      case Success(done) =>
        var input := LossInputFor(inputs, rows[last].loss);
        if input.None? || input.value.nozzle == 0 then Failure(InvalidRequest)
        else if rows[last].loss in taken + LossIds(done) then Failure(ConstraintViolation)
        else Success(done + [PromotedLoss(rows[last], input.value.nozzle, firstId + last)])
  }

  // ----- Evidence -----

  function TypeNamed(types: seq<EvidenceType>, kind: string): Option<EvidenceType> {
    if types == [] then None
    else
      var last := types[|types| - 1];
      if last.kind == kind then Some(last) else TypeNamed(types[..|types| - 1], kind)
  }

  predicate StagedFits(policy: EvidencePolicy, e: Staged) {
    var t := TypeNamed(policy.types, e.kind);
    t.Some? && e.mime in t.value.mimes
  }

  /** How many finalized objects of a type are staged for a loss. */
  function FinalizedCount(staged: seq<Staged>, lossRow: Id, kind: string): nat {
    if staged == [] then 0
    else
      var e := staged[|staged| - 1];
      FinalizedCount(staged[..|staged| - 1], lossRow, kind)
      + if e.status == Finalized && e.lossRow == lossRow && e.kind == kind then 1 else 0
  }

  /** The policy's verdict on one loss and one type; no exception is ever offered. */
  predicate EvidenceSuffices(mode: Mode, minimum: nat, finalized: nat) {
    match mode
    case Wajib => finalized >= minimum && minimum != 0
    case Opsional => finalized != 0
    case OtherMode => false
  }

  predicate EvidenceValid(policy: EvidencePolicy, losses: seq<DraftLoss>, staged: seq<Staged>) {
    && (forall i | 0 <= i < |staged| :: StagedFits(policy, staged[i]))
    && (forall i, j | 0 <= i < |losses| && 0 <= j < |policy.types| ::
          EvidenceSuffices(policy.mode, policy.types[j].minimum,
                           FinalizedCount(staged, losses[i].row, policy.types[j].kind)))
  }

  function DraftLossRow(rows: seq<DraftLoss>, row: Id): Option<DraftLoss> {
    if rows == [] then None
    else if rows[0].row == row then Some(rows[0])
    else DraftLossRow(rows[1..], row)
  }

  function ReportLoss(losses: seq<Loss>, loss: Id): Option<Loss> {
    if losses == [] then None
    else if losses[0].loss == loss then Some(losses[0])
    else ReportLoss(losses[1..], loss)
  }

  function PromotedEvidence(staged: seq<Staged>, rows: seq<DraftLoss>, losses: seq<Loss>, firstId: Id): Result<seq<EvidenceEvent>, Error>
  {
    if staged == [] then Success([])
    else
      var last := |staged| - 1;
      var e := staged[last];
      match PromotedEvidence(staged[..last], rows, losses, firstId)
      case Failure(error) => Failure(error)
      case Success(done) =>
        match DraftLossRow(rows, e.lossRow)
        case None => Failure(NotFound)
        case Some(row) =>
          match ReportLoss(losses, row.loss)
          case None => Failure(NotFound)
          case Some(loss) =>
            Success(done + [EvidenceEvent(firstId + last, e.row, loss.id, e.kind, e.mime, e.status, e.uploadedBy)])
  }

  // ----- The report's rows -----

  function PolicyOf(request: SubmitRequest): Option<EvidencePolicy> {
    if request.policies.evidence.Success? then request.policies.evidence.value else None
  }

  ghost function PromotedChildren(t: Tables, request: SubmitRequest, threshold: string, firstId: Id): Result<Children, Error>
    requires request.shift in t.shifts && request.draft in t.draftRows
  {
    var shift, rows := t.shifts[request.shift], t.draftRows[request.draft];
    if request.payload.None? then Failure(InvalidRequest)
    else
      var payload := request.payload.value;
      var readings := if shift.backfill.Some? then CarriedReadings(t, shift, shift.catalog, firstId)
                      else PromotedReadings(t, request.shift, shift, rows.readings, payload, request.policies, threshold, firstId);
      if readings.Failure? then Failure(readings.error)
      else
        var saleId := firstId + |readings.value|;
        var lossId := saleId + |rows.sales|;
        var losses := PromotedLosses(rows.losses, payload.losses, t.lossIds, lossId);
        if losses.Failure? then Failure(losses.error)
        else if PolicyOf(request).Some? && !EvidenceValid(PolicyOf(request).value, rows.losses, rows.evidence) then
          Failure(EvidenceRejected)
        else
          var evidence := PromotedEvidence(rows.evidence, rows.losses, losses.value, lossId + |rows.losses|);
          if evidence.Failure? then Failure(evidence.error)
          else Success(Children(readings.value, PromotedSales(rows.sales, saleId), losses.value, evidence.value))
  }

  // ----- The idempotency row -----

  /** What an existing row says about the request before anything else is looked at. */
  datatype Precheck = Conflict | Replay(report: Id) | Proceed

  function CheckIdempotency(t: Tables, request: SubmitRequest, now: Time): Precheck {
    var k := IdemKey(request.station, request.shift, request.key);
    if k !in t.idem then Proceed
    else
      var row := t.idem[k];
      if row.requestHash != request.requestHash || row.status == Failed then Conflict
      else if row.status == Succeeded && row.result.Some? then Replay(row.result.value)
      else if row.status == InProgress && row.lease.Some? && row.lease.value > now then Conflict
      else if row.status == InProgress && (row.token.None? || row.lease.None? || row.lease.value >= now) then Conflict
      else Proceed
  }

  function SucceededRow(t: Tables, request: SubmitRequest, report: Id): Idem {
    var k := IdemKey(request.station, request.shift, request.key);
    Idem(request.requestHash, Succeeded, Some(request.token), None,
         if k in t.idem then t.idem[k].attempts + 1 else 1, Some(report))
  }

  // ----- Submit -----

  /** The guards after the idempotency row: an open shift and a held draft at the expected revision. */
  function SubmitGuard(t: Tables, request: SubmitRequest, now: Time): Option<Error>
    requires request.shift in t.shifts && request.draft in t.drafts
  {
    if t.shifts[request.shift].status != Open then Some(IdempotencyConflict)
    else if !Holds(t.drafts[request.draft], request.actor, request.token, now) then Some(IdempotencyConflict)
    else if t.drafts[request.draft].revision != request.revision then Some(IdempotencyConflict)
    else None
  }

  function LoadError(t: Tables, request: SubmitRequest): Option<Error> {
    if request.station !in t.enabled then Some(ScopeDisabled)
    else if request.shift !in t.shifts || t.shifts[request.shift].station != request.station then Some(NotFound)
    else if request.draft !in t.drafts || t.drafts[request.draft].shift != request.shift || request.draft !in t.draftRows then
      Some(NotFound)
    else None
  }

  /** The tables with the first version of a report and everything that goes with it. */
  function WithReport(t: Tables, request: SubmitRequest, report: Id, children: Children, now: Time): Tables
    requires request.shift in t.shifts && request.draft in t.drafts
  {
    t.(nextId := report + 1 + children.Count(),
       shifts := t.shifts[request.shift := t.shifts[request.shift].(status := AwaitingConfirmation, current := Some(report),
                                                                    closedAt := Some(now))],
       drafts := t.drafts[request.draft := t.drafts[request.draft].(status := Handed, token := None, expires := None)],
       lossIds := t.lossIds + LossIds(children.losses),
       idem := t.idem[IdemKey(request.station, request.shift, request.key) := SucceededRow(t, request, report)],
       reports := t.reports[report := Report(request.shift, 1, None, request.actor)],
       children := t.children[report := children],
       heads := t.heads[report := None])
  }

  ghost function Promoted(t: Tables, request: SubmitRequest, now: Time): Result<Tables, Error>
    requires LoadError(t, request).None?
  {
    if request.policies.threshold.None? || request.policies.evidence.Failure? then Failure(InvalidRequest)
    else
      var report := t.nextId;
      match PromotedChildren(t, request, request.policies.threshold.value, report + 1)
      case Failure(e) => Failure(e)
      case Success(children) =>
        if !request.policies.varianceRecorded then Failure(InvalidRequest)
        else Success(WithReport(t, request, report, children, now))
  }

  ghost function Submitted(t: Tables, request: SubmitRequest, now: Time): Result<Tables, Error> {
    var error := LoadError(t, request);
    if error.Some? then Failure(error.value)
    else
      match CheckIdempotency(t, request, now)
      case Conflict => Failure(IdempotencyConflict)
      case Replay(_) => Success(t)
      case Proceed =>
        var guard := SubmitGuard(t, request, now);
        if guard.Some? then Failure(guard.value) else Promoted(t, request, now)
  }

  /** The idempotency rows with a failure noted under a key, unless the key belongs to another payload or succeeded. */
  function MarkedRows(idem: map<IdemKey, Idem>, k: IdemKey, requestHash: Digest): map<IdemKey, Idem> {
    if k !in idem then idem[k := Idem(requestHash, Failed, None, None, 1, None)]
    else if idem[k].requestHash != requestHash || idem[k].status == Succeeded then idem
    else idem[k := idem[k].(status := Failed, lease := None)]
  }

  /** The foreign key of an idempotency row: its station has its shift. */
  predicate HoldsShift(shifts: map<Id, Shift>, station: Station, shift: Id) {
    shift in shifts && shifts[shift].station == station
  }

  /** The separate transaction after a submission failed with anything but a conflict. */
  function MarkedFailed(t: Tables, k: IdemKey, requestHash: Digest): Result<Tables, Error> {
    if k !in t.idem && !HoldsShift(t.shifts, k.station, k.shift) then Failure(ConstraintViolation)
    else Success(t.(idem := MarkedRows(t.idem, k, requestHash)))
  }

  /** A row left in progress by something other than Submit, which never commits one. */
  function LeftInProgress(t: Tables, k: IdemKey, row: Idem): Result<Tables, Error> {
    if k in t.idem || row.status != InProgress || !HoldsShift(t.shifts, k.station, k.shift) then Failure(ConstraintViolation)
    else Success(t.(idem := t.idem[k := row]))
  }
}
