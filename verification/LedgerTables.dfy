/**
 The tables of the shift-report ledger as one value. A table is a map from its
 key to its rows; rows that hang off a draft or a report are kept as the list
 of rows with that draft_id or report_id, in insertion order.
 */
module LedgerTables {
  import opened Wrappers

  /** A generated identifier. Zero stands for the nil UUID. */
  type Id = nat
  type User = nat
  type Station = nat
  /** Microseconds. */
  type Time = int
  type Digest = string

  const DRAFT_LEASE: Time := 10 * 60 * 1000000
  const SUBMIT_LEASE: Time := 10 * 60 * 1000000
  const DIGEST_LENGTH: nat := 32

  datatype Error =
    | NotFound
    | ScopeDisabled
    | ConstraintViolation
    | InvalidRequest
    | ClaimExpired
    | RevisionConflict
    | IdempotencyConflict
    | MeterRejected
    | EvidenceRejected
    | AckReportNotFound
    | AckReportUnavailable
    | AckRoleRequired
    | AckSeparationRequired
    | AckAlreadyDecided
    | RejectionReasonRequired
    | UnexpectedRejectionReason
    | BreakGlassReasonRequired
    | UnexpectedBreakGlassReason
    | AmendmentNotFound
    | AmendmentBaseUnavailable
    | AmendmentRoleRequired
    | AmendmentPendingExists
    | AmendmentFieldForbidden
    | AmendmentNotPending
    | AmendmentSeparationRequired
    | AmendmentReasonRequired
    | AmendmentStale
    | AmendmentTargetNotFound
    | BackfillApprovalRequired
    | BackfillOutOfOrder

  datatype Role = Operator | Supervisor | StationAdmin | Owner | Superadmin

  datatype Grant = Grant(station: Station, user: User, role: Role)

  // ----- Shifts and drafts -----

  datatype ShiftStatus = Open | AwaitingConfirmation | NeedsCorrection | Locked

  datatype CatalogItem = CatalogItem(nozzle: Id, modulus: string, price: string)

  /** A calendar day, counted from a fixed one. */
  type Day = int

  /** The day and the number within the day of a shift entered after the fact; only backfilled shifts have one. */
  datatype BackfillKey = BackfillKey(day: Day, ordinal: int)

  datatype Shift = Shift(
    station: Station,
    sequence: nat,
    supervisor: User,
    status: ShiftStatus,
    current: Option<Id>,
    backfill: Option<BackfillKey>,
    businessDate: Day,
    openedAt: Time,
    closedAt: Option<Time>,
    catalog: seq<CatalogItem>)

  /** A draft is being edited, or was handed in ("submitted"). */
  datatype DraftStatus = Editing | Handed

  datatype Draft = Draft(
    station: Station,
    shift: Id,
    ownedBy: Option<User>,
    token: Option<Id>,
    expires: Option<Time>,
    status: DraftStatus,
    revision: nat)

  datatype DraftReading = DraftReading(row: Id, nozzle: Id, meterStart: string, meterEnd: string, createdBy: User)

  datatype DraftSale = DraftSale(row: Id, dispenser: Id, cash: string, cashless: string, createdBy: User)

  datatype DraftLoss = DraftLoss(
    row: Id,
    loss: Id,
    direction: string,
    reasonCode: string,
    liters: string,
    cash: Option<string>,
    note: Option<string>,
    createdBy: User)

  datatype EvidenceStatus = Uploaded | Verified | Finalized

  datatype Staged = Staged(row: Id, lossRow: Id, kind: string, mime: string, status: EvidenceStatus, uploadedBy: User)

  datatype DraftRows = DraftRows(
    readings: seq<DraftReading>,
    sales: seq<DraftSale>,
    losses: seq<DraftLoss>,
    evidence: seq<Staged>)
  {
    function Count(): nat {
      |readings| + |sales| + |losses| + |evidence|
    }
  }

  // ----- Reports -----

  datatype Report = Report(shift: Id, version: nat, supersedes: Option<Id>, submittedBy: User)

  datatype Source = Source(shift: Id, report: Id, reading: Id)

  /** A reading carries its source exactly when it was carried forward. */
  datatype Reading = Reading(
    id: Id,
    nozzle: Id,
    meterStart: string,
    meterEnd: string,
    price: string,
    expectedSale: string,
    observed: bool,
    source: Option<Source>)

  datatype Sale = Sale(id: Id, dispenser: Id, cash: string, cashless: string, createdBy: User)

  datatype Loss = Loss(
    id: Id,
    version: nat,
    loss: Id,
    nozzle: Id,
    direction: string,
    reasonCode: string,
    liters: string,
    cash: Option<string>,
    note: Option<string>,
    createdBy: User)

  datatype EvidenceEvent = EvidenceEvent(id: Id, evidence: Id, lossRow: Id, kind: string, mime: string, status: EvidenceStatus, actor: User)

  datatype Children = Children(
    readings: seq<Reading>,
    sales: seq<Sale>,
    losses: seq<Loss>,
    evidence: seq<EvidenceEvent>)
  {
    function Count(): nat {
      |readings| + |sales| + |losses| + |evidence|
    }
  }

  /** What the stale check hashes: a report's identity and its three kinds of rows. */
  datatype Snapshot = Snapshot(report: Id, version: nat, readings: seq<Reading>, sales: seq<Sale>, losses: seq<Loss>)

  /** The digest of a snapshot, SHA-256 over its JSON in the source. */
  type SnapshotHash = Snapshot -> Digest

  // ----- Governance -----

  datatype Decision = Decision(
    report: Id,
    version: nat,
    ackSeq: nat,
    acked: bool,
    actor: User,
    role: Role,
    rejectionReason: Option<string>,
    breakGlassReason: Option<string>,
    decidedAt: Time)

  datatype Supersession = Supersession(report: Id, replacement: Id)

  datatype AmendmentStatus = Pending | Approved | Rejected

  datatype TargetKind = SalesDeclared | LossEntry | Delivery | DipReading | UnknownKind

  datatype Field = CashAmount | CashlessAmount | Liters | Note | Reference | DeliveryId | DipId | UnknownField

  /** A raw JSON value: a string, null, or any other text. */
  datatype RawJson = Text(text: string) | Null | Raw(raw: string)

  datatype Item = Item(kind: TargetKind, target: Id, field: Field, oldValue: RawJson, newValue: RawJson)

  datatype Amendment = Amendment(
    station: Station,
    shift: Id,
    base: Id,
    status: AmendmentStatus,
    requester: User,
    approver: Option<User>,
    applied: Option<Id>,
    digest: Digest,
    breakGlass: bool,
    items: seq<Item>)

  datatype IdemStatus = InProgress | Succeeded | Failed

  /** The unique key of an idempotency row. */
  datatype IdemKey = IdemKey(station: Station, shift: Id, key: string)

  datatype Idem = Idem(
    requestHash: Digest,
    status: IdemStatus,
    token: Option<Id>,
    lease: Option<Time>,
    attempts: nat,
    result: Option<Id>)

  // ----- The ledger -----

  datatype Tables = Tables(
    nextId: Id,
    enabled: set<Station>,
    grants: set<Grant>,
    shifts: map<Id, Shift>,
    drafts: map<Id, Draft>,
    draftRows: map<Id, DraftRows>,
    lossIds: set<Id>,
    idem: map<IdemKey, Idem>,
    reports: map<Id, Report>,
    children: map<Id, Children>,
    heads: map<Id, Option<Id>>,
    decisions: map<Id, Decision>,
    superseded: map<Id, Supersession>,
    amendments: map<Id, Amendment>)

  /** The states in which a shift occupies its station. */
  predicate IsActive(s: ShiftStatus) {
    s == Open || s == AwaitingConfirmation
  }

  /** The unique index on active shifts: no other shift of the station is active. */
  predicate StationIsFree(shifts: map<Id, Shift>, station: Station, except: Id) {
    forall s | s in shifts && s != except :: shifts[s].station == station ==> !IsActive(shifts[s].status)
  }

  /** The check that a text column holds more than spaces. */
  predicate IsFilled(s: string) {
    exists i :: 0 <= i < |s| && s[i] != ' '
  }

  /** The greatest number of a set, or zero: coalesce(max(column), 0). */
  ghost function CoalesceMax(numbers: set<nat>): (m: nat)
    ensures forall n | n in numbers :: n <= m
    ensures numbers != {} ==> m in numbers
    ensures numbers == {} ==> m == 0
  {
    if numbers == {} then 0
    else
      var n :| n in numbers;
      var rest := CoalesceMax(numbers - {n});
      assert forall k | k in numbers :: k == n || k in numbers - {n};
      if rest > n then rest else n
  }

  function Sequences(shifts: map<Id, Shift>, station: Station): set<nat> {
    set s | s in shifts && shifts[s].station == station :: shifts[s].sequence
  }

  /** A locked shift of the station before a sequence number, with a report where one is demanded. */
  predicate IsEarlierLocked(shift: Shift, station: Station, before: nat, withReport: bool) {
    && shift.station == station && shift.sequence < before && shift.status == Locked
    && (withReport ==> shift.current.Some?)
  }

  /** The last such shift. */
  ghost predicate IsPredecessor(shifts: map<Id, Shift>, station: Station, before: nat, withReport: bool, p: Id) {
    && p in shifts && IsEarlierLocked(shifts[p], station, before, withReport)
    && (forall s | s in shifts && IsEarlierLocked(shifts[s], station, before, withReport)
          :: shifts[s].sequence <= shifts[p].sequence)
  }

  ghost function Predecessor(shifts: map<Id, Shift>, station: Station, before: nat, withReport: bool): (p: Option<Id>)
    ensures p.Some? ==> IsPredecessor(shifts, station, before, withReport, p.value)
    ensures p.None? ==> forall q :: !IsPredecessor(shifts, station, before, withReport, q)
  {
    if q :| IsPredecessor(shifts, station, before, withReport, q) then Some(q) else None
  }

  /** The reading of a report for a nozzle. */
  function ReadingFor(rows: seq<Reading>, nozzle: Id): Option<Reading> {
    if rows == [] then None
    else if rows[0].nozzle == nozzle then Some(rows[0])
    else ReadingFor(rows[1..], nozzle)
  }
}
