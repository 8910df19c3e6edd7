/**
 What opening a shift and working on its draft do to the tables
 (internal/repository/shift, internal/repository/draft). Every function gives
 the new tables or the error that rolls the transaction back.
 */
module DraftSteps {
  import opened Wrappers
  import opened DecimalText
  import opened TextTrim
  import opened LedgerTables

  // ----- Opening a shift -----

  /** A date given as text: none, one that does not parse, or a day. */
  datatype DateText = NoDate | Unreadable | OnDay(day: Day)

  /** The business date is the opening time's day at the station's time zone. */
  datatype OpenRequest = OpenRequest(
    station: Station,
    actor: User,
    openedAt: Time,
    businessDate: Day,
    backfilled: bool,
    eventDate: DateText,
    ordinal: int,
    approver: User,
    reason: string,
    catalog: seq<CatalogItem>)

  /** How many of the two approving roles the approver holds at the station. */
  function ApproverCount(grants: set<Grant>, station: Station, approver: User): nat {
    (if Grant(station, approver, Owner) in grants then 1 else 0) + (if Grant(station, approver, Superadmin) in grants then 1 else 0)
  }

  predicate CarriedForward(c: Children) {
    exists i :: 0 <= i < |c.readings| && c.readings[i].source.Some?
  }

  /** A locked shift of a later day already repeats an earlier shift's readings. */
  predicate LaterChained(t: Tables, station: Station, day: Day) {
    exists s :: s in t.shifts && t.shifts[s].station == station && t.shifts[s].status == Locked
                && t.shifts[s].businessDate > day
                && t.shifts[s].current.Some? && t.shifts[s].current.value in t.children
                && CarriedForward(t.children[t.shifts[s].current.value])
  }

  function BackfillError(t: Tables, q: OpenRequest): Option<Error> {
    if q.backfilled then
      if !q.eventDate.OnDay? || q.approver == 0 || q.ordinal < 1 || TrimSpace(q.reason) == "" then Some(BackfillApprovalRequired)
      else if ApproverCount(t.grants, q.station, q.approver) != 1 then Some(BackfillApprovalRequired)
      else if LaterChained(t, q.station, q.eventDate.day) then Some(BackfillOutOfOrder)
      else None
    else if q.eventDate != NoDate || q.ordinal != 0 || q.approver != 0 || TrimSpace(q.reason) != "" then
      Some(BackfillApprovalRequired)
    else None
  }

  /** The unique index on backfilled shifts. */
  predicate BackfillIsFree(shifts: map<Id, Shift>, station: Station, key: Option<BackfillKey>) {
    key.Some? ==> forall s | s in shifts && shifts[s].station == station :: shifts[s].backfill != key
  }

  function BackfillOf(q: OpenRequest): Option<BackfillKey> {
    if q.backfilled && q.eventDate.OnDay? then Some(BackfillKey(q.eventDate.day, q.ordinal)) else None
  }

  ghost function ShiftOpened(t: Tables, request: OpenRequest): Result<Tables, Error> {
    if request.station !in t.enabled then Failure(ScopeDisabled)
    else if BackfillError(t, request).Some? then Failure(BackfillError(t, request).value)
    else if request.catalog == [] then Failure(NotFound)
    else if !StationIsFree(t.shifts, request.station, 0) || !BackfillIsFree(t.shifts, request.station, BackfillOf(request)) then
      Failure(ConstraintViolation)
    else
      var shiftId, draftId := t.nextId, t.nextId + 1;
      Success(t.(nextId := t.nextId + 2,
                 shifts := t.shifts[shiftId := Shift(request.station, 1 + CoalesceMax(Sequences(t.shifts, request.station)), request.actor,
                                                     Open, None, BackfillOf(request), request.businessDate, request.openedAt,
                                                     None, request.catalog)],
                 drafts := t.drafts[draftId := Draft(request.station, shiftId, Some(request.actor), None, None, Editing, 1)],
                 draftRows := t.draftRows[draftId := DraftRows([], [], [], [])]))
  }

  // ----- The lease -----

  /** The caller holds the draft: same owner, same token, lease not run out. */
  predicate Holds(d: Draft, actor: User, token: Id, now: Time) {
    && d.ownedBy == Some(actor)
    && d.token == Some(token)
    && d.expires.Some? && d.expires.value > now
  }

  function DraftClaimed(t: Tables, draft: Id, shift: Id, actor: User, now: Time): Result<Tables, Error> {
    if draft !in t.drafts || t.drafts[draft].shift != shift then Failure(NotFound)
    else
      var d := t.drafts[draft];
      if d.station !in t.enabled then Failure(ScopeDisabled)
      else if d.expires.Some? && d.expires.value > now && d.ownedBy.Some? && d.ownedBy.value != actor then
        Failure(ClaimExpired)
      else
        Success(t.(nextId := t.nextId + 1,
                   drafts := t.drafts[draft := d.(ownedBy := Some(actor), token := Some(t.nextId),
                                                  expires := Some(now + DRAFT_LEASE), status := Editing)]))
  }

  function LeaseExtended(t: Tables, draft: Id, actor: User, token: Id, now: Time): Result<Tables, Error> {
    if draft !in t.drafts then Failure(NotFound)
    else
      var d := t.drafts[draft];
      if d.station !in t.enabled then Failure(ScopeDisabled)
      else if !Holds(d, actor, token, now) || d.status != Editing then Failure(ClaimExpired)
      else Success(t.(drafts := t.drafts[draft := d.(expires := Some(now + DRAFT_LEASE))]))
  }

  // ----- Revision-fenced writes -----

  datatype Write = Write(draft: Id, actor: User, token: Id, revision: nat)

  datatype Row =
    | ReadingRow(nozzle: Id, meterStart: string, meterEnd: string)
    | SaleRow(dispenser: Id, cash: string, cashless: string)
    | LossRow(loss: Id, direction: string, reasonCode: string, liters: string, lossCash: string, note: string)
    | EvidenceRow(lossRow: Id, kind: string, mime: string)

  /** The guard shared by the four writes. */
  function MutationError(t: Tables, w: Write, now: Time): Option<Error> {
    if w.draft !in t.drafts then Some(NotFound)
    else
      var d := t.drafts[w.draft];
      if d.station !in t.enabled then Some(ScopeDisabled)
      else if !Holds(d, w.actor, w.token, now) then Some(ClaimExpired)
      else if d.revision != w.revision then Some(RevisionConflict)
      else None
  }

  /** The unique keys, the checks and the foreign key of the four draft tables. */
  predicate RowFits(rows: DraftRows, row: Row) {
    match row
    case ReadingRow(nozzle, s, e) =>
      (forall i | 0 <= i < |rows.readings| :: rows.readings[i].nozzle != nozzle) && IsDecimal(s) && IsDecimal(e)
    case SaleRow(dispenser, c, l) =>
      (forall i | 0 <= i < |rows.sales| :: rows.sales[i].dispenser != dispenser) && IsDecimal(c) && IsDecimal(l)
    case LossRow(loss, direction, reasonCode, liters, cash, _) =>
      && (forall i | 0 <= i < |rows.losses| :: rows.losses[i].loss != loss) && (direction == "loss" || direction == "gain")
      && IsFilled(reasonCode) && IsDecimal(liters) && (cash == "" || IsDecimal(cash))
    case EvidenceRow(lossRow, kind, mime) =>
      (exists i :: 0 <= i < |rows.losses| && rows.losses[i].row == lossRow) && IsFilled(kind) && IsFilled(mime)
  }

  function WithRow(rows: DraftRows, row: Row, id: Id, actor: User): DraftRows {
    match row
    case ReadingRow(nozzle, s, e) =>
      rows.(readings := rows.readings + [DraftReading(id, nozzle, s, e, actor)])
    case SaleRow(dispenser, c, l) =>
      rows.(sales := rows.sales + [DraftSale(id, dispenser, c, l, actor)])
    case LossRow(loss, direction, reason, liters, cash, note) =>
      rows.(losses := rows.losses + [DraftLoss(id, loss, direction, reason, liters,
                                               if cash == "" then None else Some(cash),
                                               if note == "" then None else Some(note), actor)])
    case EvidenceRow(lossRow, kind, mime) =>
      rows.(evidence := rows.evidence + [Staged(id, lossRow, kind, mime, Uploaded, actor)])
  }

  function RowWritten(t: Tables, w: Write, row: Row, now: Time): Result<Tables, Error> {
    var error := MutationError(t, w, now);
    if error.Some? then Failure(error.value)
    else if w.draft !in t.draftRows || !RowFits(t.draftRows[w.draft], row) then Failure(ConstraintViolation)
    else
      var d := t.drafts[w.draft];
      Success(t.(nextId := t.nextId + 1,
                 drafts := t.drafts[w.draft := d.(revision := d.revision + 1)],
                 draftRows := t.draftRows[w.draft := WithRow(t.draftRows[w.draft], row, t.nextId, w.actor)]))
  }
}
