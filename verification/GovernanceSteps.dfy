/**
 What acknowledgements and amendments do to the tables
 (internal/repository/governance).
 */
module GovernanceSteps {
  import opened Wrappers
  import opened DecimalText
  import opened TextTrim
  import opened LedgerTables

  // ----- Acknowledgement -----

  datatype AckRequest = AckRequest(
    station: Station,
    shift: Id,
    report: Id,
    version: nat,
    actor: User,
    role: Role,
    acked: bool,
    rejectionReason: string,
    breakGlass: bool,
    breakGlassReason: string)

  predicate IsApprover(role: Role) {
    role == StationAdmin || role == Owner || role == Superadmin
  }

  /** The actor entered a sale or a loss of the report. */
  predicate CreatedRows(c: Children, actor: User) {
    || (exists i :: 0 <= i < |c.sales| && c.sales[i].createdBy == actor)
    || (exists i :: 0 <= i < |c.losses| && c.losses[i].createdBy == actor)
  }

  datatype Reasons = Reasons(rejection: Option<string>, breakGlass: Option<string>)

  function AckReasons(q: AckRequest): Result<Reasons, Error> {
    var rejection, emergency := TrimSpace(q.rejectionReason), TrimSpace(q.breakGlassReason);
    if !q.acked && rejection == "" then Failure(RejectionReasonRequired)
    else if q.acked && rejection != "" then Failure(UnexpectedRejectionReason)
    else if q.breakGlass && q.role != Owner && q.role != Superadmin then Failure(AckRoleRequired)
    else if q.breakGlass && emergency == "" then Failure(BreakGlassReasonRequired)
    else if !q.breakGlass && emergency != "" then Failure(UnexpectedBreakGlassReason)
    else Success(Reasons(if q.acked then None else Some(rejection), if q.breakGlass then Some(emergency) else None))
  }

  function AckSequences(decisions: map<Id, Decision>, report: Id): set<nat> {
    set k | k in decisions && decisions[k].report == report :: decisions[k].ackSeq
  }

  function AckError(t: Tables, q: AckRequest): Option<Error> {
    if q.station !in t.enabled then Some(ScopeDisabled)
    else if q.shift !in t.shifts || t.shifts[q.shift].station != q.station then Some(AckReportNotFound)
    else if t.shifts[q.shift].current != Some(q.report) || t.shifts[q.shift].status != AwaitingConfirmation then
      Some(AckReportUnavailable)
    else if q.report !in t.reports || t.reports[q.report].shift != q.shift || t.reports[q.report].version != q.version then
      Some(AckReportNotFound)
    else if q.report !in t.heads || q.report !in t.children then Some(AckReportNotFound)
    else if Grant(q.station, q.actor, q.role) !in t.grants || !IsApprover(q.role) then Some(AckRoleRequired)
    else if t.reports[q.report].submittedBy == q.actor || CreatedRows(t.children[q.report], q.actor) then
      Some(AckSeparationRequired)
    else if t.heads[q.report].Some? then Some(AckAlreadyDecided)
    else if AckReasons(q).Failure? then Some(AckReasons(q).error)
    else None
  }

  ghost function Acknowledged(t: Tables, q: AckRequest, now: Time): Result<Tables, Error> {
    if AckError(t, q).Some? then Failure(AckError(t, q).value)
    else
      var ack := t.nextId;
      var reasons := AckReasons(q).value;
      var decision := Decision(q.report, q.version, CoalesceMax(AckSequences(t.decisions, q.report)) + 1, q.acked, q.actor,
                               q.role, reasons.rejection, reasons.breakGlass, now);
      Success(t.(nextId := ack + 1,
                 decisions := t.decisions[ack := decision],
                 heads := t.heads[q.report := Some(ack)],
                 shifts := t.shifts[q.shift := t.shifts[q.shift].(status := if q.acked then Locked else NeedsCorrection)]))
  }

  // ----- Requesting and rejecting an amendment -----

  datatype AmendRequest = AmendRequest(
    station: Station,
    shift: Id,
    base: Id,
    requester: User,
    reason: string,
    breakGlass: bool,
    breakGlassReason: string,
    items: seq<Item>)

  /** The checks on an amendment's reasons: one reason always, a second one exactly under break-glass. */
  predicate ReasonsFit(q: AmendRequest) {
    TrimSpace(q.reason) != "" && (q.breakGlass <==> TrimSpace(q.breakGlassReason) != "")
  }

  predicate FieldAllowed(kind: TargetKind, field: Field) {
    match kind
    case SalesDeclared => field == CashAmount || field == CashlessAmount
    case LossEntry => field == Liters || field == CashAmount || field == Note
    case Delivery => field == Reference || field == DeliveryId
    case DipReading => field == Reference || field == DipId
    case UnknownKind => false
  }

  predicate ItemAllowed(item: Item) {
    item.target != 0 && FieldAllowed(item.kind, item.field) && item.oldValue != Raw("")
  }

  predicate SameTarget(a: Item, b: Item) {
    a.kind == b.kind && a.target == b.target && a.field == b.field
  }

  /** The unique key of the item table: one item for each field of a target. */
  predicate ItemsDistinct(items: seq<Item>) {
    forall i, j | 0 <= i < j < |items| :: !SameTarget(items[i], items[j])
  }

  predicate HasPending(amendments: map<Id, Amendment>, base: Id) {
    exists a :: a in amendments && amendments[a].base == base && amendments[a].status == Pending
  }

  function SnapshotOf(report: Id, version: nat, c: Children): Snapshot {
    Snapshot(report, version, c.readings, c.sales, c.losses)
  }

  function RequestError(t: Tables, q: AmendRequest): Option<Error> {
    if q.station !in t.enabled then Some(ScopeDisabled)
    else if q.shift !in t.shifts || t.shifts[q.shift].station != q.station then Some(AmendmentBaseUnavailable)
    else if t.shifts[q.shift].current != Some(q.base) || t.shifts[q.shift].status == Open then
      Some(AmendmentBaseUnavailable)
    else if q.base !in t.reports || t.reports[q.base].shift != q.shift || q.base !in t.children then
      Some(AmendmentBaseUnavailable)
    else if Grant(q.station, q.requester, Supervisor) !in t.grants then Some(AmendmentRoleRequired)
    else if HasPending(t.amendments, q.base) then Some(AmendmentPendingExists)
    else if exists i :: 0 <= i < |q.items| && !ItemAllowed(q.items[i]) then Some(AmendmentFieldForbidden)
    else if !ReasonsFit(q) || !ItemsDistinct(q.items) then Some(ConstraintViolation)
    else None
  }

  function AmendmentRequested(t: Tables, q: AmendRequest, hash: SnapshotHash): Result<Tables, Error> {
    if RequestError(t, q).Some? then Failure(RequestError(t, q).value)
    else
      var digest := hash(SnapshotOf(q.base, t.reports[q.base].version, t.children[q.base]));
      var amendment := Amendment(q.station, q.shift, q.base, Pending, q.requester, None, None, digest, q.breakGlass, q.items);
      Success(t.(nextId := t.nextId + 1, amendments := t.amendments[t.nextId := amendment]))
  }

  /** The guards both decisions on an amendment share, up to its pending status. */
  function DecideError(t: Tables, station: Station, amendment: Id, approver: User, role: Role): Option<Error> {
    if station !in t.enabled then Some(ScopeDisabled)
    else if amendment !in t.amendments || t.amendments[amendment].station != station then Some(AmendmentNotFound)
    else if Grant(station, approver, role) !in t.grants || !IsApprover(role) then Some(AmendmentRoleRequired)
    else if t.amendments[amendment].status != Pending then Some(AmendmentNotPending)
    else None
  }

  function AmendmentRejected(t: Tables, station: Station, amendment: Id, approver: User, role: Role, reason: string): Result<Tables, Error> {
    if DecideError(t, station, amendment, approver, role).Some? then
      Failure(DecideError(t, station, amendment, approver, role).value)
    else
      var a := t.amendments[amendment];
      if a.requester == approver then Failure(AmendmentSeparationRequired)
      else if TrimSpace(reason) == "" then Failure(AmendmentReasonRequired)
      else Success(t.(amendments := t.amendments[amendment := a.(status := Rejected, approver := Some(approver))]))
  }

  // ----- Applying items -----

  /** The stored JSON equals a column's text; null reads as the empty text. */
  predicate JsonValueEquals(raw: RawJson, value: string) {
    match raw
    case Text(text) => text == value
    case Null => value == ""
    case Raw(r) => r == value
  }

  function AmendmentDecimalValue(raw: RawJson): Option<string> {
    var text := match raw
                case Text(text) => text
                case Null => ""
                case Raw(r) => TrimSpace(r);
    if IsSignedDecimal(text) then Some(text) else None
  }

  function TextOr(o: Option<string>): string {
    if o.Some? then o.value else ""
  }

  function SaleNamed(sales: seq<Sale>, id: Id): Option<Sale> {
    if sales == [] then None
    else if sales[0].id == id then Some(sales[0])
    else SaleNamed(sales[1..], id)
  }

  function LossNamed(losses: seq<Loss>, id: Id): Option<Loss> {
    if losses == [] then None
    else if losses[0].id == id then Some(losses[0])
    else LossNamed(losses[1..], id)
  }

  function ItemError(c: Children, item: Item): Option<Error> {
    if !FieldAllowed(item.kind, item.field) then Some(AmendmentFieldForbidden)
    else
      match item.kind
      case SalesDeclared =>
        (match SaleNamed(c.sales, item.target)
         case None => Some(AmendmentTargetNotFound)
         case Some(sale) =>
           var was := if item.field == CashlessAmount then sale.cashless else sale.cash;
           if JsonValueEquals(item.oldValue, was) then None else Some(AmendmentStale))
      case LossEntry =>
        (match LossNamed(c.losses, item.target)
         case None => Some(AmendmentTargetNotFound)
         case Some(loss) =>
           var was := match item.field
                      case Liters => loss.liters
                      case CashAmount => TextOr(loss.cash)
                      case _ => TextOr(loss.note);
           if JsonValueEquals(item.oldValue, was) then None else Some(AmendmentStale))
      case _ => None
  }

  /** The first item that does not fit the base report. */
  function ItemsError(c: Children, items: seq<Item>): Option<Error> {
    if items == [] then None
    else
      var last := |items| - 1;
      var earlier := ItemsError(c, items[..last]);
      if earlier.Some? then earlier else ItemError(c, items[last])
  }

  function SaleWithItem(sale: Sale, item: Item): Result<Sale, Error> {
    if item.kind != SalesDeclared then Success(sale)
    else
      match AmendmentDecimalValue(item.newValue)
      case None => Failure(AmendmentFieldForbidden)
      case Some(value) =>
        if item.field == CashAmount then Success(sale.(cash := value))
        else if item.field == CashlessAmount then Success(sale.(cashless := value))
        else Success(sale)
  }

  /** The sale after the items that name it, in their order. */
  function AmendedSale(sale: Sale, items: seq<Item>): Result<Sale, Error> {
    if items == [] then Success(sale)
    else
      var last := |items| - 1;
      match AmendedSale(sale, items[..last])
      case Failure(e) => Failure(e)
      case Success(s) => if items[last].target == sale.id then SaleWithItem(s, items[last]) else Success(s)
  }

  function LossWithItem(loss: Loss, item: Item): Result<Loss, Error> {
    if item.kind != LossEntry then Success(loss)
    else
      match item.field
      case Liters =>
        (match AmendmentDecimalValue(item.newValue)
         case None => Failure(AmendmentFieldForbidden)
         case Some(value) => Success(loss.(liters := value)))
      case CashAmount =>
        (match AmendmentDecimalValue(item.newValue)
         case None => Failure(AmendmentFieldForbidden)
         case Some(value) => Success(loss.(cash := Some(value))))
      case Note =>
        (match item.newValue
         case Null => Success(loss.(note := None))
         case Text(text) => Success(loss.(note := Some(text)))
         case Raw(_) => Failure(AmendmentFieldForbidden))
      case _ => Success(loss)
  }

  function AmendedLoss(loss: Loss, items: seq<Item>): Result<Loss, Error> {
    if items == [] then Success(loss)
    else
      var last := |items| - 1;
      match AmendedLoss(loss, items[..last])
      case Failure(e) => Failure(e)
      case Success(l) => if items[last].target == loss.id then LossWithItem(l, items[last]) else Success(l)
  }

  /** The check constraints on money and volume columns. */
  predicate SaleFits(s: Sale) {
    IsDecimal(s.cash) && IsDecimal(s.cashless)
  }

  predicate LossFits(l: Loss) {
    IsDecimal(l.liters) && (l.cash.Some? ==> IsDecimal(l.cash.value))
  }

  function CopiedReadings(readings: seq<Reading>, firstId: Id): (copies: seq<Reading>)
    ensures |copies| == |readings|
  {
    seq(|readings|, i requires 0 <= i < |readings| => readings[i].(id := firstId + i))
  }

  function CopiedSales(sales: seq<Sale>, items: seq<Item>, firstId: Id): Result<seq<Sale>, Error> {
    if sales == [] then Success([])
    else
      var last := |sales| - 1;
      match CopiedSales(sales[..last], items, firstId)
      case Failure(e) => Failure(e)
      case Success(done) =>
        match AmendedSale(sales[last], items)
        case Failure(e) => Failure(e)
        case Success(s) =>
          if !SaleFits(s) then Failure(ConstraintViolation) else Success(done + [s.(id := firstId + last)])
  }

  function CopiedLosses(losses: seq<Loss>, items: seq<Item>, version: nat, firstId: Id): Result<seq<Loss>, Error> {
    if losses == [] then Success([])
    else
      var last := |losses| - 1;
      match CopiedLosses(losses[..last], items, version, firstId)
      case Failure(e) => Failure(e)
      case Success(done) =>
        match AmendedLoss(losses[last], items)
        case Failure(e) => Failure(e)
        case Success(l) =>
          if !LossFits(l) then Failure(ConstraintViolation)
          else Success(done + [l.(id := firstId + last, version := version)])
  }

  /** The rows of the next version: readings as they were, sales and losses with the items applied. */
  function CopiedChildren(c: Children, items: seq<Item>, version: nat, firstId: Id): Result<Children, Error> {
    match CopiedSales(c.sales, items, firstId + |c.readings|)
    case Failure(e) => Failure(e)
    case Success(sales) =>
      match CopiedLosses(c.losses, items, version, firstId + |c.readings| + |c.sales|)
      case Failure(e) => Failure(e)
      case Success(losses) => Success(Children(CopiedReadings(c.readings, firstId), sales, losses, []))
  }

  // ----- Approving an amendment -----

  datatype ApproveRequest = ApproveRequest(station: Station, amendment: Id, approver: User, role: Role, staleCheck: Digest)

  function ApproveError(t: Tables, q: ApproveRequest, hash: SnapshotHash): Option<Error> {
    if DecideError(t, q.station, q.amendment, q.approver, q.role).Some? then
      DecideError(t, q.station, q.amendment, q.approver, q.role)
    else
      var a := t.amendments[q.amendment];
      if a.requester == q.approver && !a.breakGlass then Some(AmendmentSeparationRequired)
      else if a.shift !in t.shifts || t.shifts[a.shift].station != a.station then Some(AmendmentBaseUnavailable)
      else if t.shifts[a.shift].current != Some(a.base) then Some(AmendmentBaseUnavailable)
      else if a.base !in t.reports || t.reports[a.base].shift != a.shift || a.base !in t.children then
        Some(AmendmentBaseUnavailable)
      else
        var digest := hash(SnapshotOf(a.base, t.reports[a.base].version, t.children[a.base]));
        if |q.staleCheck| != DIGEST_LENGTH || q.staleCheck != digest || a.digest != digest then Some(AmendmentStale)
        else if ItemsError(t.children[a.base], a.items).Some? then ItemsError(t.children[a.base], a.items)
        else if a.base !in t.heads then Some(AmendmentBaseUnavailable)
        else None
  }

  /** The tables with the next version of the amended report and everything that goes with it. */
  function WithVersion(t: Tables, amendment: Id, approver: User, children: Children): Tables
    requires amendment in t.amendments
    requires t.amendments[amendment].base in t.reports && t.amendments[amendment].base in t.heads
    requires t.amendments[amendment].shift in t.shifts
  {
    var a := t.amendments[amendment];
    var report := t.nextId;
    var head := t.heads[a.base];
    t.(nextId := report + 1 + children.Count(),
       reports := t.reports[report := Report(a.shift, t.reports[a.base].version + 1, Some(a.base), approver)],
       children := t.children[report := children],
       heads := t.heads[report := None][a.base := None],
       superseded := if head.Some? then t.superseded[head.value := Supersession(a.base, report)] else t.superseded,
       shifts := t.shifts[a.shift := t.shifts[a.shift].(current := Some(report), status := AwaitingConfirmation)],
       amendments := t.amendments[amendment := a.(status := Approved, approver := Some(approver), applied := Some(report))])
  }

  function AmendmentApproved(t: Tables, q: ApproveRequest, hash: SnapshotHash, now: Time): Result<Tables, Error> {
    if ApproveError(t, q, hash).Some? then Failure(ApproveError(t, q, hash).value)
    else
      var a := t.amendments[q.amendment];
      var version := t.reports[a.base].version + 1;
      match CopiedChildren(t.children[a.base], a.items, version, t.nextId + 1)
      case Failure(e) => Failure(e)
      case Success(children) =>
        if !StationIsFree(t.shifts, a.station, a.shift) then Failure(ConstraintViolation)
        else Success(WithVersion(t, q.amendment, q.approver, children))
  }
}
