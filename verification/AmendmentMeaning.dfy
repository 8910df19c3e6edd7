/** An approved amendment changes exactly what its items say. */
module AmendmentMeaning {
  import opened Wrappers
  import opened DecimalText
  import opened LedgerTables
  import opened GovernanceSteps
  import opened LedgerInvariant
  import opened LedgerSteps

  // ----- What each row becomes -----

  predicate Names(item: Item, kind: TargetKind, target: Id, field: Field) {
    item.kind == kind && item.target == target && item.field == field
  }

  /** The last item that names a field of a target. */
  function LastItem(items: seq<Item>, kind: TargetKind, target: Id, field: Field): Option<Item> {
    if items == [] then None
    else if Names(items[|items| - 1], kind, target, field) then Some(items[|items| - 1])
    else LastItem(items[..|items| - 1], kind, target, field)
  }

  /** The column's text after the amendment: the named value if there is one, else what it was. */
  function Column(named: Option<Item>, was: string): Option<string> {
    if named.Some? then AmendmentDecimalValue(named.value.newValue) else Some(was)
  }

  function OptionalColumn(named: Option<Item>, was: Option<string>): Option<Option<string>> {
    if named.None? then Some(was)
    else if AmendmentDecimalValue(named.value.newValue).Some? then Some(AmendmentDecimalValue(named.value.newValue))
    else None
  }

  /** A note becomes the named text, or goes away when the new value is null. */
  function NoteColumn(named: Option<Item>, was: Option<string>): Option<Option<string>> {
    if named.None? then Some(was)
    else
      match named.value.newValue
      case Null => Some(None)
      case Text(text) => Some(Some(text))
      case Raw(_) => None
  }

  /** A sale after an amendment: only the named amounts differ. */
  ghost predicate IsAmendedSale(was: Sale, items: seq<Item>, now: Sale) {
    && now.dispenser == was.dispenser && now.createdBy == was.createdBy
    && Column(LastItem(items, SalesDeclared, was.id, CashAmount), was.cash) == Some(now.cash)
    && Column(LastItem(items, SalesDeclared, was.id, CashlessAmount), was.cashless) == Some(now.cashless)
  }

  /** A loss after an amendment: only the named volume, amount and note differ. */
  ghost predicate IsAmendedLoss(was: Loss, items: seq<Item>, now: Loss) {
    && now.loss == was.loss && now.nozzle == was.nozzle && now.direction == was.direction
    && now.reasonCode == was.reasonCode && now.createdBy == was.createdBy
    && Column(LastItem(items, LossEntry, was.id, Liters), was.liters) == Some(now.liters)
    && OptionalColumn(LastItem(items, LossEntry, was.id, CashAmount), was.cash) == Some(now.cash)
    && NoteColumn(LastItem(items, LossEntry, was.id, Note), was.note) == Some(now.note)
  }

  lemma {:induction false} SaleMeaning(sale: Sale, items: seq<Item>)
    requires AmendedSale(sale, items).Success?
    ensures AmendedSale(sale, items).value.id == sale.id
    ensures IsAmendedSale(sale, items, AmendedSale(sale, items).value)
  {
    hide AmendmentDecimalValue;
    if items != [] {
      SaleMeaning(sale, items[..|items| - 1]);
    }
  }

  lemma {:induction false} LossMeaning(loss: Loss, items: seq<Item>)
    requires AmendedLoss(loss, items).Success?
    ensures AmendedLoss(loss, items).value.id == loss.id
    ensures IsAmendedLoss(loss, items, AmendedLoss(loss, items).value)
  {
    hide AmendmentDecimalValue;
    if items != [] {
      LossMeaning(loss, items[..|items| - 1]);
    }
  }

  lemma {:induction false} SalesMeaning(sales: seq<Sale>, items: seq<Item>, firstId: Id)
    requires CopiedSales(sales, items, firstId).Success?
    ensures var copies := CopiedSales(sales, items, firstId).value;
            |copies| == |sales|
            && forall i | 0 <= i < |sales| :: IsAmendedSale(sales[i], items, copies[i]) && SaleFits(copies[i])
  {
    hide AmendedSale, IsDecimal, LastItem, Column;
    if sales != [] {
      var last := |sales| - 1;
      SalesMeaning(sales[..last], items, firstId);
      SaleMeaning(sales[last], items);
    }
  }

  lemma {:induction false} LossesMeaning(losses: seq<Loss>, items: seq<Item>, version: nat, firstId: Id)
    requires CopiedLosses(losses, items, version, firstId).Success?
    ensures var copies := CopiedLosses(losses, items, version, firstId).value;
            |copies| == |losses|
            && forall i | 0 <= i < |losses| ::
                 IsAmendedLoss(losses[i], items, copies[i]) && copies[i].version == version && LossFits(copies[i])
  {
    hide AmendedLoss, IsDecimal, LastItem, Column, OptionalColumn, NoteColumn;
    if losses != [] {
      var last := |losses| - 1;
      LossesMeaning(losses[..last], items, version, firstId);
      LossMeaning(losses[last], items);
    }
  }

  /** Two readings that say the same about the same nozzle. */
  ghost predicate SameReading(a: Reading, b: Reading) {
    a.(id := 0) == b.(id := 0)
  }

  /** The rows of a version against those of its base. */
  ghost predicate IsAmendment(base: Children, items: seq<Item>, version: nat, next: Children) {
    && |next.readings| == |base.readings| && |next.sales| == |base.sales| && |next.losses| == |base.losses|
    && (forall i | 0 <= i < |base.readings| :: SameReading(base.readings[i], next.readings[i]))
    && (forall i | 0 <= i < |base.sales| :: IsAmendedSale(base.sales[i], items, next.sales[i]))
    && (forall i | 0 <= i < |base.losses| ::
          IsAmendedLoss(base.losses[i], items, next.losses[i]) && next.losses[i].version == version)
    && next.evidence == []
  }

  lemma CopyMeaning(c: Children, items: seq<Item>, version: nat, firstId: Id)
    requires CopiedChildren(c, items, version, firstId).Success?
    ensures IsAmendment(c, items, version, CopiedChildren(c, items, version, firstId).value)
  {
    hide CopiedSales, CopiedLosses, IsAmendedSale, IsAmendedLoss, SaleFits, LossFits;
    SalesMeaning(c.sales, items, firstId + |c.readings|);
    LossesMeaning(c.losses, items, version, firstId + |c.readings| + |c.sales|);
    var readings := CopiedReadings(c.readings, firstId);
    assert forall i | 0 <= i < |c.readings| :: readings[i] == c.readings[i].(id := firstId + i);
  }

  /**
   A new current version whose rows are the base's with the items applied, every
   earlier report left as it was, and the shift back to awaiting its decision.
   */
  ghost predicate IsNextVersion(t: Tables, a: Amendment, approver: User, t': Tables) {
    var n := t.nextId;
    && a.base in t.reports && a.base in t.children
    && n !in t.reports && t'.reports.Keys == t.reports.Keys + {n}
    && (forall r | r in t.reports :: t'.reports[r] == t.reports[r])
    && (forall r | r in t.children :: r in t'.children && t'.children[r] == t.children[r])
    && t'.reports[n] == Report(a.shift, t.reports[a.base].version + 1, Some(a.base), approver)
    && n in t'.children && IsAmendment(t.children[a.base], a.items, t.reports[a.base].version + 1, t'.children[n])
    && a.shift in t'.shifts && t'.shifts[a.shift].current == Some(n) && t'.shifts[a.shift].status == AwaitingConfirmation
  }

  /** What an approval does. */
  lemma ApprovalMeaning(t: Tables, q: ApproveRequest, hash: SnapshotHash, now: Time, t': Tables)
    requires Inv(t, hash) && AmendmentApproved(t, q, hash, now) == Success(t')
    ensures q.amendment in t.amendments && IsNextVersion(t, t.amendments[q.amendment], q.approver, t')
  {
    hide KeysOk, ShiftsOk, DraftsOk, RevisionsOk, ReportsOk, CurrentOk, HeadsOk, StatusOk, DecisionsOk, SeparationOk,
      PendingOk, DigestsOk, AppliedOk, OriginOk, IdemOk, IdemKeysOk, ItemsOk, RowIdsOk, CopiedChildren, IsAmendment, ItemsError,
      SnapshotOf, StationIsFree;
    var a := t.amendments[q.amendment];
    FreshKey(t, t.nextId);
    ApproveFacts(t, q, hash, now);
    hide ApproveError, ApprovalReady;
    CopyMeaning(t.children[a.base], a.items, t.reports[a.base].version + 1, t.nextId + 1);
  }

  // ----- The order of items -----

  predicate NewValueFits(item: Item) {
    match item.kind
    case SalesDeclared => AmendmentDecimalValue(item.newValue).Some?
    case _ => true
  }

  /** A sale is refused exactly when some item that names it has no decimal to give. */
  lemma {:induction false} SaleRefusedIff(sale: Sale, items: seq<Item>)
    ensures AmendedSale(sale, items).Success? <==>
            forall i | 0 <= i < |items| && items[i].target == sale.id :: NewValueFits(items[i])
    ensures AmendedSale(sale, items).Failure? ==> AmendedSale(sale, items).error == AmendmentFieldForbidden
  {
    hide AmendmentDecimalValue;
    if items != [] {
      var last := |items| - 1;
      SaleRefusedIff(sale, items[..last]);
      assert forall i | 0 <= i < |items| :: i == last || items[i] == items[..last][i];
      assert forall i | 0 <= i < last :: items[..last][i] == items[i];
    }
  }

  /** With one item for each field, the last item that names a field is the item that names it. */
  lemma {:induction false} TheItem(items: seq<Item>, kind: TargetKind, target: Id, field: Field, i: nat)
    requires ItemsDistinct(items) && i < |items| && Names(items[i], kind, target, field)
    ensures LastItem(items, kind, target, field) == Some(items[i])
  {
    var last := |items| - 1;
    if i < last {
      assert SameTarget(items[i], items[last]) || !Names(items[last], kind, target, field);
      TheItem(items[..last], kind, target, field, i);
    }
  }

  lemma {:induction false} NoItem(items: seq<Item>, kind: TargetKind, target: Id, field: Field)
    ensures LastItem(items, kind, target, field).None? <==>
            forall i | 0 <= i < |items| :: !Names(items[i], kind, target, field)
    ensures var l := LastItem(items, kind, target, field);
            l.Some? ==> l.value in items && Names(l.value, kind, target, field)
  {
    if items != [] {
      var last := |items| - 1;
      NoItem(items[..last], kind, target, field);
      assert forall i | 0 <= i < last :: items[..last][i] == items[i];
    }
  }

  /** The same items in another order. */
  ghost predicate Reordered(items: seq<Item>, items': seq<Item>) {
    && ItemsDistinct(items) && ItemsDistinct(items')
    && (forall x :: x in items <==> x in items')
  }

  lemma SameLastItem(items: seq<Item>, items': seq<Item>, kind: TargetKind, target: Id, field: Field)
    requires Reordered(items, items')
    ensures LastItem(items, kind, target, field) == LastItem(items', kind, target, field)
  {
    hide ItemsDistinct, LastItem, Names;
    NoItem(items, kind, target, field);
    NoItem(items', kind, target, field);
    var l := LastItem(items, kind, target, field);
    if l.Some? {
      assert l.value in items';
      var i :| 0 <= i < |items'| && items'[i] == l.value;
      TheItem(items', kind, target, field, i);
    } else {
      assert forall i | 0 <= i < |items'| :: items'[i] in items;
    }
  }

  /** The order in which the items are read back makes no difference to a sale. */
  lemma ItemOrderIsIrrelevant(sale: Sale, items: seq<Item>, items': seq<Item>)
    requires Reordered(items, items')
    ensures AmendedSale(sale, items) == AmendedSale(sale, items')
  {
    hide ItemsDistinct, LastItem, AmendedSale, NewValueFits, Column;
    SaleRefusedIff(sale, items);
    SaleRefusedIff(sale, items');
    assert forall i | 0 <= i < |items'| :: items'[i] in items;
    assert forall i | 0 <= i < |items| :: items[i] in items';
    SameLastItem(items, items', SalesDeclared, sale.id, CashAmount);
    SameLastItem(items, items', SalesDeclared, sale.id, CashlessAmount);
    if AmendedSale(sale, items).Success? {
      SaleMeaning(sale, items);
      SaleMeaning(sale, items');
    }
  }

  predicate NewLossValueFits(item: Item) {
    if item.kind != LossEntry then true
    else
      match item.field
      case Liters => AmendmentDecimalValue(item.newValue).Some?
      case CashAmount => AmendmentDecimalValue(item.newValue).Some?
      case Note => !item.newValue.Raw?
      case _ => true
  }

  /** A loss is refused exactly when some item that names it has a value its column cannot take. */
  lemma {:induction false} LossRefusedIff(loss: Loss, items: seq<Item>)
    ensures AmendedLoss(loss, items).Success? <==>
            forall i | 0 <= i < |items| && items[i].target == loss.id :: NewLossValueFits(items[i])
    ensures AmendedLoss(loss, items).Failure? ==> AmendedLoss(loss, items).error == AmendmentFieldForbidden
  {
    hide AmendmentDecimalValue;
    if items != [] {
      var last := |items| - 1;
      LossRefusedIff(loss, items[..last]);
      assert forall i | 0 <= i < |items| :: i == last || items[i] == items[..last][i];
      assert forall i | 0 <= i < last :: items[..last][i] == items[i];
    }
  }

  lemma LossOrderIsIrrelevant(loss: Loss, items: seq<Item>, items': seq<Item>)
    requires Reordered(items, items')
    ensures AmendedLoss(loss, items).Success? <==> AmendedLoss(loss, items').Success?
    ensures AmendedLoss(loss, items).Success? ==>
              AmendedLoss(loss, items).value.(version := 0) == AmendedLoss(loss, items').value.(version := 0)
  {
    hide ItemsDistinct, LastItem, AmendedLoss, NewLossValueFits, Column, OptionalColumn, NoteColumn;
    LossRefusedIff(loss, items);
    LossRefusedIff(loss, items');
    assert forall i | 0 <= i < |items'| :: items'[i] in items;
    assert forall i | 0 <= i < |items| :: items[i] in items';
    SameLastItem(items, items', LossEntry, loss.id, Liters);
    SameLastItem(items, items', LossEntry, loss.id, CashAmount);
    SameLastItem(items, items', LossEntry, loss.id, Note);
    if AmendedLoss(loss, items).Success? {
      LossMeaning(loss, items);
      LossMeaning(loss, items');
    }
  }

  // ----- Conservation of the declared total -----

  ghost function Amount(text: string): real {
    if IsSignedDecimal(text) then SignedValue(text) else 0.0
  }

  ghost function Declared(s: Sale): real {
    Amount(s.cash) + Amount(s.cashless)
  }

  ghost function TotalDeclared(sales: seq<Sale>): real {
    if sales == [] then 0.0 else Declared(sales[0]) + TotalDeclared(sales[1..])
  }

  /** New amount minus old amount, for the field of the sale the item names. */
  ghost function ChangeTo(sale: Sale, item: Item): real {
    if item.kind == SalesDeclared && item.target == sale.id && AmendmentDecimalValue(item.newValue).Some? then
      var value := Amount(AmendmentDecimalValue(item.newValue).value);
      if item.field == CashAmount then value - Amount(sale.cash)
      else if item.field == CashlessAmount then value - Amount(sale.cashless)
      else 0.0
    else 0.0
  }

  /** What an item changes in a report with these sales. */
  ghost function ItemChange(sales: seq<Sale>, item: Item): real {
    if SaleNamed(sales, item.target).Some? then ChangeTo(SaleNamed(sales, item.target).value, item) else 0.0
  }

  ghost function TotalChange(sales: seq<Sale>, items: seq<Item>): real {
    if items == [] then 0.0
    else TotalChange(sales, items[..|items| - 1]) + ItemChange(sales, items[|items| - 1])
  }

  ghost function SaleChange(sale: Sale, items: seq<Item>): real {
    if items == [] then 0.0
    else SaleChange(sale, items[..|items| - 1]) + ChangeTo(sale, items[|items| - 1])
  }

  ghost function SumOfChanges(sales: seq<Sale>, items: seq<Item>): real {
    if sales == [] then 0.0 else SaleChange(sales[0], items) + SumOfChanges(sales[1..], items)
  }

  lemma FieldNotYetNamed(sale: Sale, items: seq<Item>)
    requires items != [] && ItemsDistinct(items)
    ensures var item := items[|items| - 1];
            LastItem(items[..|items| - 1], item.kind, item.target, item.field).None?
  {
    var last := |items| - 1;
    NoItem(items[..last], items[last].kind, items[last].target, items[last].field);
    forall i | 0 <= i < last
      ensures !Names(items[..last][i], items[last].kind, items[last].target, items[last].field)
    {
      assert !SameTarget(items[i], items[last]);
    }
  }

  /** One sale moves by the changes of the items that name it. */
  lemma {:induction false} SaleMoves(sale: Sale, items: seq<Item>)
    requires AmendedSale(sale, items).Success? && ItemsDistinct(items)
    ensures Declared(AmendedSale(sale, items).value) == Declared(sale) + SaleChange(sale, items)
  {
    hide AmendmentDecimalValue, Amount;
    if items != [] {
      var last := |items| - 1;
      SaleMoves(sale, items[..last]);
      SaleMeaning(sale, items[..last]);
      FieldNotYetNamed(sale, items);
    }
  }

  lemma {:induction false} SalesMove(was: seq<Sale>, now: seq<Sale>, items: seq<Item>)
    requires |was| == |now|
    requires forall i | 0 <= i < |was| :: Declared(now[i]) == Declared(was[i]) + SaleChange(was[i], items)
    ensures TotalDeclared(now) == TotalDeclared(was) + SumOfChanges(was, items)
  {
    hide Declared, SaleChange;
    if was != [] {
      SalesMove(was[1..], now[1..], items);
    }
  }

  lemma {:induction false} CopiesMove(sales: seq<Sale>, items: seq<Item>, firstId: Id)
    requires CopiedSales(sales, items, firstId).Success? && ItemsDistinct(items)
    ensures var copies := CopiedSales(sales, items, firstId).value;
            |copies| == |sales|
            && forall i | 0 <= i < |sales| :: Declared(copies[i]) == Declared(sales[i]) + SaleChange(sales[i], items)
  {
    hide AmendedSale, IsDecimal, ItemsDistinct, SaleChange, Amount, SaleFits;
    if sales != [] {
      var last := |sales| - 1;
      CopiesMove(sales[..last], items, firstId);
      SaleMoves(sales[last], items);
    }
  }

  ghost predicate DistinctIds(sales: seq<Sale>) {
    forall i, j | 0 <= i < j < |sales| :: sales[i].id != sales[j].id
  }

  /** An item's change to the sales of a report is its change to the one sale it names. */
  ghost function ChangeToAll(sales: seq<Sale>, item: Item): real {
    if sales == [] then 0.0 else ChangeTo(sales[0], item) + ChangeToAll(sales[1..], item)
  }

  lemma {:induction false} SaleNamedIs(sales: seq<Sale>, id: Id)
    ensures SaleNamed(sales, id).None? <==> forall i | 0 <= i < |sales| :: sales[i].id != id
    ensures SaleNamed(sales, id).Some? ==> exists i :: 0 <= i < |sales| && sales[i] == SaleNamed(sales, id).value && sales[i].id == id
  {
    if sales != [] {
      SaleNamedIs(sales[1..], id);
      assert forall i | 0 < i < |sales| :: sales[i] == sales[1..][i - 1];
    }
  }

  lemma {:induction false} OneSaleChanges(sales: seq<Sale>, item: Item)
    requires DistinctIds(sales)
    ensures ChangeToAll(sales, item) == ItemChange(sales, item)
    ensures SaleNamed(sales, item.target).None? ==> ChangeToAll(sales, item) == 0.0
    ensures SaleNamed(sales, item.target).None? ==> forall i | 0 <= i < |sales| :: sales[i].id != item.target
  {
    hide AmendmentDecimalValue, Amount;
    if sales != [] {
      OneSaleChanges(sales[1..], item);
      if sales[0].id == item.target {
        var rest := SaleNamed(sales[1..], item.target);
        if rest.Some? {
          SaleNamedIs(sales[1..], item.target);
        }
      }
    }
  }

  lemma {:induction false} SplitChanges(sales: seq<Sale>, items: seq<Item>)
    requires items != []
    ensures SumOfChanges(sales, items) == SumOfChanges(sales, items[..|items| - 1]) + ChangeToAll(sales, items[|items| - 1])
  {
    hide ChangeTo;
    if sales != [] {
      SplitChanges(sales[1..], items);
    }
  }

  lemma {:induction false} NoItemsNoChange(sales: seq<Sale>)
    ensures SumOfChanges(sales, []) == 0.0
  {
    if sales != [] {
      NoItemsNoChange(sales[1..]);
    }
  }

  lemma {:induction false} SumBySaleIsSumByItem(sales: seq<Sale>, items: seq<Item>)
    requires DistinctIds(sales)
    ensures SumOfChanges(sales, items) == TotalChange(sales, items)
  {
    hide ChangeTo, DistinctIds, SaleChange, SaleNamed;
    if items == [] {
      NoItemsNoChange(sales);
    } else {
      SumBySaleIsSumByItem(sales, items[..|items| - 1]);
      SplitChanges(sales, items);
      OneSaleChanges(sales, items[|items| - 1]);
    }
  }

  /** The declared total of a report moves by exactly the sum of the items' changes. */
  lemma DeclaredTotalIsConserved(t: Tables, q: ApproveRequest, hash: SnapshotHash, now: Time, t': Tables)
    requires Inv(t, hash) && AmendmentApproved(t, q, hash, now) == Success(t')
    ensures q.amendment in t.amendments && t.amendments[q.amendment].base in t.children && t.nextId in t'.children
    ensures var a := t.amendments[q.amendment];
            TotalDeclared(t'.children[t.nextId].sales)
            == TotalDeclared(t.children[a.base].sales) + TotalChange(t.children[a.base].sales, a.items)
  {
    hide KeysOk, ShiftsOk, DraftsOk, RevisionsOk, ReportsOk, CurrentOk, HeadsOk, StatusOk, DecisionsOk, SeparationOk,
      PendingOk, DigestsOk, AppliedOk, OriginOk, IdemOk, IdemKeysOk, ItemsError, SnapshotOf, StationIsFree,
      TotalDeclared, TotalChange, CopiedSales, CopiedLosses, ItemsDistinct, SaleChange, Declared;
    var a := t.amendments[q.amendment];
    var sales := t.children[a.base].sales;
    ApproveFacts(t, q, hash, now);
    hide ApproveError;
    assert ItemsDistinct(a.items);
    assert DistinctIds(sales) by {
      assert RowIdsDistinct(t.children[a.base]);
    }
    var firstId := t.nextId + 1 + |t.children[a.base].readings|;
    CopiesMove(sales, a.items, firstId);
    SalesMove(sales, CopiedSales(sales, a.items, firstId).value, a.items);
    SumBySaleIsSumByItem(sales, a.items);
  }
}
