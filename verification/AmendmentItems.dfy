/** What an amendment item is checked against and what it writes: the same column of the row it names. */
module AmendmentItems {
  import opened Wrappers
  import opened DecimalText
  import opened TextTrim
  import opened LedgerTables
  import opened GovernanceSteps
  import opened LedgerInvariant
  import opened LedgerSteps
  import opened AmendmentMeaning

  // ----- Which items fit a report -----

  /** The fields an item may name, kind by kind. */
  const ALLOWED: set<(TargetKind, Field)> := {
    (SalesDeclared, CashAmount), (SalesDeclared, CashlessAmount),
    (LossEntry, Liters), (LossEntry, CashAmount), (LossEntry, Note),
    (Delivery, Reference), (Delivery, DeliveryId), (DipReading, Reference), (DipReading, DipId)}

  lemma FieldAllowedIff(kind: TargetKind, field: Field)
    ensures FieldAllowed(kind, field) <==> (kind, field) in ALLOWED
  {
  }

  /** The stored value is this text; an absent column reads as the empty text. */
  predicate Reads(raw: RawJson, text: string) {
    raw == Text(text) || raw == Raw(text) || (raw == Null && text == "")
  }

  /** The item names the row's column of its field, and its old value is what stands there. */
  predicate SaleItemFits(sale: Sale, item: Item) {
    && item.target == sale.id
    && (item.field == CashAmount ==> Reads(item.oldValue, sale.cash))
    && (item.field == CashlessAmount ==> Reads(item.oldValue, sale.cashless))
  }

  predicate LossItemFits(loss: Loss, item: Item) {
    && item.target == loss.id
    && (item.field == Liters ==> Reads(item.oldValue, loss.liters))
    && (item.field == CashAmount ==> Reads(item.oldValue, if loss.cash.Some? then loss.cash.value else ""))
    && (item.field == Note ==> Reads(item.oldValue, if loss.note.Some? then loss.note.value else ""))
  }

  predicate HasTarget(c: Children, item: Item) {
    && (item.kind == SalesDeclared ==> exists i :: 0 <= i < |c.sales| && c.sales[i].id == item.target)
    && (item.kind == LossEntry ==> exists i :: 0 <= i < |c.losses| && c.losses[i].id == item.target)
  }

  /** A permitted item whose row exists and still has the old value. */
  predicate ItemFits(c: Children, item: Item) {
    && (item.kind, item.field) in ALLOWED
    && (item.kind == SalesDeclared ==> exists i :: 0 <= i < |c.sales| && SaleItemFits(c.sales[i], item))
    && (item.kind == LossEntry ==> exists i :: 0 <= i < |c.losses| && LossItemFits(c.losses[i], item))
  }

  lemma {:induction false} LossNamedIs(losses: seq<Loss>, id: Id)
    ensures LossNamed(losses, id).None? <==> forall i | 0 <= i < |losses| :: losses[i].id != id
    ensures LossNamed(losses, id).Some? ==> exists i :: 0 <= i < |losses| && losses[i] == LossNamed(losses, id).value && losses[i].id == id
  {
    if losses != [] {
      LossNamedIs(losses[1..], id);
      assert forall i | 0 < i < |losses| :: losses[i] == losses[1..][i - 1];
    }
  }

  lemma SaleItemIff(c: Children, item: Item)
    requires RowIdsDistinct(c) && item.kind == SalesDeclared && (item.kind, item.field) in ALLOWED
    ensures ItemError(c, item).None? <==> ItemFits(c, item)
    ensures ItemError(c, item).Some? ==>
              ItemError(c, item).value == if HasTarget(c, item) then AmendmentStale else AmendmentTargetNotFound
  {
    SaleNamedIs(c.sales, item.target);
    hide SaleNamed;
    if SaleNamed(c.sales, item.target).Some? {
      var i :| 0 <= i < |c.sales| && c.sales[i] == SaleNamed(c.sales, item.target).value && c.sales[i].id == item.target;
      assert forall j | 0 <= j < |c.sales| && c.sales[j].id == item.target :: j == i;
      assert ItemError(c, item).None? <==> SaleItemFits(c.sales[i], item);
    }
  }

  lemma LossItemIff(c: Children, item: Item)
    requires RowIdsDistinct(c) && item.kind == LossEntry && (item.kind, item.field) in ALLOWED
    ensures ItemError(c, item).None? <==> ItemFits(c, item)
    ensures ItemError(c, item).Some? ==>
              ItemError(c, item).value == if HasTarget(c, item) then AmendmentStale else AmendmentTargetNotFound
  {
    LossNamedIs(c.losses, item.target);
    hide LossNamed;
    if LossNamed(c.losses, item.target).Some? {
      var i :| 0 <= i < |c.losses| && c.losses[i] == LossNamed(c.losses, item.target).value && c.losses[i].id == item.target;
      assert forall j | 0 <= j < |c.losses| && c.losses[j].id == item.target :: j == i;
      assert ItemError(c, item).None? <==> LossItemFits(c.losses[i], item);
    }
  }

  /** The error an item that does not fit is refused with. */
  function MisfitError(c: Children, item: Item): Error {
    if (item.kind, item.field) !in ALLOWED then AmendmentFieldForbidden
    else if HasTarget(c, item) then AmendmentStale
    else AmendmentTargetNotFound
  }

  lemma ItemErrorIff(c: Children, item: Item)
    requires RowIdsDistinct(c)
    ensures ItemError(c, item) == if ItemFits(c, item) then None else Some(MisfitError(c, item))
  {
    hide RowIdsDistinct;
    FieldAllowedIff(item.kind, item.field);
    if (item.kind, item.field) in ALLOWED {
      if item.kind == SalesDeclared {
        SaleItemIff(c, item);
      } else if item.kind == LossEntry {
        LossItemIff(c, item);
      }
    }
  }

  /**
   The items of an amendment fit their base report exactly when each one is
   permitted and finds its old value in the column of its field; otherwise the
   first one that does not fit says why.
   */
  lemma {:induction false} ItemsFitIff(c: Children, items: seq<Item>)
    requires RowIdsDistinct(c)
    ensures ItemsError(c, items).None? <==> forall i | 0 <= i < |items| :: ItemFits(c, items[i])
    ensures ItemsError(c, items).Some? ==>
              exists i :: 0 <= i < |items| && !ItemFits(c, items[i]) && (forall j | 0 <= j < i :: ItemFits(c, items[j]))
                          && ItemsError(c, items).value == MisfitError(c, items[i])
  {
    hide ItemError, ItemFits, MisfitError, RowIdsDistinct;
    if items != [] {
      var last := |items| - 1;
      ItemsFitIff(c, items[..last]);
      ItemErrorIff(c, items[last]);
      assert forall i | 0 <= i < last :: items[..last][i] == items[i];
      if ItemsError(c, items[..last]).Some? {
        var i :| 0 <= i < last && !ItemFits(c, items[..last][i]) && (forall j | 0 <= j < i :: ItemFits(c, items[..last][j]))
                 && ItemsError(c, items[..last]).value == MisfitError(c, items[..last][i]);
        assert forall j | 0 <= j < i :: ItemFits(c, items[..last][j]) && items[j] == items[..last][j];
      }
    }
  }

  // ----- An item writes the column it was checked against -----

  function SaleColumn(sale: Sale, field: Field): string {
    if field == CashAmount then sale.cash else sale.cashless
  }

  /** A permitted item of a sale reads its old value and writes its new one in the same column, and nothing else. */
  lemma SaleItemMeaning(sale: Sale, item: Item)
    requires item.kind == SalesDeclared && (item.kind, item.field) in ALLOWED && SaleItemFits(sale, item)
    requires AmendedSale(sale, [item]).Success?
    ensures var now := AmendedSale(sale, [item]).value;
            && Reads(item.oldValue, SaleColumn(sale, item.field))
            && Some(SaleColumn(now, item.field)) == AmendmentDecimalValue(item.newValue)
            && (item.field == CashAmount ==> now == sale.(cash := now.cash))
            && (item.field == CashlessAmount ==> now == sale.(cashless := now.cashless))
  {
    hide AmendmentDecimalValue;
    assert [item][..0] == [];
  }

  lemma {:induction false} TrimOfTight(s: string)
    requires s != "" && !IsSpace(s[0]) && !IsSpace(s[|s| - 1])
    ensures TrimSpace(s) == s
  {
  }

  /** A decimal begins and ends with a digit. */
  lemma DecimalEnds(s: string)
    requires IsDecimal(s)
    ensures s != "" && IsDigit(s[0]) && IsDigit(s[|s| - 1])
  {
    assert Whole(s)[0] == s[0];
    if HasPoint(s) {
      assert Fraction(s)[|Fraction(s)| - 1] == s[|s| - 1];
    } else {
      assert Whole(s)[|s| - 1] == s[|s| - 1];
    }
  }

  /** A number has no white space to trim. */
  lemma DecimalIsTight(s: string)
    requires IsSignedDecimal(s)
    ensures TrimSpace(s) == s
  {
    DecimalEnds(Magnitude(s));
    TrimOfTight(s);
  }

  /** A value that reads as a column's decimal is written back as the same text. */
  lemma SameDecimal(raw: RawJson, text: string)
    requires Reads(raw, text) && IsSignedDecimal(text)
    ensures AmendmentDecimalValue(raw) == Some(text)
  {
    DecimalIsTight(text);
  }

  /** The item names the sale, reads its old value there, and asks for the same value again. */
  predicate AsksNothing(sale: Sale, item: Item) {
    && item.kind == SalesDeclared && (item.kind, item.field) in ALLOWED && SaleItemFits(sale, item)
    && item.newValue == item.oldValue
  }

  lemma SaleItemWithoutChange(sale: Sale, item: Item)
    requires AsksNothing(sale, item) && SaleFits(sale)
    ensures SaleWithItem(sale, item) == Success(sale)
  {
    hide AmendmentDecimalValue, IsSignedDecimal;
    DecimalHasNoSign(SaleColumn(sale, item.field));
    SameDecimal(item.newValue, SaleColumn(sale, item.field));
  }

  /** Items that ask a sale for the values it has change nothing. */
  lemma {:induction false} SaleItemsWithoutChange(sale: Sale, items: seq<Item>)
    requires SaleFits(sale)
    requires forall i | 0 <= i < |items| && items[i].kind == SalesDeclared && items[i].target == sale.id :: AsksNothing(sale, items[i])
    ensures AmendedSale(sale, items) == Success(sale)
  {
    hide AmendmentDecimalValue, SaleFits, AsksNothing;
    if items != [] {
      var last := |items| - 1;
      assert forall i | 0 <= i < last :: items[..last][i] == items[i];
      SaleItemsWithoutChange(sale, items[..last]);
      if items[last].kind == SalesDeclared && items[last].target == sale.id {
        SaleItemWithoutChange(sale, items[last]);
      }
    }
  }

  /**
   An item of a loss that asks for the value the loss has, when it is accepted, changes nothing
   that reads differently: only a note can turn from absent into empty, or back.
   */
  lemma LossItemWithoutChange(loss: Loss, item: Item)
    requires item.kind == LossEntry && (item.kind, item.field) in ALLOWED && LossItemFits(loss, item)
    requires item.newValue == item.oldValue && LossFits(loss) && AmendedLoss(loss, [item]).Success?
    ensures var now := AmendedLoss(loss, [item]).value;
            && now == loss.(note := now.note)
            && TextOr(now.note) == TextOr(loss.note)
            && (now != loss <==> item.field == Note && ((loss.note.None? && item.oldValue == Text(""))
                                                        || (loss.note == Some("") && item.oldValue == Null)))
  {
    assert [item][..0] == [];
    if item.field == Liters {
      DecimalHasNoSign(loss.liters);
      SameDecimal(item.newValue, loss.liters);
    } else if item.field == CashAmount && loss.cash.Some? {
      DecimalHasNoSign(loss.cash.value);
      SameDecimal(item.newValue, loss.cash.value);
    }
  }
}
