/**
 The size of a meter dial, derived from the largest reading the catalog
 records for a nozzle (internal/repository/shift).
 */
module MeterCatalog {
  import opened Wrappers
  import opened DecimalText
  import opened Reconciliation

  function TrimMinus(s: string): string {
    if s != "" && s[0] == '-' then s[1..] else s
  }

  /** The first fraction digit, or zero when there is none. */
  function FirstFractionDigit(value: string): char {
    if HasPoint(value) && Fraction(value) != "" then Fraction(value)[0] else '0'
  }

  lemma SignKeepsParts(value: string)
    requires IsSignedDecimal(value)
    ensures TrimMinus(Whole(value)) == Whole(Magnitude(value))
    ensures Fraction(value) == Fraction(Magnitude(value))
    ensures HasPoint(value) <==> HasPoint(Magnitude(value))
  {
    if IsNegative(value) {
      assert PointAt(value) == 1 + PointAt(value[1..]);
    } else {
      assert Whole(value) != "" && Whole(value)[0] == value[0];
    }
  }

  /** Tenths of the meter value, plus one. */
  function ScaledPlusOne(value: string): nat
    requires IsSignedDecimal(value)
  {
    SignKeepsParts(value);
    10 * Nat(TrimMinus(Whole(value))) + DigitValue(FirstFractionDigit(value)) + 1
  }

  function DecimalAddTenth(value: string): string
    requires IsSignedDecimal(value)
  {
    var text := NatText(ScaledPlusOne(value));
    if |text| == 1 then "0." + text
    else text[..|text| - 1] + "." + text[|text| - 1..]
  }

  lemma PrintsTenths(value: string)
    requires IsSignedDecimal(value)
    ensures DecimalAddTenth(value) == FixedText(ScaledPlusOne(value), 1)
  {
    var n := ScaledPlusOne(value);
    var text := NatText(n);
    assert LowDigits(n / 10, 0) == "";
    assert LowDigits(n, 1) == [DigitChar(n % 10)];
    assert HighPart(n, 1) == n / 10;
    if n < 10 {
      assert NatText(0) == "0";
    } else {
      assert text[..|text| - 1] == NatText(n / 10);
      assert text[|text| - 1..] == [DigitChar(n % 10)];
    }
  }

  lemma OverTenIsTenth(x: real, k: nat)
    ensures OverTen(x, k + 1) == OverTen(x, k) / 10.0
  {
  }

  /** Digits after a prefix add less than one unit of it, and nothing only when all are zero. */
  lemma {:induction false} PrefixIsFloor(a: string, b: string)
    requires AllDigits(a) && AllDigits(b)
    ensures AllDigits(a + b)
    ensures Nat(a) as real <= OverTen(Nat(a + b) as real, |b|) < Nat(a) as real + 1.0
    decreases |b|
  {
    if b == "" {
      assert a + b == a;
    } else {
      var c := [b[0]];
      PrefixIsFloor(a + c, b[1..]);
      assert a + b == a + c + b[1..];
      NatDigit(a, b[0]);
      OverTenStep(Nat(a + b) as real / 10.0, |b| - 1);
      OverTenStep(Nat(a + b) as real, |b| - 1);
      OverTenIsTenth(Nat(a + b) as real, |b| - 1);
    }
  }

  lemma SplitFirst(f: string)
    requires AllDigits(f) && f != ""
    ensures IsDigit(f[0]) && AllDigits([f[0]]) && AllDigits(f[1..])
  {
  }

  lemma FloorBetween(x: real, n: int)
    requires n as real <= x < n as real + 1.0
    ensures x.Floor == n
  {
  }

  lemma TenthsOfDigits(w: string, f: string)
    requires AllDigits(w) && AllDigits(f) && f != ""
    ensures 10 * Nat(w) + DigitValue(f[0]) == (10.0 * OverTen(Nat(w + f) as real, |f|)).Floor
  {
    hide Nat, OverTen, AllDigits;
    var c := [f[0]];
    SplitFirst(f);
    NatDigit(w, f[0]);
    PrefixIsFloor(w + c, f[1..]);
    assert w + f == w + c + f[1..];
    var n := Nat(w + f) as real;
    OverTenIsTenth(n, |f| - 1);
    FloorBetween(10.0 * OverTen(n, |f|), 10 * Nat(w) + DigitValue(f[0]));
  }

  /** The magnitude cut to whole tenths is what the digits before the cut say. */
  lemma TenthsAreFloor(value: string)
    requires IsSignedDecimal(value)
    ensures ScaledPlusOne(value) == (10.0 * Value(Magnitude(value))).Floor + 1
  {
    var m := Magnitude(value);
    var w, f := Whole(m), Fraction(m);
    SignKeepsParts(value);
    if f == "" {
      assert w + f == w;
      assert FirstFractionDigit(value) == '0';
    } else {
      TenthsOfDigits(w, f);
    }
  }

  /** The result is a one-digit decimal: the magnitude cut to tenths, plus a tenth. */
  lemma AddTenthMeaning(value: string)
    requires IsSignedDecimal(value)
    ensures var r := DecimalAddTenth(value);
            && IsDecimal(r) && Scale(r) == 1
            && Value(r) == ((10.0 * Value(Magnitude(value))).Floor as real + 1.0) / 10.0
  {
    PrintsTenths(value);
    FixedTextUnits(ScaledPlusOne(value), 1);
    TenthsAreFloor(value);
    OverTenIsTenth(ScaledPlusOne(value) as real, 0);
  }

  /** The code adds a tenth exactly for values that are not negative and have whole tenths. */
  lemma AddTenthIsExactIff(value: string)
    requires IsSignedDecimal(value)
    ensures IsDecimal(DecimalAddTenth(value))
    ensures Value(DecimalAddTenth(value)) == SignedValue(value) + 0.1
            <==> (SignedValue(value) >= 0.0
                  && (10.0 * SignedValue(value)).Floor as real == 10.0 * SignedValue(value))
  {
    hide DecimalAddTenth;
    AddTenthMeaning(value);
    ValueIsNatural(Magnitude(value));
  }

  /** A decimal with at most one fraction digit has whole tenths. */
  lemma TenthsAreWhole(value: string)
    requires IsDecimal(value) && Scale(value) <= 1
    ensures Value(value) >= 0.0 && (10.0 * Value(value)).Floor as real == 10.0 * Value(value)
  {
    ValueIsNatural(value);
    UnitsAtValue(value, 1);
  }

  /**
   The catalog column holds non-negative numbers with one fraction digit, so
   for every maximum it can hold the dial is exactly a tenth larger.
   */
  lemma CatalogMaximumIsExact(meterMax: string)
    requires IsDecimal(meterMax) && Scale(meterMax) <= 1
    ensures IsDecimal(DecimalAddTenth(meterMax)) && Value(DecimalAddTenth(meterMax)) == Value(meterMax) + 0.1
  {
    DecimalHasNoSign(meterMax);
    AddTenthIsExactIff(meterMax);
    TenthsAreWhole(meterMax);
  }

  /** Outside the column a negative maximum would come out positive: minus one becomes one and a tenth. */
  lemma AddTenthDropsTheSign()
    ensures DecimalAddTenth("-1.0") == "1.1"
  {
    var w := "-1.0";
    var d := "1.0";
    assert Magnitude(w) == d;
    PointIsFirst(d, 1);
    PointIsFirst(w, 2);
    assert Whole(w) == "-1" && Whole(d) == "1" && Fraction(w) == "0" && Fraction(d) == "0";
    assert "1"[..0] == "";
    assert Nat("1") == 1;
    assert NatText(11) == "11";
  }

  lemma FloorOfWhole(x: real, n: int)
    requires x == n as real
    ensures x.Floor == n
  {
  }

  lemma TenthOrder(r: nat, m: nat, x: real, y: real)
    requires x == r as real / 10.0 && y == m as real / 10.0
    ensures x <= y <==> x < ((10.0 * y).Floor as real + 1.0) / 10.0
  {
    FloorOfWhole(10.0 * y, m);
    if r <= m {
      assert r as real < m as real + 1.0;
    } else {
      assert r as real >= m as real + 1.0;
    }
  }

  lemma BelowOneTenthMore(reading: string, meterMax: string)
    requires IsDecimal(reading) && IsDecimal(meterMax)
    requires Scale(reading) <= 1 && Scale(meterMax) <= 1
    ensures Value(reading) <= Value(meterMax)
            <==> Value(reading) < ((10.0 * Value(meterMax)).Floor as real + 1.0) / 10.0
  {
    hide IsDecimal, Scale, Value;
    UnitsAtValue(reading, 1);
    UnitsAtValue(meterMax, 1);
    OverTenIsTenth(UnitsAt(reading, 1) as real, 0);
    OverTenIsTenth(UnitsAt(meterMax, 1) as real, 0);
    hide *;
    TenthOrder(UnitsAt(reading, 1), UnitsAt(meterMax, 1), Value(reading), Value(meterMax));
  }

  /**
   With the dial sized this way, one-decimal meter readings are refused as out
   of range exactly when one of them is above the catalog's maximum.
   */
  lemma DialCoversTheMaximum(start: string, end: string, meterMax: string, threshold: string)
    requires IsDecimal(start) && IsDecimal(end) && IsDecimal(meterMax) && IsDecimal(threshold)
    requires Scale(start) <= 1 && Scale(end) <= 1 && Scale(meterMax) <= 1
    ensures CalculateMeterDelta(start, end, DecimalAddTenth(meterMax), threshold) == Failure(InvalidMeterRange)
            <==> Value(start) > Value(meterMax) || Value(end) > Value(meterMax)
  {
    hide Value, FormatDecimal, DecimalAddTenth, Scale;
    assert Magnitude(meterMax) == meterMax by {
      DecimalHasNoSign(meterMax);
    }
    AddTenthMeaning(meterMax);
    hide IsDecimal;
    BelowOneTenthMore(start, meterMax);
    BelowOneTenthMore(end, meterMax);
    ValueIsNatural(meterMax);
  }
}
