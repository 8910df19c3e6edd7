/**
 Exact meter and sale arithmetic over decimal text
 (internal/service/reconciliation). A rational is a real here, so every
 comparison and subtraction is exact, as with the source's big rationals.
 */
module Reconciliation {
  import opened Wrappers
  import opened DecimalText

  datatype MeterError =
    | InvalidDecimal
    | RolloverOverThreshold
    | InvalidMeterRange
    | NumericOverflow
    | MeterChainConflict

  const MAX_RUPIAH: nat := 99999999999999

  function Max(a: nat, b: nat): nat {
    if a < b then b else a
  }

  // ----- Printing a rational -----

  /** x times ten, k times over. */
  function UpTen(x: real, k: nat): real {
    if k == 0 then x else 10.0 * UpTen(x, k - 1)
  }

  lemma {:induction false} UpTenNatural(x: real, k: nat)
    requires x >= 0.0
    ensures UpTen(x, k) >= 0.0
  {
    if k > 0 {
      UpTenNatural(x, k - 1);
    }
  }

  lemma {:induction false} UpTenStep(x: real, k: nat)
    ensures UpTen(x / 10.0, k + 1) == UpTen(x, k)
  {
    if k > 0 {
      UpTenStep(x, k - 1);
    }
  }

  lemma {:induction false} UpTenOver(x: real, k: nat)
    ensures UpTen(OverTen(x, k), k) == x
  {
    if k > 0 {
      UpTenOver(x, k - 1);
      UpTenStep(OverTen(x, k - 1), k - 1);
    }
  }

  function RoundHalfUp(x: real): int {
    (x + 0.5).Floor
  }

  /** The nearest whole number, and the upper of two that are as near. */
  lemma RoundHalfUpIs(x: real, n: int)
    ensures RoundHalfUp(x) == n <==> n as real - 0.5 <= x < n as real + 0.5
  {
  }

  /** The number rounded to k fraction digits and printed with all of them. */
  function FloatString(x: real, k: nat): string
    requires x >= 0.0
  {
    UpTenNatural(x, k);
    FixedText(RoundHalfUp(UpTen(x, k)), k)
  }

  /** Prints with up to k fraction digits, without trailing zeros or point. */
  function FormatDecimal(x: real, k: nat): string
    requires x >= 0.0
  {
    var text := FloatString(x, k);
    var trimmed := if '.' in text then TrimRight(TrimRight(text, '0'), '.') else text;
    if trimmed == "" then "0" else trimmed
  }

  /** No fraction at all, or one that ends in a digit other than zero. */
  predicate HasNoTrailingZero(s: string) {
    HasPoint(s) ==> Fraction(s) != "" && Fraction(s)[|Fraction(s)| - 1] != '0'
  }

  lemma TrimmedToWhole(w: string)
    requires IsWhole(w)
    ensures TrimRight(w + "." + "", '.') == w && w + "" == w
    ensures IsDecimal(w) && Value(w) == Nat(w) as real && HasNoTrailingZero(w)
  {
    assert w + "." + "" == w + ".";
    TrimRightSuffix(w, ".", '.');
    WholeText(w);
  }

  lemma TrimmedIsExact(w: string, f: string, units: nat, k: nat)
    requires k > 0 && w == NatText(HighPart(units, k)) && f == LowDigits(units, k)
    ensures var s := TrimRight(TrimRight(w + "." + f, '0'), '.');
            IsDecimal(s) && Value(s) == OverTen(units as real, k) && HasNoTrailingZero(s)
  {
    hide NatText, HighPart, LowDigits, OverTen;
    var g := TrimRight(f, '0');
    NatTextIsWhole(HighPart(units, k));
    SplitDigits(units, k);
    TrimRightSuffix(w + ".", f, '0');
    TrimmedFraction(w, f);
    TimesOverTen(Nat(w + g), |g|, k - |g|);
    if g == "" {
      TrimmedToWhole(w);
    } else {
      PointText(w, g);
    }
  }

  /** A number of whole units k places down prints without loss. */
  lemma FormatIsExact(units: nat, k: nat)
    ensures OverTen(units as real, k) >= 0.0
    ensures var s := FormatDecimal(OverTen(units as real, k), k);
            IsDecimal(s) && Value(s) == OverTen(units as real, k) && HasNoTrailingZero(s)
  {
    var x := OverTen(units as real, k);
    OverTenOrder(units as real, 0.0, k);
    OverTenSum(0.0, 0.0, k);
    UpTenOver(units as real, k);
    assert RoundHalfUp(UpTen(x, k)) == units;
    if k == 0 {
      NatTextIsWhole(units);
      WholeText(NatText(units));
      NatTextValue(units);
    } else {
      TrimmedIsExact(NatText(HighPart(units, k)), LowDigits(units, k), units, k);
    }
  }

  // ----- Meter delta -----

  ghost predicate AllDecimal(start: string, end: string, modulus: string, threshold: string) {
    IsDecimal(start) && IsDecimal(end) && IsDecimal(modulus) && IsDecimal(threshold)
  }

  function CalculateMeterDelta(start: string, end: string, modulus: string, rolloverThreshold: string): Result<string, MeterError>
  {
    if !IsDecimal(start) || !IsDecimal(end) || !IsDecimal(modulus) || !IsDecimal(rolloverThreshold) then
      Failure(InvalidDecimal)
    else
      var s, e, m, t := Value(start), Value(end), Value(modulus), Value(rolloverThreshold);
      if m <= 0.0 || s >= m || e >= m then
        Failure(InvalidMeterRange)
      else
        var scale := Max(Max(Scale(start), Scale(end)), Max(Scale(modulus), Scale(rolloverThreshold)));
        if e >= s then
          Success(FormatDecimal(e - s, scale))
        else
          var delta := (m - s) + e;
          ValueIsNatural(end);
          if delta > t then Failure(RolloverOverThreshold)
          else Success(FormatDecimal(delta, scale))
  }

  /** The distance driven forward on a dial of the given size. */
  ghost function Forward(start: real, end: real, modulus: real): real {
    if end >= start then end - start else modulus - start + end
  }

  /** The forward distance of four decimals is a whole number of units at their common scale. */
  lemma ForwardUnits(start: string, end: string, modulus: string, k: nat) returns (units: nat)
    requires IsDecimal(start) && IsDecimal(end) && IsDecimal(modulus)
    requires Scale(start) <= k && Scale(end) <= k && Scale(modulus) <= k
    requires Value(start) < Value(modulus)
    ensures OverTen(units as real, k) == Forward(Value(start), Value(end), Value(modulus))
  {
    var s, e, m := UnitsAt(start, k), UnitsAt(end, k), UnitsAt(modulus, k);
    UnitsAtValue(start, k);
    UnitsAtValue(end, k);
    UnitsAtValue(modulus, k);
    OverTenOrder(e as real, s as real, k);
    OverTenOrder(s as real, m as real, k);
    OverTenSum(e as real, s as real, k);
    OverTenSum(m as real, s as real, k);
    OverTenSum((m - s) as real, e as real, k);
    units := if e >= s then e - s else m - s + e;
  }

  /** The meter pairs on the dial whose rollover, if any, stays within the threshold. */
  ghost predicate IsMeterMove(start: string, end: string, modulus: string, threshold: string) {
    && AllDecimal(start, end, modulus, threshold)
    && Value(start) < Value(modulus) && Value(end) < Value(modulus)
    && (Value(end) < Value(start) ==>
          Forward(Value(start), Value(end), Value(modulus)) <= Value(threshold))
  }

  /** Exactly the meter moves are accepted. */
  lemma MeterDeltaAccepts(start: string, end: string, modulus: string, threshold: string)
    ensures CalculateMeterDelta(start, end, modulus, threshold).Success?
            <==> IsMeterMove(start, end, modulus, threshold)
  {
    if IsDecimal(start) {
      ValueIsNatural(start);
    }
  }

  /** The text printed denotes the forward distance, with no digit lost or padded. */
  lemma MeterDeltaIsExact(start: string, end: string, modulus: string, threshold: string)
    requires IsMeterMove(start, end, modulus, threshold)
    ensures var r := CalculateMeterDelta(start, end, modulus, threshold);
            && r.Success? && IsDecimal(r.value) && HasNoTrailingZero(r.value)
            && Value(r.value) == Forward(Value(start), Value(end), Value(modulus))
  {
    hide FormatDecimal, Value, IsDecimal, Scale;
    MeterDeltaAccepts(start, end, modulus, threshold);
    var k := Max(Max(Scale(start), Scale(end)), Max(Scale(modulus), Scale(threshold)));
    var units := ForwardUnits(start, end, modulus, k);
    FormatIsExact(units, k);
  }

  lemma TurnsAtLeast(m: real, n: int)
    requires m > 0.0 && n >= 0
    ensures n as real * m >= 0.0
    ensures (n + 2) as real * m >= 2.0 * m
    ensures (-1 - n) as real * m <= -m
  {
    assert (n + 2) as real * m == n as real * m + 2.0 * m;
    assert (-1 - n) as real * m == -(n as real * m) - m;
  }

  lemma OneTurnAtMost(s: real, e: real, m: real, d: real, turns: int)
    requires 0.0 <= s < m && 0.0 <= e < m
    ensures 0.0 <= d < m && s + d == e + turns as real * m ==> turns == if e < s then 1 else 0
  {
    if 0.0 <= d < m && s + d == e + turns as real * m {
      if turns >= 2 {
        TurnsAtLeast(m, turns - 2);
        assert false;
      }
      if turns < 0 {
        TurnsAtLeast(m, -1 - turns);
        assert false;
      }
    }
  }

  /** The forward distance is the one number on the dial that leads from start to end modulo the dial. */
  lemma ForwardIsTheResidue(start: real, end: real, modulus: real, d: real, turns: int)
    requires 0.0 <= start < modulus && 0.0 <= end < modulus
    ensures var f := Forward(start, end, modulus);
            && 0.0 <= f < modulus
            && ((0.0 <= d < modulus && start + d == end + turns as real * modulus)
                <==> (d == f && turns == if end < start then 1 else 0))
  {
    OneTurnAtMost(start, end, modulus, d, turns);
  }

  // ----- Meter start -----

  /** The value the meter must start at: a reset, else a baseline, else the predecessor's end. */
  function ExpectedStart(predecessorEnd: string, resetValue: string, baselineValue: string): string {
    if resetValue != "" then resetValue
    else if baselineValue != "" then baselineValue
    else predecessorEnd
  }

  function ValidateMeterStart(current: string, predecessorEnd: string, resetValue: string, baselineValue: string): Option<MeterError>
  {
    if !IsDecimal(current) then Some(InvalidDecimal)
    else
      var expected := ExpectedStart(predecessorEnd, resetValue, baselineValue);
      if expected == "" then None
      else if !IsDecimal(expected) then Some(InvalidDecimal)
      else if Value(current) != Value(expected) then Some(MeterChainConflict)
      else None
  }

  // ----- Expected sale -----

  function Gcd(a: nat, b: nat): (g: nat)
    requires a > 0 || b > 0
    ensures g > 0
    decreases b
  {
    if b == 0 then a else Gcd(b, a % b)
  }

  lemma DivisorOfZero(g: nat)
    requires g > 0
    ensures 0 % g == 0
  {
  }

  lemma Multiple(g: nat, x: int)
    requires g > 0
    ensures x >= 1 ==> g * x >= g
  {
    if x >= 1 {
      assert g * x == g + g * (x - 1);
      assert g * (x - 1) >= 0;
    }
  }

  lemma Divided(n: nat, g: nat, q: nat)
    requires g > 0 && n == g * q
    ensures n % g == 0
  {
    var x := q - n / g;
    assert g * x == n % g;
    Multiple(g, x);
    Multiple(g, -x);
  }

  lemma DividedSum(g: nat, b: nat, r: nat, q: nat)
    requires g > 0 && b % g == 0 && r % g == 0
    ensures (b * q + r) % g == 0
  {
    var x, y := b / g, r / g;
    assert b * q == g * (x * q);
    assert b * q + r == g * (x * q + y);
    Divided(b * q + r, g, x * q + y);
  }

  lemma {:induction false} GcdDivides(a: nat, b: nat)
    requires a > 0 || b > 0
    ensures a % Gcd(a, b) == 0 && b % Gcd(a, b) == 0
    decreases b
  {
    if b == 0 {
      DivisorOfZero(a);
      Divided(a, a, 1);
    } else {
      var g := Gcd(b, a % b);
      GcdDivides(b, a % b);
      var q, r := a / b, a % b;
      DividedSum(g, b, r, q);
      assert a == b * q + r;
    }
  }

  /** A non-negative rational in lowest terms. */
  datatype Ratio = Ratio(num: nat, den: nat)

  lemma ReducedTerms(num: nat, den: nat, g: nat)
    requires den > 0 && g > 0 && num % g == 0 && den % g == 0
    ensures den / g > 0
    ensures num * (den / g) == den * (num / g)
  {
    var x, y := num / g, den / g;
    assert num * y == g * (x * y);
    assert den * x == g * (x * y);
  }

  /** The fraction with the common divisor taken out. */
  function Reduced(num: nat, den: nat): (r: Ratio)
    requires den > 0
    ensures r.den > 0
    ensures num * r.den == den * r.num
  {
    var g := Gcd(num, den);
    GcdDivides(num, den);
    ReducedTerms(num, den, g);
    Ratio(num / g, den / g)
  }

  lemma {:induction false} TimesTenPositive(k: nat)
    ensures TimesTen(1, k) > 0
  {
    if k > 0 {
      TimesTenPositive(k - 1);
    }
  }

  /** A product of two unit counts, k decimal places down, as a reduced rational. */
  function ProductRatio(u: nat, v: nat, k: nat): (r: Ratio)
    ensures r.den > 0
  {
    TimesTenPositive(k);
    Reduced(u * v, TimesTen(1, k))
  }

  /** Quotient plus one when twice the remainder reaches the divisor. */
  function QuotientHalfUp(r: Ratio): nat
    requires r.den > 0
  {
    r.num / r.den + if 2 * (r.num % r.den) >= r.den then 1 else 0
  }

  function CalculateExpectedSaleRupiah(liters: string, price: string): Result<string, MeterError> {
    if !IsDecimal(liters) || !IsDecimal(price) then Failure(InvalidDecimal)
    else
      var product := ProductRatio(Units(liters), Units(price), Scale(liters) + Scale(price));
      var quotient := QuotientHalfUp(product);
      if quotient > MAX_RUPIAH then Failure(NumericOverflow) else Success(NatText(quotient))
  }

  lemma {:induction false} OverTenScales(x: real, k: nat)
    ensures OverTen(x, k) * TimesTen(1, k) as real == x
  {
    if k > 0 {
      OverTenScales(x, k - 1);
      var y, p := OverTen(x, k - 1), TimesTen(1, k - 1) as real;
      assert y / 10.0 * (10.0 * p) == y * p;
    }
  }

  lemma {:induction false} OverTenProduct(x: real, y: real, a: nat, b: nat)
    ensures OverTen(x, a) * OverTen(y, b) == OverTen(x * y, a + b)
  {
    if a > 0 {
      OverTenProduct(x, y, a - 1, b);
      var p, q := OverTen(x, a - 1), OverTen(y, b);
      assert p / 10.0 * q == p * q / 10.0;
    } else if b > 0 {
      OverTenProduct(x, y, a, b - 1);
      var q := OverTen(y, b - 1);
      assert x * (q / 10.0) == x * q / 10.0;
    }
  }

  lemma AsReal(u: nat, v: nat)
    ensures u as real * v as real == (u * v) as real
  {
  }

  lemma ZeroFactor(p: real, y: real)
    requires p > 0.0 && p * y == 0.0
    ensures y == 0.0
  {
  }

  lemma CrossMultiplied(x: real, n: nat, d: nat, n': nat, d': nat)
    requires d > 0 && x * d as real == n as real && n * d' == d * n'
    ensures x * d' as real == n' as real
  {
    var p, q, u, v := d as real, d' as real, n as real, n' as real;
    assert u * q == p * v;
    assert x * q * p == x * p * q;
    assert p * (x * q - v) == 0.0;
    ZeroFactor(p, x * q - v);
  }

  /** The reduced rational denotes the product of the two values. */
  lemma ProductValue(u: nat, v: nat, a: nat, b: nat, x: real)
    requires x == OverTen(u as real, a) * OverTen(v as real, b)
    ensures var r := ProductRatio(u, v, a + b); x * r.den as real == r.num as real
  {
    hide OverTen, TimesTen, Gcd;
    AsReal(u, v);
    OverTenProduct(u as real, v as real, a, b);
    OverTenScales((u * v) as real, a + b);
    TimesTenPositive(a + b);
    assert x == OverTen((u * v) as real, a + b);
    var r := ProductRatio(u, v, a + b);
    CrossMultiplied(x, u * v, TimesTen(1, a + b), r.num, r.den);
  }

  lemma Sign(x: real, d: real)
    requires d > 0.0
    ensures x >= 0.0 <==> x * d >= 0.0
  {
  }

  lemma FractionBounds(y: real, d: real, rem: real)
    requires d > 0.0 && y * d == rem && 0.0 <= rem < d
    ensures 0.0 <= y < 1.0
    ensures y >= 0.5 <==> 2.0 * rem >= d
  {
    assert (y - 1.0) * d == rem - d;
    Sign(y, d);
    Sign(y - 1.0, d);
    assert (y - 0.5) * d == rem - 0.5 * d;
    Sign(y - 0.5, d);
  }

  /** Whatever form the fraction takes, the quotient is the product rounded half up. */
  lemma QuotientRounds(r: Ratio, x: real)
    requires r.den > 0 && x * r.den as real == r.num as real
    ensures QuotientHalfUp(r) == RoundHalfUp(x)
  {
    var q, rem := r.num / r.den, r.num % r.den;
    var d, y := r.den as real, x - q as real;
    assert r.num == q * r.den + rem;
    assert y * d == rem as real;
    FractionBounds(y, d, rem as real);
  }

  ghost function ExactSale(liters: string, price: string): real
    requires IsDecimal(liters) && IsDecimal(price)
  {
    Value(liters) * Value(price)
  }

  lemma ProductRounds(u: nat, v: nat, a: nat, b: nat, x: real)
    requires x == OverTen(u as real, a) * OverTen(v as real, b)
    ensures QuotientHalfUp(ProductRatio(u, v, a + b)) == RoundHalfUp(x)
  {
    hide *;
    ProductValue(u, v, a, b, x);
    QuotientRounds(ProductRatio(u, v, a + b), x);
  }

  /**
   The expected sale is the product rounded half up to a whole rupiah, and it
   overflows exactly when that whole number has more than the column's 14 digits.
   */
  lemma ExpectedSaleMeaning(liters: string, price: string)
    requires IsDecimal(liters) && IsDecimal(price)
    ensures var sale := RoundHalfUp(ExactSale(liters, price));
            var r := CalculateExpectedSaleRupiah(liters, price);
            && (r.Failure? <==> sale >= 100000000000000)
            && (r.Failure? ==> r.error == NumericOverflow)
            && (r.Success? ==> IsDecimal(r.value) && Value(r.value) == sale as real && Scale(r.value) == 0)
  {
    hide ProductRatio, QuotientHalfUp, OverTen, Units, NatText;
    var p := ProductRatio(Units(liters), Units(price), Scale(liters) + Scale(price));
    ProductRounds(Units(liters), Units(price), Scale(liters), Scale(price), ExactSale(liters, price));
    NatTextIsWhole(QuotientHalfUp(p));
    WholeText(NatText(QuotientHalfUp(p)));
    NatTextValue(QuotientHalfUp(p));
  }

  lemma ProductOrder(a: real, b: real, a': real, b': real)
    requires 0.0 <= a <= a' && 0.0 <= b <= b'
    ensures a * b <= a' * b'
  {
    assert (a' - a) * b >= 0.0;
    assert a' * (b' - b) >= 0.0;
  }

  lemma SaleOrder(liters: string, price: string, liters': string, price': string)
    requires IsDecimal(liters) && IsDecimal(price) && IsDecimal(liters') && IsDecimal(price')
    requires Value(liters) <= Value(liters') && Value(price) <= Value(price')
    ensures ExactSale(liters, price) <= ExactSale(liters', price')
  {
    hide Value;
    ValueIsNatural(liters);
    ValueIsNatural(price);
    ProductOrder(Value(liters), Value(price), Value(liters'), Value(price'));
  }

  /** More liters or a higher price never lower the expected sale. */
  lemma ExpectedSaleIsMonotone(liters: string, price: string, liters': string, price': string)
    requires IsDecimal(liters) && IsDecimal(price) && IsDecimal(liters') && IsDecimal(price')
    requires Value(liters) <= Value(liters') && Value(price) <= Value(price')
    requires CalculateExpectedSaleRupiah(liters', price').Success?
    ensures var r := CalculateExpectedSaleRupiah(liters, price);
            var r' := CalculateExpectedSaleRupiah(liters', price');
            && r.Success? && IsDecimal(r.value) && IsDecimal(r'.value)
            && Value(r.value) <= Value(r'.value)
  {
    SaleOrder(liters, price, liters', price');
    ExpectedSaleMeaning(liters, price);
    ExpectedSaleMeaning(liters', price');
  }

  /** One reading's liters and price, and the sale recorded for them. */
  datatype Measured = Measured(liters: string, price: string, sale: string)

  ghost predicate Recorded(m: Measured) {
    && IsDecimal(m.liters) && IsDecimal(m.price) && IsDecimal(m.sale)
    && CalculateExpectedSaleRupiah(m.liters, m.price) == Success(m.sale)
  }

  ghost function RecordedSale(m: Measured): real
    requires Recorded(m)
  {
    Value(m.sale)
  }

  ghost function RecordedTotal(ms: seq<Measured>): real
    requires forall i | 0 <= i < |ms| :: Recorded(ms[i])
  {
    if ms == [] then 0.0 else RecordedTotal(ms[..|ms| - 1]) + RecordedSale(ms[|ms| - 1])
  }

  ghost function UnroundedSale(m: Measured): real
    requires Recorded(m)
  {
    ExactSale(m.liters, m.price)
  }

  ghost function ExactTotal(ms: seq<Measured>): real
    requires forall i | 0 <= i < |ms| :: Recorded(ms[i])
  {
    if ms == [] then 0.0
    else ExactTotal(ms[..|ms| - 1]) + UnroundedSale(ms[|ms| - 1])
  }

  lemma SaleRoundingError(m: Measured)
    requires Recorded(m)
    ensures -0.5 <= UnroundedSale(m) - RecordedSale(m) <= 0.5
  {
    ExpectedSaleMeaning(m.liters, m.price);
  }

  /** Rounding each sale separately moves a total of n sales by at most n halves. */
  lemma {:induction false} TotalRoundingError(ms: seq<Measured>)
    requires forall i | 0 <= i < |ms| :: Recorded(ms[i])
    ensures -0.5 * |ms| as real <= ExactTotal(ms) - RecordedTotal(ms) <= 0.5 * |ms| as real
  {
    if ms != [] {
      TotalRoundingError(ms[..|ms| - 1]);
      SaleRoundingError(ms[|ms| - 1]);
      hide Recorded;
    }
  }
}
