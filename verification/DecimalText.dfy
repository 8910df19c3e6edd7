/**
 Decimal numbers kept as text: the grammar of a meter or money column, the
 exact value a text denotes, and the digit arithmetic behind both.
 */
module DecimalText {

  // ----- Digits -----

  predicate IsDigit(c: char) {
    '0' <= c <= '9'
  }

  predicate AllDigits(s: string) {
    forall i | 0 <= i < |s| :: IsDigit(s[i])
  }

  function DigitValue(c: char): nat
    requires IsDigit(c)
  {
    c as int - '0' as int
  }

  function DigitChar(d: nat): (c: char)
    requires d < 10
    ensures IsDigit(c) && DigitValue(c) == d
  {
    (d + '0' as int) as char
  }

  /** The natural number a run of digits denotes. */
  function Nat(s: string): nat
    requires AllDigits(s)
  {
    if s == "" then 0 else 10 * Nat(s[..|s| - 1]) + DigitValue(s[|s| - 1])
  }

  /** The shortest digits of a natural number. */
  function NatText(n: nat): (s: string)
    ensures s != "" && AllDigits(s)
  {
    if n < 10 then [DigitChar(n)] else NatText(n / 10) + [DigitChar(n % 10)]
  }

  /** The low k digits of a number, padded with zeros on the left. */
  function LowDigits(n: nat, k: nat): (s: string)
    ensures |s| == k && AllDigits(s)
  {
    if k == 0 then "" else LowDigits(n / 10, k - 1) + [DigitChar(n % 10)]
  }

  /** The number without its low k digits. */
  function HighPart(n: nat, k: nat): nat {
    if k == 0 then n else HighPart(n / 10, k - 1)
  }

  /** n times ten, k times over. */
  function TimesTen(n: nat, k: nat): nat {
    if k == 0 then n else 10 * TimesTen(n, k - 1)
  }

  /** x divided by ten, k times over. */
  function OverTen(x: real, k: nat): real {
    if k == 0 then x else OverTen(x, k - 1) / 10.0
  }

  lemma NatDigit(s: string, c: char)
    requires AllDigits(s) && IsDigit(c)
    ensures AllDigits(s + [c]) && Nat(s + [c]) == 10 * Nat(s) + DigitValue(c)
  {
    assert (s + [c])[..|s + [c]| - 1] == s;
  }

  /** Reading back the shortest digits of n gives n. */
  lemma {:induction false} NatTextValue(n: nat)
    ensures Nat(NatText(n)) == n
  {
    if n < 10 {
      NatDigit("", DigitChar(n));
      assert "" + [DigitChar(n)] == NatText(n);
    } else {
      NatTextValue(n / 10);
      NatDigit(NatText(n / 10), DigitChar(n % 10));
    }
  }

  lemma {:induction false} SplitDigits(n: nat, k: nat)
    ensures Nat(NatText(HighPart(n, k)) + LowDigits(n, k)) == n
  {
    var w, f := NatText(HighPart(n, k)), LowDigits(n, k);
    if k == 0 {
      NatTextValue(n);
      assert w + f == w;
    } else {
      var g := LowDigits(n / 10, k - 1);
      SplitDigits(n / 10, k - 1);
      NatDigit(w + g, DigitChar(n % 10));
      assert w + f == w + g + [DigitChar(n % 10)];
    }
  }

  /** Digits with no leading zero, or the single digit zero. */
  predicate IsWhole(s: string) {
    s != "" && AllDigits(s) && (s[0] == '0' ==> s == "0")
  }

  lemma {:induction false} NatTextIsWhole(n: nat)
    ensures IsWhole(NatText(n))
    ensures n > 0 ==> NatText(n)[0] != '0'
  {
    if n >= 10 {
      NatTextIsWhole(n / 10);
    }
  }

  // ----- Scaling -----

  lemma {:induction false} OverTenOrder(x: real, y: real, k: nat)
    ensures x < y <==> OverTen(x, k) < OverTen(y, k)
  {
    if k > 0 {
      OverTenOrder(x, y, k - 1);
    }
  }

  lemma {:induction false} OverTenSum(x: real, y: real, k: nat)
    ensures OverTen(x + y, k) == OverTen(x, k) + OverTen(y, k)
    ensures OverTen(x - y, k) == OverTen(x, k) - OverTen(y, k)
  {
    if k > 0 {
      OverTenSum(x, y, k - 1);
    }
  }

  lemma {:induction false} OverTenStep(x: real, k: nat)
    ensures OverTen(10.0 * x, k + 1) == OverTen(x, k)
    ensures OverTen(x / 10.0, k) == OverTen(x, k + 1)
  {
    if k > 0 {
      OverTenStep(x, k - 1);
    }
  }

  lemma {:induction false} TimesOverTen(n: nat, d: nat, e: nat)
    ensures OverTen(TimesTen(n, e) as real, d + e) == OverTen(n as real, d)
  {
    if e > 0 {
      TimesOverTen(n, d, e - 1);
      OverTenStep(TimesTen(n, e - 1) as real, d + e - 1);
    }
  }

  // ----- Grammar -----

  /** The index of the first point, or the length. */
  function PointAt(s: string): (i: nat)
    ensures i <= |s| && '.' !in s[..i] && (i < |s| ==> s[i] == '.')
  {
    if s == "" || s[0] == '.' then 0
    else
      var i := 1 + PointAt(s[1..]);
      assert s[..i] == [s[0]] + s[1..][..i - 1];
      i
  }

  predicate HasPoint(s: string) {
    PointAt(s) < |s|
  }

  function Whole(s: string): string {
    s[..PointAt(s)]
  }

  function Fraction(s: string): string {
    if HasPoint(s) then s[PointAt(s) + 1..] else ""
  }

  /** An unsigned decimal: a whole part, then optionally a point and digits. */
  predicate IsDecimal(s: string) {
    && IsWhole(Whole(s))
    && AllDigits(Fraction(s))
    && (HasPoint(s) ==> Fraction(s) != "")
  }

  predicate IsNegative(s: string) {
    s != "" && s[0] == '-'
  }

  function Magnitude(s: string): string {
    if IsNegative(s) then s[1..] else s
  }

  /** A decimal with an optional minus sign, as a numeric column prints it. */
  predicate IsSignedDecimal(s: string) {
    IsDecimal(Magnitude(s))
  }

  /** An unsigned decimal is a signed one. */
  lemma DecimalHasNoSign(s: string)
    requires IsDecimal(s)
    ensures !IsNegative(s) && IsSignedDecimal(s)
  {
    assert Whole(s)[0] == s[0];
  }

  function Scale(s: string): nat {
    |Fraction(s)|
  }

  /** The value counted in units of one tenth to the power Scale(s). */
  function Units(s: string): nat
    requires IsDecimal(s)
  {
    Nat(Whole(s) + Fraction(s))
  }

  /** The value counted in finer units, k decimal places down. */
  function UnitsAt(s: string, k: nat): nat
    requires IsDecimal(s) && Scale(s) <= k
  {
    TimesTen(Units(s), k - Scale(s))
  }

  /** The exact number a decimal text denotes. */
  function Value(s: string): real
    requires IsDecimal(s)
  {
    OverTen(Units(s) as real, Scale(s))
  }

  function SignedValue(s: string): real
    requires IsSignedDecimal(s)
  {
    if IsNegative(s) then -Value(Magnitude(s)) else Value(s)
  }

  lemma UnitsAtValue(s: string, k: nat)
    requires IsDecimal(s) && Scale(s) <= k
    ensures Value(s) == OverTen(UnitsAt(s, k) as real, k)
  {
    TimesOverTen(Units(s), Scale(s), k - Scale(s));
  }

  lemma ValueIsNatural(s: string)
    requires IsDecimal(s)
    ensures Value(s) >= 0.0
  {
    OverTenOrder(Units(s) as real, 0.0, Scale(s));
    OverTenSum(0.0, 0.0, Scale(s));
  }

  // ----- Building decimals -----

  lemma {:induction false} PointIsFirst(s: string, i: nat)
    requires i < |s| && s[i] == '.' && '.' !in s[..i]
    ensures PointAt(s) == i
  {
    if i > 0 {
      assert s[0] == s[..i][0];
      assert s[..i][1..] == s[1..][..i - 1];
      PointIsFirst(s[1..], i - 1);
    }
  }

  lemma DigitsHaveNoPoint(w: string)
    requires AllDigits(w)
    ensures '.' !in w && PointAt(w) == |w|
  {
  }

  /** Whole digits, a point and fraction digits read back as written. */
  lemma PointText(w: string, f: string)
    requires IsWhole(w) && AllDigits(f) && f != ""
    ensures IsDecimal(w + "." + f) && HasPoint(w + "." + f)
    ensures Whole(w + "." + f) == w && Fraction(w + "." + f) == f
  {
    var s := w + "." + f;
    DigitsHaveNoPoint(w);
    assert s[..|w|] == w;
    PointIsFirst(s, |w|);
    assert s[|w| + 1..] == f;
  }

  lemma WholeText(w: string)
    requires IsWhole(w)
    ensures IsDecimal(w) && !HasPoint(w) && Scale(w) == 0
    ensures Units(w) == Nat(w) && Value(w) == Nat(w) as real
  {
    DigitsHaveNoPoint(w);
    assert w[..|w|] == w;
    assert w + "" == w;
  }

  /** A number of units k decimal places down, printed with k fraction digits. */
  function FixedText(units: nat, k: nat): string {
    if k == 0 then NatText(units)
    else NatText(HighPart(units, k)) + "." + LowDigits(units, k)
  }

  lemma FixedTextUnits(units: nat, k: nat)
    ensures IsDecimal(FixedText(units, k)) && Scale(FixedText(units, k)) == k
    ensures Units(FixedText(units, k)) == units
    ensures HasPoint(FixedText(units, k)) <==> k > 0
  {
    if k == 0 {
      NatTextIsWhole(units);
      WholeText(NatText(units));
      NatTextValue(units);
    } else {
      NatTextIsWhole(HighPart(units, k));
      SplitDigits(units, k);
      PointText(NatText(HighPart(units, k)), LowDigits(units, k));
    }
  }

  function TrimRight(s: string, c: char): string {
    if s != "" && s[|s| - 1] == c then TrimRight(s[..|s| - 1], c) else s
  }

  lemma {:induction false} TrimRightSuffix(a: string, s: string, c: char)
    requires a != "" && a[|a| - 1] != c
    ensures TrimRight(a + s, c) == a + TrimRight(s, c)
  {
    if s == "" {
      assert a + s == a;
    } else if s[|s| - 1] == c {
      assert (a + s)[..|a + s| - 1] == a + s[..|s| - 1];
      TrimRightSuffix(a, s[..|s| - 1], c);
    }
  }

  /** Trimming trailing zeros of a fraction keeps the number it denotes. */
  lemma {:induction false} TrimmedFraction(w: string, f: string)
    requires AllDigits(w) && AllDigits(f)
    ensures var g := TrimRight(f, '0');
            && |g| <= |f| && AllDigits(g)
            && (g == "" || g[|g| - 1] != '0')
            && Nat(w + f) == TimesTen(Nat(w + g), |f| - |g|)
  {
    if f != "" && f[|f| - 1] == '0' {
      var h := f[..|f| - 1];
      TrimmedFraction(w, h);
      NatDigit(w + h, '0');
      assert w + f == w + h + ['0'];
    }
  }
}
