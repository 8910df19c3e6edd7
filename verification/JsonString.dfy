/**
 How Go's encoding/json writes a string, and a reader that undoes it. Text is
 a sequence of Unicode scalar values; its UTF-8 form is left to the reader.
 */
module JsonString {
  import opened Wrappers

  datatype Parsed<+T> = Parsed(value: T, rest: string)

  const QUOTE := '\"'
  const BACKSLASH := '\\'

  /** A lower-case hexadecimal digit. */
  function HexDigit(n: nat): char
    requires n < 16
  {
    if n < 10 then ('0' as int + n) as char else ('a' as int + n - 10) as char
  }

  function HexValue(c: char): Option<nat> {
    if '0' <= c <= '9' then Some(c as int - '0' as int)
    else if 'a' <= c <= 'f' then Some(c as int - 'a' as int + 10)
    else None
  }

  lemma HexDigitValue(n: nat)
    requires n < 16
    ensures HexValue(HexDigit(n)) == Some(n)
  {
  }

  // ----- Writing -----

  /** Written as an escape: control characters, the HTML characters, and the two line separators. */
  predicate IsEscaped(c: char) {
    || c == QUOTE || c == BACKSLASH || c as int < 0x20
    || c == '<' || c == '>' || c == '&'
    || c as int == 0x2028 || c as int == 0x2029
  }

  /** \uXXXX for a code below 0x10000. */
  function UnicodeEscape(code: nat): string
    requires code < 0x10000
  {
    [BACKSLASH, 'u', HexDigit(code / 4096), HexDigit(code / 256 % 16), HexDigit(code / 16 % 16), HexDigit(code % 16)]
  }

  function QuoteChar(c: char): string {
    if !IsEscaped(c) then [c]
    else
      var code := c as int;
      if c == QUOTE || c == BACKSLASH then [BACKSLASH, c]
      else if code == 0x08 then [BACKSLASH, 'b']
      else if code == 0x0c then [BACKSLASH, 'f']
      else if code == 0x0a then [BACKSLASH, 'n']
      else if code == 0x0d then [BACKSLASH, 'r']
      else if code == 0x09 then [BACKSLASH, 't']
      else UnicodeEscape(code)
  }

  /** The characters of s from i on, and the closing quote. */
  function QuoteFrom(s: string, i: nat): string
    requires i <= |s|
    decreases |s| - i
  {
    if i == |s| then [QUOTE] else QuoteChar(s[i]) + QuoteFrom(s, i + 1)
  }

  function Quote(s: string): string {
    [QUOTE] + QuoteFrom(s, 0)
  }

  /** A character that may stand in any text as it is: printable, and no part of HTML or a line separator. */
  predicate IsPlain(c: char) {
    c >= ' ' && c !in {'<', '>', '&'} && c as int != 0x2028 && c as int != 0x2029
  }

  lemma HexDigitIsPlain(n: nat)
    requires n < 16
    ensures IsPlain(HexDigit(n)) && HexDigit(n) != QUOTE && HexDigit(n) != BACKSLASH
  {
  }

  lemma QuoteCharIsPlain(c: char)
    ensures forall d | d in QuoteChar(c) :: IsPlain(d)
  {
    if IsEscaped(c) {
      var code := c as int % 0x10000;
      HexDigitIsPlain(code / 4096);
      HexDigitIsPlain(code / 256 % 16);
      HexDigitIsPlain(code / 16 % 16);
      HexDigitIsPlain(code % 16);
    }
  }

  lemma QuoteIsPlain()
    ensures IsPlain(QUOTE)
  {
  }

  /** Whatever a text contains, it is written in plain characters. */
  lemma {:induction false} QuotedIsPlain(s: string, i: nat)
    requires i <= |s|
    ensures forall d | d in QuoteFrom(s, i) :: IsPlain(d)
    decreases |s| - i
  {
    hide QuoteChar, IsPlain;
    if i < |s| {
      QuoteCharIsPlain(s[i]);
      QuotedIsPlain(s, i + 1);
    } else {
      QuoteIsPlain();
    }
  }

  /** A text of plain characters without quotes and backslashes is written as it is. */
  lemma {:induction false} PlainIsUnchanged(s: string, i: nat)
    requires i <= |s| && forall k | i <= k < |s| :: IsPlain(s[k]) && s[k] != QUOTE && s[k] != BACKSLASH
    ensures QuoteFrom(s, i) == s[i..] + [QUOTE]
    decreases |s| - i
  {
    if i < |s| {
      PlainIsUnchanged(s, i + 1);
      assert s[i..] == [s[i]] + s[i + 1..];
    }
  }

  // ----- Reading -----

  function ParseUnicode(s: string): Option<Parsed<char>> {
    if |s| < 4 then None
    else
      var a, b, c, d := HexValue(s[0]), HexValue(s[1]), HexValue(s[2]), HexValue(s[3]);
      if a.None? || b.None? || c.None? || d.None? then None
      else
        var code := 4096 * a.value + 256 * b.value + 16 * c.value + d.value;
        if 0xD800 <= code < 0xE000 || code >= 0x10000 then None else Some(Parsed(code as char, s[4..]))
  }

  /** One character or one escape. */
  function ParseChar(s: string): (p: Option<Parsed<char>>)
    ensures p.Some? ==> |p.value.rest| < |s|
  {
    if s == "" then None
    else if s[0] != BACKSLASH then Some(Parsed(s[0], s[1..]))
    else if |s| == 1 then None
    else
      match s[1]
      case 'b' => Some(Parsed(0x08 as char, s[2..]))
      case 'f' => Some(Parsed(0x0c as char, s[2..]))
      case 'n' => Some(Parsed(0x0a as char, s[2..]))
      case 'r' => Some(Parsed(0x0d as char, s[2..]))
      case 't' => Some(Parsed(0x09 as char, s[2..]))
      case 'u' => ParseUnicode(s[2..])
      case c => if c == QUOTE || c == BACKSLASH then Some(Parsed(c, s[2..])) else None
  }

  /** The rest of a string after its opening quote. */
  function ParseString(s: string): (p: Option<Parsed<string>>)
    ensures p.Some? ==> |p.value.rest| < |s|
    decreases |s|
  {
    if s == "" then None
    else if s[0] == QUOTE then Some(Parsed("", s[1..]))
    else
      match ParseChar(s)
      case None => None
      case Some(first) =>
        match ParseString(first.rest)
        case None => None
        case Some(tail) => Some(Parsed([first.value] + tail.value, tail.rest))
  }

  // ----- The reader undoes the writer -----

  lemma CodeFromDigits(code: nat)
    requires code < 0x10000
    ensures code / 4096 < 16
    ensures code == 4096 * (code / 4096) + 256 * (code / 256 % 16) + 16 * (code / 16 % 16) + code % 16
  {
  }

  lemma FourDigits(a: nat, b: nat, d: nat, e: nat, c: char, rest: string)
    requires a < 16 && b < 16 && d < 16 && e < 16 && c as int == 4096 * a + 256 * b + 16 * d + e < 0x10000
    ensures ParseUnicode([HexDigit(a), HexDigit(b), HexDigit(d), HexDigit(e)] + rest) == Some(Parsed(c, rest))
  {
    HexDigitValue(a);
    HexDigitValue(b);
    HexDigitValue(d);
    HexDigitValue(e);
    hide HexDigit, HexValue;
    var s := [HexDigit(a), HexDigit(b), HexDigit(d), HexDigit(e)] + rest;
    assert s[4..] == rest;
  }

  lemma UnicodeRoundTrip(c: char, rest: string)
    requires c as int < 0x10000
    ensures ParseUnicode(UnicodeEscape(c as int)[2..] + rest) == Some(Parsed(c, rest))
  {
    hide HexDigit, HexValue;
    var code := c as int;
    CodeFromDigits(code);
    FourDigits(code / 4096, code / 256 % 16, code / 16 % 16, code % 16, c, rest);
    assert UnicodeEscape(code)[2..]
        == [HexDigit(code / 4096), HexDigit(code / 256 % 16), HexDigit(code / 16 % 16), HexDigit(code % 16)];
  }

  lemma CharRoundTrip(c: char, rest: string)
    ensures var s := QuoteChar(c) + rest;
            s != "" && s[0] != QUOTE && ParseChar(s) == Some(Parsed(c, rest))
  {
    hide ParseUnicode, HexDigit;
    var q := QuoteChar(c);
    var s := q + rest;
    if !IsEscaped(c) {
      assert s[1..] == rest;
    } else if |q| == 2 {
      assert s[1] == q[1] && s[2..] == rest;
    } else {
      assert s[1] == 'u' && s[2..] == q[2..] + rest;
      UnicodeRoundTrip(c, rest);
    }
  }

  lemma {:induction false} StringRoundTrip(s: string, i: nat, rest: string)
    requires i <= |s|
    ensures ParseString(QuoteFrom(s, i) + rest) == Some(Parsed(s[i..], rest))
    decreases |s| - i
  {
    hide QuoteChar, ParseChar;
    var text := QuoteFrom(s, i) + rest;
    if i == |s| {
      assert text[1..] == rest && s[i..] == "";
    } else {
      var later := QuoteFrom(s, i + 1) + rest;
      assert text == QuoteChar(s[i]) + later;
      CharRoundTrip(s[i], later);
      StringRoundTrip(s, i + 1, rest);
      assert s[i..] == [s[i]] + s[i + 1..];
    }
  }
}
