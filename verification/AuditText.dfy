/** The texts a row hash is taken over: hexadecimal bytes and UUIDs. */
module AuditText {
  import opened JsonString

  type Byte = b: int | 0 <= b < 256
  type Bytes = seq<Byte>
  type Uuid = u: seq<Byte> | |u| == 16 witness [0, 0, 0, 0, 0, 0, 0, 0, 0, 0, 0, 0, 0, 0, 0, 0]

  /** Two lower-case hexadecimal digits for each byte. */
  function HexText(b: Bytes): (s: string)
    ensures |s| == 2 * |b|
  {
    if b == [] then "" else [HexDigit(b[0] / 16), HexDigit(b[0] % 16)] + HexText(b[1..])
  }

  lemma {:induction false} HexTextIsInjective(a: Bytes, b: Bytes)
    requires HexText(a) == HexText(b)
    ensures a == b
  {
    if a != [] {
      var s, t := HexText(a), HexText(b);
      HexDigitValue(a[0] / 16);
      HexDigitValue(b[0] / 16);
      HexDigitValue(a[0] % 16);
      HexDigitValue(b[0] % 16);
      assert s[0] == t[0] && s[1] == t[1];
      assert s[2..] == HexText(a[1..]) && t[2..] == HexText(b[1..]);
      HexTextIsInjective(a[1..], b[1..]);
      assert a == [a[0]] + a[1..] && b == [b[0]] + b[1..];
    }
  }

  /** The five groups of a UUID. */
  function UuidText(u: Uuid): string {
    HexText(u[..4]) + "-" + HexText(u[4..6]) + "-" + HexText(u[6..8]) + "-" + HexText(u[8..10]) + "-" + HexText(u[10..])
  }

  lemma UuidTextIsInjective(u: Uuid, v: Uuid)
    requires UuidText(u) == UuidText(v)
    ensures u == v
  {
    hide HexText;
    var s, t := UuidText(u), UuidText(v);
    assert s[0..8] == HexText(u[..4]) && t[0..8] == HexText(v[..4]);
    assert s[9..13] == HexText(u[4..6]) && t[9..13] == HexText(v[4..6]);
    assert s[14..18] == HexText(u[6..8]) && t[14..18] == HexText(v[6..8]);
    assert s[19..23] == HexText(u[8..10]) && t[19..23] == HexText(v[8..10]);
    assert s[24..36] == HexText(u[10..]) && t[24..36] == HexText(v[10..]);
    HexTextIsInjective(u[..4], v[..4]);
    HexTextIsInjective(u[4..6], v[4..6]);
    HexTextIsInjective(u[6..8], v[6..8]);
    HexTextIsInjective(u[8..10], v[8..10]);
    HexTextIsInjective(u[10..], v[10..]);
    assert u == u[..4] + u[4..6] + u[6..8] + u[8..10] + u[10..];
    assert v == v[..4] + v[4..6] + v[6..8] + v[8..10] + v[10..];
  }
}
