/**
 * The two pieces of `fmt` formatting the core relies on and whose output is
 * fixed: decimal integers (`%d`, and `%v` of an int) and lower-case hex of a
 * byte slice (`%x`).
 */
module Text {

  newtype byte = x: int | 0 <= x < 256

  predicate IsDigit(c: char)
  {
    '0' <= c <= '9'
  }

  predicate AllDigits(s: string)
  {
    forall i :: 0 <= i < |s| ==> IsDigit(s[i])
  }

  function DigitChar(d: nat): (c: char)
    requires d < 10
    ensures IsDigit(c)
  {
    ('0' as int + d) as char
  }

  function DigitValue(c: char): (d: nat)
    requires IsDigit(c)
    ensures d < 10 && DigitChar(d) == c
  {
    c as int - '0' as int
  }

  /** Decimal digits of `n`, most significant first, with no leading zero. */
  function NatString(n: nat): (r: string)
    ensures |r| > 0 && AllDigits(r)
    ensures r[0] == '0' ==> n == 0 && r == "0"
  {
    if n < 10 then [DigitChar(n)] else NatString(n / 10) + [DigitChar(n % 10)]
  }

  /** The value of a string of decimal digits. */
  function ParseNat(s: string): nat
    requires AllDigits(s)
    decreases |s|
  {
    if s == [] then 0 else ParseNat(s[..|s| - 1]) * 10 + DigitValue(s[|s| - 1])
  }

  lemma {:induction false} NatStringRoundTrip(n: nat)
    ensures ParseNat(NatString(n)) == n
  {
    if n >= 10 {
      var s := NatString(n);
      assert s[..|s| - 1] == NatString(n / 10);
      NatStringRoundTrip(n / 10);
    }
  }

  /** What `%d` prints for an int: a minus sign for negatives, then the digits. */
  predicate IsIntText(s: string)
  {
    (|s| > 1 && s[0] == '-' && AllDigits(s[1..])) || (|s| > 0 && AllDigits(s))
  }

  function ParseInt(s: string): int
    requires IsIntText(s)
  {
    if s[0] == '-' then 0 - ParseNat(s[1..]) as int else ParseNat(s)
  }

  /** `%d` / `%v` of an int: the canonical decimal text that reads back as the same number. */
  function IntString(i: int): (r: string)
    ensures IsIntText(r) && ParseInt(r) == i
    ensures r[0] == '-' <==> i < 0
    ensures r[0] == '0' ==> r == "0"
    ensures i < 0 ==> r[1] != '0'
  {
    if i < 0 then
      NatStringRoundTrip(-i);
      var r := "-" + NatString(-i);
      assert r[1..] == NatString(-i);
      r
    else
      NatStringRoundTrip(i);
      NatString(i)
  }

  /** Concatenation is associative; stated once for the loops that build text piece by piece. */
  lemma AppendAssociates(a: string, b: string, c: string)
    ensures a + (b + c) == (a + b) + c
  {
  }

  /** A text made of five parts, cut back into those parts. */
  lemma ConcatParts(a: string, b: string, c: string, d: string, e: string)
    ensures var r := a + b + c + d + e;
      && |r| == |a| + |b| + |c| + |d| + |e|
      && r[..|a|] == a
      && r[|a|..|a| + |b|] == b
      && r[|a| + |b|..|a| + |b| + |c|] == c
      && r[|a| + |b| + |c|..|r| - |e|] == d
      && r[|r| - |e|..] == e
      && r[..|r| - |e|] == a + b + c + d
  {
    var r := a + b + c + d + e;
    var p1 := a + b;
    var p2 := p1 + c;
    var p3 := p2 + d;
    assert r == p3 + e;
    assert r[..|p3|] == p3 && r[|p3|..] == e;
    assert p3[..|p2|] == p2 && p3[|p2|..] == d;
    assert p2[..|p1|] == p1 && p2[|p1|..] == c;
    assert p1[..|a|] == a && p1[|a|..] == b;
  }

  predicate IsHexDigit(c: char)
  {
    '0' <= c <= '9' || 'a' <= c <= 'f'
  }

  function HexValue(c: char): (d: nat)
    requires IsHexDigit(c)
    ensures d < 16
  {
    if c <= '9' then c as int - '0' as int else c as int - 'a' as int + 10
  }

  function HexChar(d: nat): (c: char)
    requires d < 16
    ensures IsHexDigit(c) && HexValue(c) == d
  {
    if d < 10 then ('0' as int + d) as char else ('a' as int + d - 10) as char
  }

  /** `%x` of a byte slice: two lower-case hex digits per byte, high nibble first. */
  function Hex(bs: seq<byte>): (r: string)
    ensures |r| == 2 * |bs|
    ensures forall i :: 0 <= i < |r| ==> IsHexDigit(r[i])
  {
    if bs == [] then []
    else [HexChar(bs[0] as int / 16), HexChar(bs[0] as int % 16)] + Hex(bs[1..])
  }

  /** Reads a hex text back into bytes. */
  function Unhex(s: string): seq<byte>
    requires |s| % 2 == 0
    requires forall i :: 0 <= i < |s| ==> IsHexDigit(s[i])
    decreases |s|
  {
    if s == [] then []
    else [(HexValue(s[0]) * 16 + HexValue(s[1])) as byte] + Unhex(s[2..])
  }

  /** The hex text loses nothing: it reads back as the bytes it was made from. */
  lemma {:induction false} HexRoundTrip(bs: seq<byte>)
    ensures Unhex(Hex(bs)) == bs
  {
    if bs != [] {
      var h := Hex(bs);
      assert h[2..] == Hex(bs[1..]);
      HexRoundTrip(bs[1..]);
      assert bs == [bs[0]] + bs[1..];
    }
  }
}
