/** Decimal rendering of integers, as `std::stringstream << n` writes them. */
module Text {

  predicate IsDigit(c: char) {
    '0' <= c <= '9'
  }

  predicate AllDigits(s: string) {
    forall i :: 0 <= i < |s| ==> IsDigit(s[i])
  }

  function DigitChar(d: nat): (c: char)
    requires d < 10
    ensures IsDigit(c)
    ensures (c as int) - ('0' as int) == d
  {
    (('0' as int) + d) as char
  }

  function DigitValue(c: char): nat
    requires IsDigit(c)
  {
    (c as int) - ('0' as int)
  }

  /** Decimal digits of `n`, most significant first, without leading zeros. */
  function NatToString(n: nat): (s: string)
    ensures 1 <= |s|
    ensures AllDigits(s)
    ensures 1 < |s| ==> s[0] != '0'
    decreases n
  {
    if n < 10 then [DigitChar(n)] else NatToString(n / 10) + [DigitChar(n % 10)]
  }

  /** A signed integer: a '-' then the digits of its magnitude when negative. */
  function IntToString(i: int): (s: string)
    ensures 1 <= |s|
    ensures i < 0 <==> s[0] == '-'
    ensures i >= 0 ==> AllDigits(s)
  {
    if i < 0 then "-" + NatToString(-i) else NatToString(i)
  }

  /** Reads back a string of decimal digits. */
  function ParseNat(s: string): nat
    requires AllDigits(s)
    decreases |s|
  {
    if |s| == 0 then 0 else ParseNat(s[..|s| - 1]) * 10 + DigitValue(s[|s| - 1])
  }

  function ParseInt(s: string): int
    requires 1 <= |s|
    requires s[0] == '-' ==> AllDigits(s[1..])
    requires s[0] != '-' ==> AllDigits(s)
  {
    if s[0] == '-' then -(ParseNat(s[1..]) as int) else ParseNat(s)
  }

  /** Reading the rendering of a natural number gives the number back. */
  lemma {:induction false} ParseNatToString(n: nat)
    ensures ParseNat(NatToString(n)) == n
    decreases n
  {
    if n >= 10 {
      var s := NatToString(n);
      assert s[..|s| - 1] == NatToString(n / 10);
      ParseNatToString(n / 10);
    }
  }

  /** Reading the rendering of an integer gives the integer back, so the
      rendering is injective: distinct values print differently. */
  lemma ParseIntToString(i: int)
    ensures var s := IntToString(i);
      && (s[0] == '-' ==> AllDigits(s[1..]))
      && (s[0] != '-' ==> AllDigits(s))
      && ParseInt(s) == i
  {
    if i < 0 {
      var s := IntToString(i);
      assert s[1..] == NatToString(-i);
      ParseNatToString(-i);
    } else {
      ParseNatToString(i);
    }
  }

  lemma IntToStringInjective(a: int, b: int)
    ensures IntToString(a) == IntToString(b) ==> a == b
  {
    ParseIntToString(a);
    ParseIntToString(b);
  }

  lemma NatToStringInjective(a: nat, b: nat)
    ensures NatToString(a) == NatToString(b) ==> a == b
  {
    ParseNatToString(a);
    ParseNatToString(b);
  }

  /** A run of digits followed by a non-digit can be split off in one way only:
      `a + ra == b + rb` with digit runs `a`, `b` and non-digit heads of `ra`,
      `rb` forces `a == b` and `ra == rb`. */
  lemma DigitRunSplit(a: string, ra: string, b: string, rb: string)
    requires AllDigits(a) && AllDigits(b)
    requires |ra| > 0 && !IsDigit(ra[0]) && |rb| > 0 && !IsDigit(rb[0])
    requires a + ra == b + rb
    ensures a == b && ra == rb
  {
    var k := if |a| < |b| then |a| else |b|;
    assert (a + ra)[k] == (b + rb)[k];
    assert |a| == |b|;
    assert a == (a + ra)[..|a|];
    assert b == (b + rb)[..|b|];
    assert ra == (a + ra)[|a|..];
    assert rb == (b + rb)[|b|..];
  }

  lemma Unprefix(pre: string, x: string, y: string)
    requires pre + x == pre + y
    ensures x == y
  {
    assert x == (pre + x)[|pre|..];
    assert y == (pre + y)[|pre|..];
  }

  lemma Unsuffix(x: string, y: string, suf: string)
    requires x + suf == y + suf
    ensures x == y
  {
    assert x == (x + suf)[..|x|];
    assert y == (y + suf)[..|y|];
  }
}
