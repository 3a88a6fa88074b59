/** util.c: signed 64-bit integers in decimal, printed and parsed. */
module Decimal {
  import opened Bytes

  const MINUS: Byte := 45
  const ZERO: Byte := 48

  predicate Int64(v: int) { -0x8000_0000_0000_0000 <= v < 0x8000_0000_0000_0000 }

  predicate Digit(b: Byte) { 48 <= b <= 57 }

  predicate Digits(s: Bytestring) { forall i :: 0 <= i < |s| ==> Digit(s[i]) }

  function DigitByte(d: nat): Byte
    requires d < 10
  {
    48 + d
  }

  /** The digits of n, without leading zeros. */
  function PrintNat(n: nat): (s: Bytestring)
    ensures s != [] && Digits(s) && (s[0] == ZERO ==> n == 0 && s == [ZERO])
  {
    if n < 10 then [DigitByte(n)] else PrintNat(n / 10) + [DigitByte(n % 10)]
  }

  function Print(v: int): (s: Bytestring)
    ensures s != []
  {
    if v < 0 then [MINUS] + PrintNat(-v) else PrintNat(v)
  }

  function Ten(k: nat): (r: nat)
    ensures r > 0
  {
    if k == 0 then 1 else 10 * Ten(k - 1)
  }

  lemma {:induction false} PrintShort(n: nat, k: nat)
    requires k > 0 && n < Ten(k)
    ensures |PrintNat(n)| <= k
  {
    if n >= 10 {
      assert Ten(1) == 10 * Ten(0);
      PrintShort(n / 10, k - 1);
    }
  }

  lemma TenNineteen()
    ensures Ten(19) > 0x7FFF_FFFF_FFFF_FFFF
  {
    assert Ten(5) == 100000;
    assert Ten(10) == 100000 * Ten(5);
    assert Ten(15) == 100000 * Ten(10);
  }

  /** The number a digit string stands for. */
  function Value(s: Bytestring): nat
    requires Digits(s)
  {
    if s == [] then 0
    else
      var d: int := s[|s| - 1];
      Value(s[..|s| - 1]) * 10 + (d - 48)
  }

  lemma {:induction false} ValueOfPrint(n: nat)
    ensures Value(PrintNat(n)) == n
  {
    if n >= 10 {
      ValueOfPrint(n / 10);
      var s := PrintNat(n);
      assert s[..|s| - 1] == PrintNat(n / 10);
    }
  }

  lemma {:induction false} PrintOfValue(s: Bytestring)
    requires Digits(s) && s != [] && (s[0] == ZERO ==> |s| == 1)
    ensures PrintNat(Value(s)) == s
    ensures |s| > 1 ==> Value(s) >= 10
  {
    var t := s[..|s| - 1];
    if |s| > 1 {
      PrintOfValue(t);
      var d: int := s[|s| - 1];
      assert PrintNat(0) == [ZERO];
      assert Value(s) / 10 == Value(t) && Value(s) % 10 == d - 48;
      assert s == t + [s[|s| - 1]];
    }
  }

  /** A prefix never stands for more. */
  lemma {:induction false} ValueMonotone(s: Bytestring, i: nat)
    requires Digits(s) && i <= |s|
    ensures Value(s[..i]) <= Value(s)
    ensures i < |s| ==> Value(s[..i]) * 10 <= Value(s)
    decreases |s|
  {
    if i == |s| {
      assert s[..i] == s;
    } else {
      var t := s[..|s| - 1];
      assert t[..i] == s[..i];
      ValueMonotone(t, i);
    }
  }

  /** What string2ll accepts. */
  function Parse(s: Bytestring): Option<int>
  {
    var negative := s != [] && s[0] == MINUS;
    var d := if negative then s[1..] else s;
    if d == [] || !Digits(d) || (d[0] == ZERO && s != [ZERO]) then None
    else
      var v: int := Value(d);
      if Int64(if negative then -v else v) then Some(if negative then -v else v) else None
  }

  /** string2ll reads exactly the canonical form of exactly the 64-bit integers: no sign but '-',
      no leading zero, no "-0", no overflow. */
  lemma ParseIsInverse(s: Bytestring, v: int)
    ensures Parse(s) == Some(v) <==> Int64(v) && s == Print(v)
  {
    if Parse(s) == Some(v) { ParsedIsPrinted(s, v); }
    if Int64(v) && s == Print(v) { PrintedParses(v); }
  }

  lemma ZeroPrinted()
    ensures PrintNat(0) == [ZERO]
  {
  }

  lemma ParsedIsPrinted(s: Bytestring, v: int)
    requires Parse(s) == Some(v)
    ensures Int64(v) && s == Print(v)
  {
    ZeroPrinted();
    hide PrintNat, Value;
    if s[0] == MINUS {
      PrintOfValue(s[1..]);
      assert s == [MINUS] + s[1..];
      assert s[1..] != [ZERO];
    } else {
      PrintOfValue(s);
    }
  }

  lemma PrintedParses(v: int)
    requires Int64(v)
    ensures Parse(Print(v)) == Some(v)
  {
    if v < 0 {
      ValueOfPrint(-v);
      assert Print(v)[1..] == PrintNat(-v);
    } else {
      ValueOfPrint(v);
    }
  }

  /** The last digit of v goes in front of what is already there. */
  lemma PrintNatStep(v: nat, s: Bytestring)
    requires v > 0
    ensures PrintNat(v) + s == (if v < 10 then [] else PrintNat(v / 10)) + ([DigitByte(v % 10)] + s)
  {
  }

  /** ll2string: digits are produced last to first. */
  method Ll2String(value: int) returns (s: Bytestring)
    requires Int64(value)
    ensures s == Print(value)
  {
    var v := if value < 0 then -value else value;
    ghost var n := v;
    if v > 0 { PrintNatStep(v, []); }
    s := [DigitByte(v % 10)];
    v := v / 10;
    while v != 0
      invariant v >= 0
      invariant (if v == 0 then s else PrintNat(v) + s) == PrintNat(n)
      decreases v
    {
      PrintNatStep(v, s);
      s := [DigitByte(v % 10)] + s;
      v := v / 10;
    }
    if value < 0 { s := [MINUS] + s; }
  }

  const ULLONG_MAX := 0xFFFF_FFFF_FFFF_FFFF

  /** The digit loop of string2ll, which stops before an unsigned 64-bit overflow. */
  method ParseDigits(d: Bytestring) returns (ok: bool, v: nat)
    requires d != [] && Digit(d[0])
    ensures ok ==> Digits(d) && v == Value(d) <= ULLONG_MAX
    ensures !ok ==> !Digits(d) || Value(d) > ULLONG_MAX
  {
    var first: int := d[0];
    v := first - 48;
    assert d[..1][..0] == [];
    var plen := 1;
    while plen < |d| && Digit(d[plen])
      invariant 1 <= plen <= |d| && Digits(d[..plen]) && v == Value(d[..plen]) <= ULLONG_MAX
    {
      var c: int := d[plen];
      assert d[..plen + 1][..plen] == d[..plen];
      if Digits(d) { ValueMonotone(d, plen); ValueMonotone(d, plen + 1); }
      if v > ULLONG_MAX / 10 { return false, 0; }
      v := v * 10;
      if v > ULLONG_MAX - (c - 48) { return false, 0; }
      v := v + (c - 48);
      plen := plen + 1;
    }
    assert d[..|d|] == d;
    ok := plen == |d|;
  }

  /** string2ll. */
  method String2Ll(s: Bytestring) returns (r: Option<int>)
    ensures r == Parse(s)
  {
    if |s| == 0 { return None; }
    if |s| == 1 && s[0] == ZERO { assert s == [ZERO]; assert Value(s) == 0; return Some(0); }
    var negative := s[0] == MINUS;
    var d := if negative then s[1..] else s;
    if |d| == 0 { return None; }
    if !(49 <= d[0] <= 57) { return None; }
    var ok, v := ParseDigits(d);
    if !ok { return None; }
    if negative {
      if v > 0x8000_0000_0000_0000 { return None; }
      return Some(-v);
    }
    if v > 0x7FFF_FFFF_FFFF_FFFF { return None; }
    return Some(v);
  }
}
