/** Text to integers as the C library does it, on strings that end at the first NUL. */
module Strtol {
  import opened Bytes
  import opened Decimal
  import opened Wire

  function At(s: Bytestring, i: nat): Byte { if i < |s| then s[i] else NUL }

  predicate IsSpace(b: Byte) { 9 <= b <= 13 || b == SPACE }

  function Spaces(s: Bytestring): (n: nat)
    ensures n <= |s|
  {
    if s == [] || !IsSpace(s[0]) then 0 else 1 + Spaces(s[1..])
  }

  function DigitRun(s: Bytestring): (n: nat)
    ensures n <= |s| && Digits(s[..n])
  {
    if s == [] || !Digit(s[0]) then 0
    else
      var n := DigitRun(s[1..]);
      assert s[..1 + n] == [s[0]] + s[1..][..n];
      1 + n
  }

  const PLUS: Byte := 43

  /** The number at the start of s, not limited in size, and the position after it; position 0 when
      there is no number. */
  function Number(s: Bytestring): (r: (int, nat))
    ensures r.1 <= |s|
  {
    var i := Spaces(s);
    var signed := At(s, i) == MINUS || At(s, i) == PLUS;
    var k := if signed then i + 1 else i;
    var n := DigitRun(s[k..]);
    if n == 0 then (0, 0)
    else
      var v: int := Value(s[k..][..n]);
      (if At(s, i) == MINUS then -v else v, k + n)
  }

  const INT64_MAX := 0x7FFF_FFFF_FFFF_FFFF

  /** strtol and strtoll saturate. */
  function Strtoll(s: Bytestring): (v: int)
    ensures Int64(v)
  {
    var v := Number(s).0;
    if v > INT64_MAX then INT64_MAX else if v < -INT64_MAX - 1 then -INT64_MAX - 1 else v
  }

  /** Conversion to int keeps the low 32 bits. */
  function AsInt(v: int): int { (v + 0x8000_0000) % 0x1_0000_0000 - 0x8000_0000 }

  function Atoi(s: Bytestring): int { AsInt(Strtoll(s)) }

  /** getLongLongFromObject. */
  function GetLongLong(s: Bytestring): (r: Option<int>)
    ensures r.Some? ==> Int64(r.value)
  {
    var (v, end) := Number(s);
    if IsSpace(At(s, 0)) || At(s, end) != NUL || !Int64(v) then None else Some(v)
  }

  lemma {:induction false} DigitRunIs(d: Bytestring, tail: Bytestring)
    requires Digits(d) && !Digit(At(tail, 0))
    ensures DigitRun(d + tail) == |d|
  {
    if d == [] {
      assert d + tail == tail;
    } else {
      assert (d + tail)[1..] == d[1..] + tail;
      DigitRunIs(d[1..], tail);
    }
  }

  lemma NumberOfDigits(n: nat, tail: Bytestring)
    requires !Digit(At(tail, 0))
    ensures Number(PrintNat(n) + tail) == (n, |PrintNat(n)|)
    ensures var r := Number([MINUS] + PrintNat(n) + tail); r.0 + n == 0 && r.1 == |PrintNat(n)| + 1
  {
    var d := PrintNat(n);
    var s, m := d + tail, [MINUS] + d + tail;
    ValueOfPrint(n);
    hide PrintNat;
    DigitRunIs(d, tail);
    assert Digit(d[0]) && s[0] == d[0] && m[0] == MINUS;
    assert s[0..] == s && m[1..] == s && s[..|d|] == d;
    hide DigitRun, Value, Digits;
  }

  /** A printed number is read back, whatever comes after it but a digit. */
  lemma NumberOfPrint(v: int, tail: Bytestring)
    requires !Digit(At(tail, 0))
    ensures Number(Print(v) + tail) == (v, |Print(v)|)
  {
    hide Number, PrintNat;
    NumberOfDigits(if v < 0 then -v else v, tail);
  }

  /** What the server prints it also accepts as a number. */
  lemma GetLongLongOfPrint(v: int)
    requires Int64(v)
    ensures GetLongLong(Print(v)) == Some(v) && Strtoll(Print(v)) == v
  {
    NumberOfPrint(v, []);
    assert Print(v) + [] == Print(v);
    assert At([], 0) == NUL;
    var s := Print(v);
    assert s[0] == MINUS || Digit(s[0]);
  }

  /** A sign, if any, and digits, up to the end or a NUL. */
  ghost predicate Numeral(s: Bytestring, sign: Bytestring, digits: Bytestring)
  {
    && (sign == [] || sign == [MINUS] || sign == [PLUS]) && digits != [] && Digits(digits)
    && sign + digits <= s && At(s, |sign + digits|) == NUL
  }

  function Amount(sign: Bytestring, digits: Bytestring): int
    requires Digits(digits)
  {
    var n: int := Value(digits);
    if sign == [MINUS] then -n else n
  }

  lemma NumeralIs(s: Bytestring, sign: Bytestring, digits: Bytestring)
    requires Numeral(s, sign, digits)
    ensures Number(s) == (Amount(sign, digits), |sign + digits|) && !IsSpace(At(s, 0)) && At(s, 0) != NUL
  {
    var tail := s[|sign + digits|..];
    assert s == sign + digits + tail && At(tail, 0) == At(s, |sign + digits|);
    assert s[|sign|] == digits[0] && Digit(digits[0]);
    assert s[|sign|..] == digits + tail;
    DigitRunIs(digits, tail);
    assert (digits + tail)[..|digits|] == digits;
    hide DigitRun, Value, Digits;
  }

  lemma NumeralThere(s: Bytestring) returns (sign: Bytestring, digits: Bytestring)
    requires At(s, 0) != NUL && !IsSpace(At(s, 0)) && At(s, Number(s).1) == NUL
    ensures Numeral(s, sign, digits)
  {
    sign := if s[0] == MINUS || s[0] == PLUS then [s[0]] else [];
    digits := s[|sign|..][..DigitRun(s[|sign|..])];
    assert sign + digits == s[..|sign| + |digits|];
  }

  lemma NothingThere(s: Bytestring)
    requires At(s, 0) == NUL
    ensures Number(s) == (0, 0)
  {
    assert s[0..] == s;
  }

  /** A text is a number if and only if it is a sign or none and decimal digits, leading zeros allowed, that stand for a
      64-bit integer; the empty text counts as 0. */
  lemma GetLongLongIs(s: Bytestring, v: int)
    ensures GetLongLong(s) == Some(v) <==>
      if At(s, 0) == NUL then v == 0
      else Int64(v) && exists sign, digits :: Numeral(s, sign, digits) && v == Amount(sign, digits)
  {
    hide Amount, Numeral;
    if At(s, 0) == NUL {
      NothingThere(s);
    } else {
      if !IsSpace(At(s, 0)) && At(s, Number(s).1) == NUL { var sign, digits := NumeralThere(s); }
      forall sign, digits | Numeral(s, sign, digits)
        ensures Digits(digits) && Number(s) == (Amount(sign, digits), |sign + digits|) && !IsSpace(At(s, 0))
          && At(s, |sign + digits|) == NUL {
        NumeralEnds(s, sign, digits);
        NumeralIs(s, sign, digits);
      }
    }
    hide Number;
  }

  lemma NumeralEnds(s: Bytestring, sign: Bytestring, digits: Bytestring)
    requires Numeral(s, sign, digits)
    ensures At(s, |sign + digits|) == NUL && Digits(digits)
  {
  }
}
