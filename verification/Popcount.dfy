/** bitops.c, popcount: bits counted sixteen bytes at a time, in parallel inside machine words. */
module Popcount {
  import opened BitString

  // ----- what is to be counted -----

  function Bit(b: bv8, mask: bv8): nat { if b & mask != 0 then 1 else 0 }

  function OnesIn(b: bv8): nat
  {
    Bit(b, 1) + Bit(b, 2) + Bit(b, 4) + Bit(b, 8) + Bit(b, 16) + Bit(b, 32) + Bit(b, 64) + Bit(b, 128)
  }

  function Ones(s: Bits): nat
  {
    if s == [] then 0 else Ones(s[..|s| - 1]) + OnesIn(s[|s| - 1])
  }

  // ----- the table -----

  // bitsinbyte, sixteen entries to a row.

  const ROW_0: seq<nat> := [0, 1, 1, 2, 1, 2, 2, 3, 1, 2, 2, 3, 2, 3, 3, 4]
  const ROW_1: seq<nat> := [1, 2, 2, 3, 2, 3, 3, 4, 2, 3, 3, 4, 3, 4, 4, 5]
  const ROW_2: seq<nat> := [1, 2, 2, 3, 2, 3, 3, 4, 2, 3, 3, 4, 3, 4, 4, 5]
  const ROW_3: seq<nat> := [2, 3, 3, 4, 3, 4, 4, 5, 3, 4, 4, 5, 4, 5, 5, 6]
  const ROW_4: seq<nat> := [1, 2, 2, 3, 2, 3, 3, 4, 2, 3, 3, 4, 3, 4, 4, 5]
  const ROW_5: seq<nat> := [2, 3, 3, 4, 3, 4, 4, 5, 3, 4, 4, 5, 4, 5, 5, 6]
  const ROW_6: seq<nat> := [2, 3, 3, 4, 3, 4, 4, 5, 3, 4, 4, 5, 4, 5, 5, 6]
  const ROW_7: seq<nat> := [3, 4, 4, 5, 4, 5, 5, 6, 4, 5, 5, 6, 5, 6, 6, 7]
  const ROW_8: seq<nat> := [1, 2, 2, 3, 2, 3, 3, 4, 2, 3, 3, 4, 3, 4, 4, 5]
  const ROW_9: seq<nat> := [2, 3, 3, 4, 3, 4, 4, 5, 3, 4, 4, 5, 4, 5, 5, 6]
  const ROW_10: seq<nat> := [2, 3, 3, 4, 3, 4, 4, 5, 3, 4, 4, 5, 4, 5, 5, 6]
  const ROW_11: seq<nat> := [3, 4, 4, 5, 4, 5, 5, 6, 4, 5, 5, 6, 5, 6, 6, 7]
  const ROW_12: seq<nat> := [2, 3, 3, 4, 3, 4, 4, 5, 3, 4, 4, 5, 4, 5, 5, 6]
  const ROW_13: seq<nat> := [3, 4, 4, 5, 4, 5, 5, 6, 4, 5, 5, 6, 5, 6, 6, 7]
  const ROW_14: seq<nat> := [3, 4, 4, 5, 4, 5, 5, 6, 4, 5, 5, 6, 5, 6, 6, 7]
  const ROW_15: seq<nat> := [4, 5, 5, 6, 5, 6, 6, 7, 5, 6, 6, 7, 6, 7, 7, 8]

  function Row(r: nat): (row: seq<nat>)
    requires r < 16
    ensures |row| == 16
  {
    if r == 0 then ROW_0 else if r == 1 then ROW_1 else if r == 2 then ROW_2 else if r == 3 then ROW_3
    else if r == 4 then ROW_4 else if r == 5 then ROW_5 else if r == 6 then ROW_6 else if r == 7 then ROW_7
    else if r == 8 then ROW_8 else if r == 9 then ROW_9 else if r == 10 then ROW_10 else if r == 11 then ROW_11
    else if r == 12 then ROW_12 else if r == 13 then ROW_13 else if r == 14 then ROW_14 else ROW_15
  }

  /** Every row is the first row, raised by the entry of the row's number in it. */
  lemma RowIs(r: nat, k: nat)
    requires r < 16 && k < 16
    ensures Row(r)[k] == ROW_0[r] + ROW_0[k]
  {
    if r < 4 { RowsBelow4(r, k); }
    else if r < 8 { RowsBelow8(r, k); }
    else if r < 12 { RowsBelow12(r, k); }
    else { RowsBelow16(r, k); }
  }

  lemma RowsBelow4(r: nat, k: nat)
    requires r < 4 && k < 16
    ensures Row(r)[k] == ROW_0[r] + ROW_0[k]
  {
  }

  lemma RowsBelow8(r: nat, k: nat)
    requires 4 <= r < 8 && k < 16
    ensures Row(r)[k] == ROW_0[r] + ROW_0[k]
  {
  }

  lemma RowsBelow12(r: nat, k: nat)
    requires 8 <= r < 12 && k < 16
    ensures Row(r)[k] == ROW_0[r] + ROW_0[k]
  {
  }

  lemma RowsBelow16(r: nat, k: nat)
    requires 12 <= r < 16 && k < 16
    ensures Row(r)[k] == ROW_0[r] + ROW_0[k]
  {
  }

  /** bitsinbyte[b]. */
  function BitsInByte(b: bv8): nat
  {
    Halves(b);
    Row(b as nat / 16)[b as nat % 16]
  }

  function LowOnes(b: bv8): nat { Bit(b, 1) + Bit(b, 2) + Bit(b, 4) + Bit(b, 8) }

  lemma NibbleCounts(x: bv8)
    requires x < 16
    ensures x as nat < 16 && ROW_0[x as nat] == LowOnes(x)
  {
    assert x == 0 || x == 1 || x == 2 || x == 3 || x == 4 || x == 5 || x == 6 || x == 7 ||
           x == 8 || x == 9 || x == 10 || x == 11 || x == 12 || x == 13 || x == 14 || x == 15;
  }

  lemma Halves(b: bv8)
    ensures b as nat / 16 == (b >> 4) as nat && b as nat % 16 == (b & 15) as nat && b >> 4 < 16 && b & 15 < 16
    ensures OnesIn(b) == LowOnes(b & 15) + LowOnes(b >> 4)
  {
  }

  /** Every entry is the number of ones of its index. */
  lemma TableCounts(b: bv8)
    ensures BitsInByte(b) == OnesIn(b)
  {
    Halves(b);
    NibbleCounts(b >> 4);
    NibbleCounts(b & 15);
    hide LowOnes, OnesIn, Row;
    RowIs(b as nat / 16, b as nat % 16);
  }

  // ----- counting inside a word -----

  function Pairs(x: bv32): bv32 { x - ((x >> 1) & 0x5555_5555) }

  function Nibbles(x: bv32): bv32 { (x & 0x3333_3333) + ((x >> 2) & 0x3333_3333) }

  function Eights(x: bv32): bv32 { (x + (x >> 4)) & 0x0F0F_0F0F }

  /** Every byte of the result counts the ones of the same byte of x. */
  function Counts(x: bv32): bv32 { Eights(Nibbles(Pairs(x))) }

  /** The four counts added up in the highest byte. */
  function WordCount(x: bv32): bv32 { (Counts(x) * 0x0101_0101) >> 24 }

  function SumBits(b: bv8): bv8
  {
    (b & 1) + ((b >> 1) & 1) + ((b >> 2) & 1) + ((b >> 3) & 1)
      + ((b >> 4) & 1) + ((b >> 5) & 1) + ((b >> 6) & 1) + ((b >> 7) & 1)
  }

  function Low(x: bv32): bv8 { (x & 0xFF) as bv8 }

  function High(x: bv32): bv32 { x >> 8 }

  lemma CountsLow(x: bv32)
    ensures Low(Counts(x)) == SumBits(Low(x)) && Counts(x) & 0xF0F0_F0F0 == 0
  {
  }

  function PairSums(x: bv32): bv32 { (x & 0x5555_5555) + ((x >> 1) & 0x5555_5555) }

  lemma PairsAdd(x: bv32)
    ensures Pairs(x) == PairSums(x)
  {
  }

  lemma PairSumsHigh(x: bv32)
    ensures High(PairSums(x)) == PairSums(High(x))
  {
  }

  predicate Spread(x: bv32) { x & 0x8888_8888 == 0 }

  lemma NibblesHigh(x: bv32)
    ensures High(Nibbles(x)) == Nibbles(High(x)) && Spread(Nibbles(x))
  {
  }

  lemma EightsHigh(x: bv32)
    requires Spread(x)
    ensures High(Eights(x)) == Eights(High(x))
  {
  }

  /** No count depends on the bytes below it. */
  lemma CountsHigh(x: bv32)
    ensures High(Counts(x)) == Counts(High(x))
  {
    hide Pairs, PairSums, Nibbles, Eights, High, Spread;
    PairsAdd(x);
    PairsAdd(High(x));
    PairSumsHigh(x);
    NibblesHigh(Pairs(x));
    EightsHigh(Nibbles(Pairs(x)));
  }

  // ----- from machine arithmetic to numbers -----

  lemma Successor(v: bv32)
    requires v < 255
    ensures (v + 1) as nat == v as nat + 1
  {
  }

  lemma AddBit(v: bv8, t: bv8)
    requires v < 100 && t <= 1
    ensures (v + t) as nat == v as nat + (if t == 0 then 0 else 1) && v + t <= v + 1
  {
  }

  lemma BitAt(b: bv8)
    ensures Bit(b, 1) == (if b & 1 == 0 then 0 else 1) && Bit(b, 2) == (if (b >> 1) & 1 == 0 then 0 else 1)
    ensures Bit(b, 4) == (if (b >> 2) & 1 == 0 then 0 else 1) && Bit(b, 8) == (if (b >> 3) & 1 == 0 then 0 else 1)
    ensures Bit(b, 16) == (if (b >> 4) & 1 == 0 then 0 else 1) && Bit(b, 32) == (if (b >> 5) & 1 == 0 then 0 else 1)
    ensures Bit(b, 64) == (if (b >> 6) & 1 == 0 then 0 else 1) && Bit(b, 128) == (if (b >> 7) & 1 == 0 then 0 else 1)
  {
  }

  lemma AddEight(a: bv8, b: bv8, c: bv8, d: bv8, e: bv8, f: bv8, g: bv8, h: bv8)
    requires a <= 1 && b <= 1 && c <= 1 && d <= 1 && e <= 1 && f <= 1 && g <= 1 && h <= 1
    ensures a + b + c + d + e + f + g + h <= 8
    ensures (a + b + c + d + e + f + g + h) as nat
         == One(a) + One(b) + One(c) + One(d) + One(e) + One(f) + One(g) + One(h)
  {
    AddBit(0, a);
    AddBit(a, b);
    AddBit(a + b, c);
    AddBit(a + b + c, d);
    AddBit(a + b + c + d, e);
    AddBit(a + b + c + d + e, f);
    AddBit(a + b + c + d + e + f, g);
    AddBit(a + b + c + d + e + f + g, h);
  }

  function One(t: bv8): nat { if t == 0 then 0 else 1 }

  lemma SumIsOnes(b: bv8)
    ensures SumBits(b) as nat == OnesIn(b) && SumBits(b) <= 8
  {
    BitAt(b);
    AddEight(b & 1, (b >> 1) & 1, (b >> 2) & 1, (b >> 3) & 1, (b >> 4) & 1, (b >> 5) & 1, (b >> 6) & 1, (b >> 7) & 1);
    hide Bit;
  }

  function Plus(x: bv32, y: bv32): bv32 { x + y }

  function Less(y: bv32): bv32 { y - 1 }

  function Number(x: bv32): nat { x as nat }

  predicate Small(x: bv32) { x <= 100 }

  function Next(v: bv32): bv32 { v + 1 }

  predicate Short(v: bv32) { v < 255 }

  lemma NextNumber(v: bv32)
    requires Short(v)
    ensures Number(Next(v)) == Number(v) + 1
  {
    Successor(v);
  }

  lemma PlusNext(x: bv32, y: bv32)
    requires Small(x) && Small(y) && y != 0
    ensures y == Next(Less(y)) && Plus(x, y) == Next(Plus(x, Less(y)))
    ensures Small(Less(y)) && Short(Less(y)) && Short(Plus(x, Less(y)))
  {
  }

  lemma OneLess(x: bv32, y: bv32)
    requires Small(x) && Small(y) && y != 0
    ensures Small(Less(y)) && Number(y) == Number(Less(y)) + 1 && Number(Plus(x, y)) == Number(Plus(x, Less(y))) + 1
  {
    hide Plus, Less, Number, Small, Next, Short;
    PlusNext(x, y);
    NextNumber(Less(y));
    NextNumber(Plus(x, Less(y)));
  }

  lemma {:induction false} AddSmall(x: bv32, y: bv32)
    requires Small(x) && Small(y)
    ensures Number(Plus(x, y)) == Number(x) + Number(y)
    decreases Number(y)
  {
    if y == 0 {
      AddZero(x, y);
    } else {
      OneLess(x, y);
      hide Plus, Less, Number, Small;
      AddSmall(x, Less(y));
    }
  }

  lemma PlusZero(x: bv32, y: bv32)
    requires y == 0
    ensures Plus(x, y) == x
  {
  }

  lemma ZeroNumber(y: bv32)
    requires y == 0
    ensures Number(y) == 0
  {
  }

  lemma AddZero(x: bv32, y: bv32)
    requires y == 0
    ensures Number(Plus(x, y)) == Number(x) + Number(y)
  {
    hide Plus, Number;
    PlusZero(x, y);
    ZeroNumber(y);
  }

  // ----- words -----

  function FourOnes(x: bv32): nat
  {
    OnesIn(Low(x)) + OnesIn(Low(High(x))) + OnesIn(Low(High(High(x)))) + OnesIn(Low(High(High(High(x)))))
  }

  lemma Widen(z: bv32)
    ensures (z & 0xFF) as nat == Low(z) as nat && (Low(z) <= 8 ==> z & 0xFF <= 8)
  {
  }

  function LowPart(z: bv32): bv32 { z & 0xFF }

  predicate Count(z: bv32) { z <= 8 }

  predicate Clean(z: bv32) { z & 0xF0F0_F0F0 == 0 }

  /** Byte by byte, the counts of a word are the numbers of ones. */
  lemma CountIs(x: bv32)
    ensures Clean(Counts(x)) && Number(LowPart(Counts(x))) == OnesIn(Low(x)) && Count(LowPart(Counts(x)))
  {
    CountsLow(x);
    SumIsOnes(Low(x));
    Widen(Counts(x));
    hide Counts, SumBits, Low, OnesIn;
  }

  function PlusFour(a: bv32, b: bv32, c: bv32, d: bv32): bv32 { a + b + c + d }

  lemma Bounds(a: bv32, b: bv32, c: bv32, d: bv32)
    requires Count(a) && Count(b) && Count(c) && Count(d)
    ensures Small(a) && Small(b) && Small(c) && Small(d) && Small(Plus(a, b)) && Small(Plus(Plus(a, b), c))
    ensures PlusFour(a, b, c, d) == Plus(Plus(Plus(a, b), c), d)
  {
  }

  lemma AddFour(a: bv32, b: bv32, c: bv32, d: bv32)
    requires Count(a) && Count(b) && Count(c) && Count(d)
    ensures Number(PlusFour(a, b, c, d)) == Number(a) + Number(b) + Number(c) + Number(d)
  {
    hide Count, Small, Plus, PlusFour, Number;
    Bounds(a, b, c, d);
    AddSmall(a, b);
    AddSmall(Plus(a, b), c);
    AddSmall(Plus(Plus(a, b), c), d);
  }

  function Multiplied(z: bv32): bv32 { (z * 0x0101_0101) >> 24 }

  /** The multiplication adds the four bytes up. */
  lemma MultipliedIs(z: bv32)
    requires Clean(z)
    ensures Multiplied(z) ==
      PlusFour(LowPart(z), LowPart(High(z)), LowPart(High(High(z))), LowPart(High(High(High(z)))))
  {
  }

  lemma WordCountUnfolds(x: bv32)
    ensures Number(Multiplied(Counts(x))) == WordCount(x) as nat
  {
    hide Counts;
  }

  /** The parallel count of a word is the number of its ones. */
  lemma WordCountIs(x: bv32)
    ensures WordCount(x) as nat == FourOnes(x)
  {
    WordCountUnfolds(x);
    hide Counts, WordCount, Multiplied, LowPart, High, Clean, Count, Low, OnesIn, PlusFour, Number;
    var x1, x2, x3 := High(x), High(High(x)), High(High(High(x)));
    CountIs(x);
    CountIs(x1);
    CountIs(x2);
    CountIs(x3);
    CountsHigh(x);
    CountsHigh(x1);
    CountsHigh(x2);
    MultipliedIs(Counts(x));
    AddFour(LowPart(Counts(x)), LowPart(Counts(x1)), LowPart(Counts(x2)), LowPart(Counts(x3)));
  }

  // ----- the loop -----

  /** The machine word of four bytes. */
  function Word(a: bv8, b: bv8, c: bv8, d: bv8): bv32
  {
    (a as bv32) | (b as bv32 << 8) | (c as bv32 << 16) | (d as bv32 << 24)
  }

  lemma WordParts(a: bv8, b: bv8, c: bv8, d: bv8)
    ensures var x := Word(a, b, c, d);
      Low(x) == a && Low(High(x)) == b && Low(High(High(x))) == c && Low(High(High(High(x)))) == d
  {
  }

  lemma {:induction false} OnesAppend(s: Bits, t: Bits)
    ensures Ones(s + t) == Ones(s) + Ones(t)
  {
    if t == [] {
      assert s + t == s;
    } else {
      assert (s + t)[..|s + t| - 1] == s + t[..|t| - 1];
      hide OnesIn;
      OnesAppend(s, t[..|t| - 1]);
    }
  }

  lemma OnesFour(s: Bits)
    requires |s| == 4
    ensures Ones(s) == OnesIn(s[0]) + OnesIn(s[1]) + OnesIn(s[2]) + OnesIn(s[3])
  {
    hide OnesIn;
    assert s[..3][..2] == s[..2] && s[..2][..1] == s[..1] && |s[..1][..0]| == 0;
    assert Ones(s[..1]) == OnesIn(s[0]);
    assert Ones(s[..2]) == Ones(s[..1]) + OnesIn(s[1]);
    assert Ones(s[..3]) == Ones(s[..2]) + OnesIn(s[2]);
  }

  /** aux1 and its like: the word at position i, counted. */
  method CountWord(s: Bits, i: nat) returns (n: nat)
    requires i + 4 <= |s|
    ensures n == Ones(s[i..i + 4])
  {
    var x := Word(s[i], s[i + 1], s[i + 2], s[i + 3]);
    WordParts(s[i], s[i + 1], s[i + 2], s[i + 3]);
    WordCountIs(x);
    OnesFour(s[i..i + 4]);
    hide WordCount, OnesIn, Low, High, Word;
    n := WordCount(x) as nat;
  }

  /** popcount. */
  method Popcount(s: Bits) returns (bits: nat)
    ensures bits == Ones(s)
  {
    hide OnesIn;
    bits := 0;
    var i := 0;
    while |s| - i >= 16
      invariant i <= |s| && bits == Ones(s[..i])
    {
      var aux1 := CountWord(s, i);
      var aux2 := CountWord(s, i + 4);
      var aux3 := CountWord(s, i + 8);
      var aux4 := CountWord(s, i + 12);
      SixteenOnes(s, i);
      bits := bits + (aux1 + aux2 + aux3 + aux4);
      i := i + 16;
    }
    while i < |s|
      invariant i <= |s| && bits == Ones(s[..i])
    {
      TableCounts(s[i]);
      assert s[..i + 1][..i] == s[..i];
      bits := bits + BitsInByte(s[i]);
      i := i + 1;
    }
    assert s[..i] == s;
  }

  lemma SixteenOnes(s: Bits, i: nat)
    requires i + 16 <= |s|
    ensures Ones(s[..i + 16])
         == Ones(s[..i]) + Ones(s[i..i + 4]) + Ones(s[i + 4..i + 8]) + Ones(s[i + 8..i + 12]) + Ones(s[i + 12..i + 16])
  {
    hide Ones;
    assert s[..i + 4] == s[..i] + s[i..i + 4];
    OnesAppend(s[..i], s[i..i + 4]);
    assert s[..i + 8] == s[..i + 4] + s[i + 4..i + 8];
    OnesAppend(s[..i + 4], s[i + 4..i + 8]);
    assert s[..i + 12] == s[..i + 8] + s[i + 8..i + 12];
    OnesAppend(s[..i + 8], s[i + 8..i + 12]);
    assert s[..i + 16] == s[..i + 12] + s[i + 12..i + 16];
    OnesAppend(s[..i + 12], s[i + 12..i + 16]);
  }
}
