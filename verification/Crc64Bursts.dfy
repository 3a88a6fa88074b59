/** What crc64 never misses: two messages of one length that differ only within eight consecutive bytes
    have different checksums. */
module Crc64Bursts {
  import opened BitString
  import opened Bitops
  import opened Crc64Table
  import opened Crc64

  // ----- eight or fewer bytes are fed to the register as one word -----

  function Shift(c: bv64, n: nat): bv64
    decreases n
  {
    if n == 0 then c else Shift(Step8(c), n - 1)
  }

  lemma PushIsSum(x: bv8, w: bv64)
    ensures Push(x, w) == Sum(Wide(x), w << 8)
  {
  }

  lemma SumAssociates(a: bv64, b: bv64, c: bv64)
    ensures Sum(a, Sum(b, c)) == Sum(Sum(a, b), c)
  {
  }

  lemma PushSplit(c: bv64, x: bv8, w: bv64)
    ensures Sum(c, Push(x, w)) == Sum(Sum(c, Wide(x)), w << 8)
  {
    PushIsSum(x, w);
    hide Push, Wide;
    SumAssociates(c, Wide(x), w << 8);
  }

  /** The bytes meet the register as one word, and the whole word is then shifted through. */
  lemma {:induction false} RunIsShift(c: bv64, s: Bits)
    requires |s| <= 8
    ensures Run(c, s) == Shift(Sum(c, Word(s)), |s|)
    decreases |s|
  {
    hide Step8, Sum, Next, Push, Wide;
    if s == [] {
      XorZero(c);
    } else {
      var w := Word(s[1..]);
      WordFits(s[1..]);
      Limits(|s| - 1);
      NextIsEightSteps(c, s[0]);
      RunIsShift(Next(c, s[0]), s[1..]);
      PushSplit(c, s[0], w);
      Step8Xor(Sum(c, Wide(s[0])), w << 8);
      Step8Shifted(w);
    }
  }

  // ----- nothing is lost on the way -----

  lemma StepInjective(a: bv64, b: bv64)
    requires Step(a) == Step(b)
    ensures a == b
  {
  }

  lemma Step8Injective(a: bv64, b: bv64)
    requires Step8(a) == Step8(b)
    ensures a == b
  {
    var a1, b1 := Step(a), Step(b);
    var a2, b2 := Step(a1), Step(b1);
    var a3, b3 := Step(a2), Step(b2);
    var a4, b4 := Step(a3), Step(b3);
    var a5, b5 := Step(a4), Step(b4);
    var a6, b6 := Step(a5), Step(b5);
    var a7, b7 := Step(a6), Step(b6);
    hide Step;
    StepInjective(a7, b7);
    StepInjective(a6, b6);
    StepInjective(a5, b5);
    StepInjective(a4, b4);
    StepInjective(a3, b3);
    StepInjective(a2, b2);
    StepInjective(a1, b1);
    StepInjective(a, b);
  }

  lemma {:induction false} ShiftInjective(a: bv64, b: bv64, n: nat)
    requires Shift(a, n) == Shift(b, n)
    ensures a == b
    decreases n
  {
    hide Step8;
    if n > 0 {
      ShiftInjective(Step8(a), Step8(b), n - 1);
      Step8Injective(a, b);
    }
  }

  lemma XorInjective(a: bv64, b: bv64, w: bv64)
    requires Sum(a, w) == Sum(b, w) || Sum(w, a) == Sum(w, b)
    ensures a == b
  {
  }

  /** Different registers stay different over the same bytes. */
  lemma {:induction false} RunInjective(a: bv64, b: bv64, s: Bits)
    requires Run(a, s) == Run(b, s)
    ensures a == b
    decreases |s|
  {
    hide Next, Step8, Sum, Wide;
    if s != [] {
      RunInjective(Next(a, s[0]), Next(b, s[0]), s[1..]);
      NextIsEightSteps(a, s[0]);
      NextIsEightSteps(b, s[0]);
      Step8Injective(Sum(a, Wide(s[0])), Sum(b, Wide(s[0])));
      XorInjective(a, b, Wide(s[0]));
    }
  }

  lemma {:induction false} RunConcat(c: bv64, s: Bits, t: Bits)
    ensures Run(c, s + t) == Run(Run(c, s), t)
    decreases |s|
  {
    hide Next;
    if s == [] {
      assert s + t == t;
    } else {
      assert (s + t)[1..] == s[1..] + t;
      RunConcat(Next(c, s[0]), s[1..], t);
    }
  }

  lemma WordInjective(s: Bits, t: Bits)
    requires |s| == |t| <= 8 && Word(s) == Word(t)
    ensures s == t
  {
    hide Word, Spelled;
    SpelledWord(s);
    SpelledWord(t);
  }

  lemma RunTellsApart(d: bv64, s: Bits, t: Bits)
    requires |s| == |t| <= 8 && Run(d, s) == Run(d, t)
    ensures s == t
  {
    hide Run, Word, Shift, Sum;
    RunIsShift(d, s);
    RunIsShift(d, t);
    ShiftInjective(Sum(d, Word(s)), Sum(d, Word(t)), |s|);
    XorInjective(Word(s), Word(t), d);
    WordInjective(s, t);
  }

  /** A change confined to eight consecutive bytes always changes the checksum. */
  lemma BurstIsSeen(c: bv64, a: Bits, s: Bits, t: Bits, b: Bits)
    requires |s| == |t| <= 8
    ensures Run(c, a + s + b) == Run(c, a + t + b) <==> s == t
  {
    hide Run;
    if Run(c, a + s + b) == Run(c, a + t + b) {
      RunConcat(c, a + s, b);
      RunConcat(c, a + t, b);
      RunInjective(Run(c, a + s), Run(c, a + t), b);
      RunConcat(c, a, s);
      RunConcat(c, a, t);
      RunTellsApart(Run(c, a), s, t);
    }
  }

  /** The specified checksum sees it too. */
  lemma SpecifiedSeesBurst(c: bv64, a: Bits, s: Bits, t: Bits, b: Bits)
    requires |s| == |t| <= 8
    ensures Specified(c, a + s + b) == Specified(c, a + t + b) <==> s == t
  {
    hide Run, Specified;
    BurstIsSeen(c, a, s, t, b);
    RunIsSpecified(c, a + s + b);
    RunIsSpecified(c, a + t + b);
  }

  // ----- a message followed by its checksum leaves nothing in the register -----

  lemma PushLow(w: bv64)
    ensures Push(Low(w), High(w)) == w
  {
  }

  function Shrunk(w: bv64, n: nat): bv64
    decreases n
  {
    if n == 0 then w else Shrunk(High(w), n - 1)
  }

  lemma ShrunkFour(w: bv64, n: nat)
    ensures Shrunk(w, n + 4) == Shrunk(High(High(High(High(w)))), n)
  {
    hide High;
    assert Shrunk(w, n + 4) == Shrunk(High(w), n + 3) == Shrunk(High(High(w)), n + 2) ==
      Shrunk(High(High(High(w))), n + 1);
  }

  lemma AllShrunk(w: bv64)
    ensures High(High(High(High(High(High(High(High(w)))))))) == 0
  {
  }

  lemma ShrunkEight(w: bv64)
    ensures Shrunk(w, 8) == 0
  {
    AllShrunk(w);
    hide High;
    ShrunkFour(w, 4);
    ShrunkFour(High(High(High(High(w)))), 0);
  }

  lemma {:induction false} WordSpelled(w: bv64, n: nat)
    requires Shrunk(w, n) == 0
    ensures Word(Spelled(w, n)) == w
    decreases n
  {
    hide Push, Low, High;
    if n > 0 {
      WordSpelled(High(w), n - 1);
      assert Spelled(w, n)[1..] == Spelled(High(w), n - 1);
      PushLow(w);
    }
  }

  lemma XorSelf(a: bv64, b: bv64)
    ensures Sum(a, b) == 0 <==> a == b
  {
  }

  lemma {:induction false} ShiftZero(n: nat)
    ensures Shift(0, n) == 0
    decreases n
  {
    if n > 0 {
      assert Step8(0) == 0;
      ShiftZero(n - 1);
    }
  }

  /** The register is empty exactly after a message and its own checksum. */
  lemma ResidueIsZero(s: Bits, t: Bits)
    requires |t| == 8
    ensures Run(0, s + t) == 0 <==> t == Spelled(Run(0, s), 8)
  {
    hide Run, Word, Shift, Sum, Spelled;
    var c := Run(0, s);
    RunConcat(0, s, t);
    RunIsShift(c, t);
    ShiftZero(8);
    if Run(0, s + t) == 0 { ShiftInjective(Sum(c, Word(t)), 0, 8); }
    XorSelf(c, Word(t));
    SpelledWord(t);
    ShrunkEight(c);
    WordSpelled(c, 8);
  }

  // ----- the check value -----

  const DIGITS: Bits := [0x31, 0x32, 0x33, 0x34, 0x35, 0x36, 0x37, 0x38, 0x39]

  function Fed(c: bv64, b: bv8): bv64 { Step8(Sum(c, Wide(b))) }

  lemma CheckSteps()
    ensures Fed(0x0, 0x31) == 0xfdc17184a9f739fa
    ensures Fed(0xfdc17184a9f739fa, 0x32) == 0xe10364513a98ed96
    ensures Fed(0xe10364513a98ed96, 0x33) == 0xd5bcfb814479b1ac
    ensures Fed(0xd5bcfb814479b1ac, 0x34) == 0x43593c5dcda521f0
    ensures Fed(0x43593c5dcda521f0, 0x35) == 0xf0758513239c7e0d
    ensures Fed(0xf0758513239c7e0d, 0x36) == 0xa3a90925b2ab4903
    ensures Fed(0xa3a90925b2ab4903, 0x37) == 0x47824d362431ad45
    ensures Fed(0x47824d362431ad45, 0x38) == 0x49ec20b315e86dc2
    ensures Fed(0x49ec20b315e86dc2, 0x39) == 0xe9c6d914c4b8d9ca
  {
  }

  lemma RunOne(c: bv64, b: bv8, s: Bits)
    ensures Run(c, [b] + s) == Run(Fed(c, b), s)
  {
    hide Next, Step8, Sum, Wide;
    NextIsEightSteps(c, b);
    assert ([b] + s)[1..] == s;
  }

  lemma RunThree(c: bv64, x: bv8, y: bv8, z: bv8, s: Bits)
    ensures Run(c, [x, y, z] + s) == Run(Fed(Fed(Fed(c, x), y), z), s)
  {
    hide Fed, Run;
    RunOne(c, x, [y, z] + s);
    RunOne(Fed(c, x), y, [z] + s);
    RunOne(Fed(Fed(c, x), y), z, s);
    assert [x, y, z] + s == [x] + ([y, z] + s) && [y, z] + s == [y] + ([z] + s);
  }

  lemma CheckRun()
    ensures Run(0, DIGITS) == 0xe9c6_d914_c4b8_d9ca
  {
    CheckSteps();
    hide Fed, Run;
    RunThree(0x0, 0x31, 0x32, 0x33, DIGITS[3..]);
    RunThree(0xd5bcfb814479b1ac, 0x34, 0x35, 0x36, DIGITS[6..]);
    RunThree(0xa3a90925b2ab4903, 0x37, 0x38, 0x39, []);
    assert DIGITS == [0x31, 0x32, 0x33] + DIGITS[3..];
    assert DIGITS[3..] == [0x34, 0x35, 0x36] + DIGITS[6..];
    assert DIGITS[6..] == [0x37, 0x38, 0x39] + [];
    RunNothing(0xe9c6_d914_c4b8_d9ca);
  }

  lemma RunNothing(c: bv64)
    ensures Run(c, []) == c
  {
  }

  /** The check value in the heading of the file is that of a register started at zero, and at no other
      value: not at all ones, which the heading also names. */
  lemma CheckValue(c: bv64)
    ensures Specified(c, DIGITS) == 0xe9c6_d914_c4b8_d9ca <==> c == 0
  {
    hide Specified, Run;
    CheckRun();
    RunIsSpecified(0, DIGITS);
    RunIsSpecified(c, DIGITS);
    if Run(c, DIGITS) == Run(0, DIGITS) { RunInjective(c, 0, DIGITS); }
  }
}
