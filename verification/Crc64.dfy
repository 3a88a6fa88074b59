/** crc64.c: the checksum computed a byte at a time from the table, the shift register it stands for,
    and which changes of a message it can never miss. */
module Crc64 {
  import opened BitString
  import opened Bitops
  import opened Crc64Table

  // ----- the shift register that the parameters describe -----

  /** The bits of a register in the opposite order. */
  function Reflect(c: bv64): bv64
  {
    var a := ((c >> 1) & 0x5555_5555_5555_5555) | ((c & 0x5555_5555_5555_5555) << 1);
    var b := ((a >> 2) & 0x3333_3333_3333_3333) | ((a & 0x3333_3333_3333_3333) << 2);
    var d := ((b >> 4) & 0x0F0F_0F0F_0F0F_0F0F) | ((b & 0x0F0F_0F0F_0F0F_0F0F) << 4);
    var e := ((d >> 8) & 0x00FF_00FF_00FF_00FF) | ((d & 0x00FF_00FF_00FF_00FF) << 8);
    var f := ((e >> 16) & 0x0000_FFFF_0000_FFFF) | ((e & 0x0000_FFFF_0000_FFFF) << 16);
    (f >> 32) | (f << 32)
  }

  /** Bit k goes where bit 63 - k was. */
  lemma ReflectBit(c: bv64, k: bv8)
    requires k < 64
    ensures (Reflect(c) >> k) & 1 == (c >> (63 - k)) & 1
  {
  }

  lemma ReflectTwice(c: bv64)
    ensures Reflect(Reflect(c)) == c
  {
  }

  /** One step of the division by 0xad93d23594c935a9, highest power first. */
  function Divide(c: bv64): bv64
  {
    if c >> 63 == 1 then (c << 1) ^ 0xad93_d235_94c9_35a9 else c << 1
  }

  function Bit(b: bv64): bv64 { b & 1 }

  function Half(b: bv64): bv64 { b >> 1 }

  function Top(b: bv64): bv64 { b << 63 }

  /** The difference of two registers. */
  function Sum(a: bv64, b: bv64): bv64 { a ^ b }

  /** The lowest bit of a byte meets the highest of the register. */
  function Meet(c: bv64, b: bv64): bv64 { Sum(c, Top(Bit(b))) }

  /** The n low bits of a byte fed to the register, lowest first. */
  function FeedBits(c: bv64, b: bv64, n: nat): bv64
    decreases n
  {
    if n == 0 then c else FeedBits(Divide(Meet(c, b)), Half(b), n - 1)
  }

  /** The register after a message. */
  function Register(c: bv64, s: Bits): bv64
    decreases |s|
  {
    if s == [] then c else Register(FeedBits(c, Wide(s[0]), 8), s[1..])
  }

  /** The checksum as specified: one bit at a time, input bytes and result reflected. */
  function Specified(c: bv64, s: Bits): bv64 { Reflect(Register(Reflect(c), s)) }

  // ----- the same register held reflected -----

  lemma ReflectXor(a: bv64, b: bv64)
    ensures Reflect(Sum(a, b)) == Sum(Reflect(a), Reflect(b))
  {
  }

  lemma ReflectHalf(c: bv64)
    ensures Reflect(c >> 1) == Reflect(c) << 1 && Reflect(c) >> 63 == c & 1
  {
  }

  lemma ReflectPolynomial()
    ensures Reflect(POLYNOMIAL) == 0xad93_d235_94c9_35a9
  {
  }

  lemma ReflectBottom(b: bv64)
    ensures Reflect(Bit(b)) == Top(Bit(b))
  {
  }

  lemma ReflectMeet(c: bv64, b: bv64)
    ensures Reflect(Sum(c, Bit(b))) == Meet(Reflect(c), b)
  {
    hide Reflect, Bit, Sum, Top;
    ReflectXor(c, Bit(b));
    ReflectBottom(b);
  }

  /** Dividing the reflected register is stepping the register. */
  lemma ReflectStep(c: bv64)
    ensures Reflect(Step(c)) == Divide(Reflect(c))
  {
    hide Reflect;
    ReflectHalf(c);
    ReflectPolynomial();
    ReflectXor(c >> 1, POLYNOMIAL);
  }

  /** The bits of a byte fed one by one to the register held reflected. */
  function StepBits(c: bv64, b: bv64, n: nat): bv64
    decreases n
  {
    if n == 0 then c else StepBits(Step(Sum(c, Bit(b))), Half(b), n - 1)
  }

  lemma {:induction false} ReflectBits(c: bv64, b: bv64, n: nat)
    ensures Reflect(StepBits(c, b, n)) == FeedBits(Reflect(c), b, n)
    decreases n
  {
    hide Reflect, Step, Divide, Meet, Half, Bit, Sum;
    if n > 0 {
      ReflectMeet(c, b);
      ReflectStep(Sum(c, Bit(b)));
      ReflectBits(Step(Sum(c, Bit(b))), Half(b), n - 1);
    }
  }

  // ----- eight bits at once -----

  lemma StepXor11(a: bv64, b: bv64)
    requires a & 1 == 1 && b & 1 == 1
    ensures Step(a ^ b) == Step(a) ^ Step(b)
  {
  }

  lemma StepXor10(a: bv64, b: bv64)
    requires a & 1 == 1 && b & 1 == 0
    ensures Step(a ^ b) == Step(a) ^ Step(b)
  {
  }

  lemma StepXor00(a: bv64, b: bv64)
    requires a & 1 == 0 && b & 1 == 0
    ensures Step(a ^ b) == Step(a) ^ Step(b)
  {
  }

  lemma XorSwap(a: bv64, b: bv64)
    ensures a ^ b == b ^ a
  {
  }

  lemma LowBit(c: bv64)
    ensures c & 1 == 0 || c & 1 == 1
  {
  }

  /** A step is linear: it maps a difference of registers to the difference of the results. */
  lemma StepXor(a: bv64, b: bv64)
    ensures Step(Sum(a, b)) == Sum(Step(a), Step(b))
  {
    hide Step;
    LowBit(a);
    LowBit(b);
    if a & 1 == 1 {
      if b & 1 == 1 { StepXor11(a, b); } else { StepXor10(a, b); }
    } else {
      if b & 1 == 1 { StepXor10(b, a); XorSwap(a, b); XorSwap(Step(a), Step(b)); } else { StepXor00(a, b); }
    }
  }

  lemma StepSplit(b: bv64)
    ensures Step(Sum(b, Bit(b))) == Half(b)
  {
  }

  lemma XorAround(c: bv64, b: bv64)
    ensures Sum(c, b) == Sum(Sum(c, Bit(b)), Sum(b, Bit(b)))
  {
  }

  function Steps(c: bv64, n: nat): bv64
    decreases n
  {
    if n == 0 then c else Steps(Step(c), n - 1)
  }

  function Halves(b: bv64, n: nat): bv64
    decreases n
  {
    if n == 0 then b else Halves(Half(b), n - 1)
  }

  /** Feeding bits one by one or all of them first makes no difference, but for the bits not yet reached. */
  lemma {:induction false} FeedFirst(c: bv64, b: bv64, n: nat)
    ensures Steps(Sum(c, b), n) == Sum(StepBits(c, b, n), Halves(b, n))
    decreases n
  {
    hide Step, Bit, Half, Sum;
    if n > 0 {
      XorAround(c, b);
      StepXor(Sum(c, Bit(b)), Sum(b, Bit(b)));
      StepSplit(b);
      FeedFirst(Step(Sum(c, Bit(b))), Half(b), n - 1);
    }
  }

  lemma StepsFour(c: bv64, n: nat)
    ensures Steps(c, n + 4) == Steps(Step(Step(Step(Step(c)))), n)
  {
    hide Step;
    assert Steps(c, n + 4) == Steps(Step(c), n + 3) == Steps(Step(Step(c)), n + 2) == Steps(Step(Step(Step(c))), n + 1);
  }

  lemma StepsEight(c: bv64)
    ensures Steps(c, 8) == Step8(c)
  {
    hide Step;
    StepsFour(c, 4);
    StepsFour(Step(Step(Step(Step(c)))), 0);
  }

  lemma HalvesFour(b: bv64, n: nat)
    ensures Halves(b, n + 4) == Halves(Half(Half(Half(Half(b)))), n)
  {
    hide Half;
    assert Halves(b, n + 4) == Halves(Half(b), n + 3) == Halves(Half(Half(b)), n + 2) ==
      Halves(Half(Half(Half(b))), n + 1);
  }

  lemma NothingLeft(b: bv8)
    ensures Half(Half(Half(Half(Half(Half(Half(Half(Wide(b))))))))) == 0
  {
  }

  lemma HalvesEight(b: bv8)
    ensures Halves(Wide(b), 8) == 0
  {
    NothingLeft(b);
    hide Half, Wide;
    HalvesFour(Wide(b), 4);
    HalvesFour(Half(Half(Half(Half(Wide(b))))), 0);
  }

  lemma XorZero(c: bv64)
    ensures Sum(c, 0) == c
  {
  }

  lemma ByteAtOnce(c: bv64, b: bv8)
    ensures Step8(Sum(c, Wide(b))) == StepBits(c, Wide(b), 8)
  {
    hide Step8, StepBits, Halves, Wide, Sum, Steps;
    FeedFirst(c, Wide(b), 8);
    StepsEight(Sum(c, Wide(b)));
    HalvesEight(b);
    XorZero(StepBits(c, Wide(b), 8));
  }

  lemma Step8Xor(a: bv64, b: bv64)
    ensures Step8(Sum(a, b)) == Sum(Step8(a), Step8(b))
  {
    var a1, b1 := Step(a), Step(b);
    var a2, b2 := Step(a1), Step(b1);
    var a3, b3 := Step(a2), Step(b2);
    var a4, b4 := Step(a3), Step(b3);
    var a5, b5 := Step(a4), Step(b4);
    var a6, b6 := Step(a5), Step(b5);
    var a7, b7 := Step(a6), Step(b6);
    hide Step, Sum;
    StepXor(a, b);
    StepXor(a1, b1);
    StepXor(a2, b2);
    StepXor(a3, b3);
    StepXor(a4, b4);
    StepXor(a5, b5);
    StepXor(a6, b6);
    StepXor(a7, b7);
  }

  // ----- the table -----

  /** crc64_tab[(uint8_t)crc ^ byte] ^ (crc >> 8). */
  function Next(c: bv64, b: bv8): bv64 { Sum(Table(Low(c) ^ b), High(c)) }

  lemma Apart(c: bv64, b: bv8)
    ensures Sum(c, Wide(b)) == Sum(Wide(Low(c) ^ b), High(c) << 8)
    ensures High(c) <= 0x00FF_FFFF_FFFF_FFFF
  {
  }

  lemma Step8Shifted(w: bv64)
    requires w <= 0x00FF_FFFF_FFFF_FFFF
    ensures Step8(w << 8) == w
  {
  }

  /** A table look-up does what eight steps do. */
  lemma NextIsEightSteps(c: bv64, b: bv8)
    ensures Next(c, b) == Step8(Sum(c, Wide(b)))
  {
    hide Step8, Table, Wide, Sum, Low, High;
    Apart(c, b);
    Step8Xor(Wide(Low(c) ^ b), High(c) << 8);
    TableIs(Low(c) ^ b);
    Step8Shifted(High(c));
  }

  function Run(c: bv64, s: Bits): bv64
    decreases |s|
  {
    if s == [] then c else Run(Next(c, s[0]), s[1..])
  }

  /** The table-driven checksum is the specified one, whatever it starts from. */
  lemma {:induction false} RunIsSpecified(c: bv64, s: Bits)
    ensures Run(c, s) == Specified(c, s)
    decreases |s|
  {
    hide Next, Reflect, FeedBits, StepBits, Wide, Step8, Sum;
    if s == [] {
      ReflectTwice(c);
    } else {
      NextIsEightSteps(c, s[0]);
      ByteAtOnce(c, s[0]);
      ReflectBits(c, Wide(s[0]), 8);
      RunIsSpecified(Next(c, s[0]), s[1..]);
    }
  }

  /** crc64(): one table look-up for every byte. */
  method Checksum(start: bv64, s: Bits) returns (crc: bv64)
    ensures crc == Specified(start, s)
  {
    hide Next, Specified;
    crc := start;
    var j := 0;
    while j < |s|
      invariant j <= |s|
      invariant Run(crc, s[j..]) == Run(start, s)
    {
      assert s[j..][1..] == s[j + 1..];
      crc := Next(crc, s[j]);
      j := j + 1;
    }
    assert s[j..] == [];
    RunIsSpecified(start, s);
  }
}
