/** rand.c: the generator of drand48() and lrand48() (IEEE Std 1003.1, System Interfaces) on 16-bit limbs. */
module Rand48 {

  const TWO_16: nat := 0x1_0000
  const TWO_32: nat := 0x1_0000_0000
  const TWO_48: nat := 0x1_0000_0000_0000

  // ----- the generator as specified -----

  /** X' = (0x5DEECE66D X + 0xB) mod 2^48 */
  function Successor(x: nat): nat { (0x5_DEEC_E66D * x + 0xB) % TWO_48 }

  function Iterate(x: nat, n: nat): nat
    decreases n
  {
    if n == 0 then x else Iterate(Successor(x), n - 1)
  }

  /** What is returned after a step to x: its 31 high bits. */
  function High31(x: nat): nat { x / 0x2_0000 }

  /** The state after srand48: the seed in the 32 high bits, 0x330E in the low ones. */
  function Seeded(seed: int): nat { (seed % TWO_32) * TWO_16 + 0x330E }

  /** The step back, which exists because the multiplier is odd. */
  function Predecessor(x: nat): nat { (0xDFE0_5BCB_1365 * (x + TWO_48 - 0xB)) % TWO_48 }

  lemma RemainderIs(x: int, q: int, r: nat)
    requires x == q * TWO_48 + r && r < TWO_48
    ensures x % TWO_48 == r
  {
  }

  /** Each state comes from exactly one other. */
  lemma SuccessorIsReversible(x: nat)
    requires x < TWO_48
    ensures Predecessor(Successor(x)) == x
    ensures Predecessor(x) < TWO_48 && Successor(Predecessor(x)) == x
  {
    Returns(x);
    Comes(x);
  }

  lemma Comes(x: nat)
    requires x < TWO_48
    ensures Successor(Predecessor(x)) == x
  {
    var y := 0xDFE0_5BCB_1365 * (x + TWO_48 - 0xB);
    var q := y / TWO_48;
    assert Predecessor(x) == y - q * TWO_48;
    RemainderIs(0x5_DEEC_E66D * Predecessor(x) + 0xB,
      0x5_2255_86E9 * (x + TWO_48 - 0xB) - 0x5_DEEC_E66D * q + 1, x);
  }

  lemma Returns(x: nat)
    requires x < TWO_48
    ensures Predecessor(Successor(x)) == x
  {
    var y := 0x5_DEEC_E66D * x + 0xB;
    var q := y / TWO_48;
    assert Successor(x) == y - q * TWO_48;
    RemainderIs(0xDFE0_5BCB_1365 * (Successor(x) + TWO_48 - 0xB),
      0x5_2255_86E9 * x - 0xDFE0_5BCB_1365 * q + 0xDFE0_5BCB_1365, x);
  }

  lemma {:induction false} IterateApart(x: nat, y: nat, n: nat)
    requires x < TWO_48 && y < TWO_48 && Iterate(x, n) == Iterate(y, n)
    ensures x == y
    decreases n
  {
    if n > 0 {
      IterateApart(Successor(x), Successor(y), n - 1);
      SuccessorIsReversible(x);
      SuccessorIsReversible(y);
    }
  }

  // ----- machine arithmetic -----

  /** A value stored in an int32_t. */
  function Wrapped(p: nat): int { if p % TWO_32 >= 0x8000_0000 then p % TWO_32 - TWO_32 else p % TWO_32 }

  /** LOW: the value as unsigned, and its 16 low bits. */
  function Low(v: int): nat { v % TWO_16 }

  /** HIGH: an arithmetic shift, and then the 16 low bits. */
  function High(v: int): nat { Low(v / TWO_16) }

  /** MUL: the product passes through an int32_t, which makes it negative when it is large. */
  method Mul(x: nat, y: nat) returns (z0: nat, z1: nat)
    requires x < TWO_16 && y < TWO_16
    ensures z0 < TWO_16 && z1 < TWO_16 && z1 * TWO_16 + z0 == x * y
  {
    assert x * y < TWO_32 by { ProductFits(x, y); }
    var l := Wrapped(x * y);
    WrappedHalves(x * y);
    z0, z1 := Low(l), High(l);
  }

  lemma ProductFits(x: nat, y: nat)
    requires x < TWO_16 && y < TWO_16
    ensures x * y < TWO_32
  {
    Product(x, 0xFFFF, y);
  }

  lemma {:induction false} Product(x: nat, m: nat, y: nat)
    requires x <= m
    ensures x * y <= m * y
    decreases y
  {
    if y > 0 {
      Product(x, m, y - 1);
      assert x * y == x * (y - 1) + x && m * y == m * (y - 1) + m;
    }
  }

  lemma WrappedHalves(p: nat)
    requires p < TWO_32
    ensures Low(Wrapped(p)) == p % TWO_16 && High(Wrapped(p)) == p / TWO_16
  {
  }

  /** CARRY */
  function Carry(x: nat, y: nat): nat { if x + y > 0xFFFF then 1 else 0 }

  /** ADDEQU */
  method AddEqu(x: nat, y: nat) returns (sum: nat, carry: nat)
    requires x < TWO_16 && y < TWO_16
    ensures sum < TWO_16 && carry <= 1 && carry * TWO_16 + sum == x + y && carry == Carry(x, y)
  {
    carry := Carry(x, y);
    sum := Low(x + y);
  }

  class Generator {
    var x0: nat
    var x1: nat
    var x2: nat

    predicate Valid()
      reads this
    {
      x0 < TWO_16 && x1 < TWO_16 && x2 < TWO_16
    }

    function State(): nat
      reads this
    {
      x2 * TWO_32 + x1 * TWO_16 + x0
    }

    /** The limbs the program starts with. */
    constructor ()
      ensures Valid() && State() == Seeded(0x1234_ABCD)
    {
      x0, x1, x2 := 0x330E, 0xABCD, 0x1234;
    }

    /** redisSrand48 */
    method Srand48(seedval: int)
      requires -0x8000_0000 <= seedval < 0x8000_0000
      modifies this
      ensures Valid() && State() == Seeded(seedval)
    {
      x0, x1, x2 := 0x330E, Low(seedval), High(seedval);
    }

    /** next() */
    method Next()
      requires Valid()
      modifies this
      ensures Valid() && State() == Successor(old(State()))
    {
      var carry0, carry1;
      var p0, p1 := Mul(0xE66D, x0);
      p0, carry0 := AddEqu(p0, 0xB);
      p1, carry1 := AddEqu(p1, carry0);
      var q0, q1 := Mul(0xE66D, x1);
      p1, carry0 := AddEqu(p1, q0);
      var r0, r1 := Mul(0xDEEC, x0);
      LimbsAreSuccessor(x0, x1, x2, p0, p1, q0, q1, r0, r1, carry0, carry1);
      x2 := Low((carry0 + carry1 + Carry(p1, r0) + q1 + r1 + 0xE66D * x2 + 0xDEEC * x1 + 0x5 * x0) % TWO_32);
      x1 := Low(p1 + r0);
      x0 := Low(p0);
    }

    /** redisLrand48 */
    method Lrand48() returns (v: nat)
      requires Valid()
      modifies this
      ensures Valid() && State() == Successor(old(State()))
      ensures v == High31(State()) && v < 0x8000_0000
    {
      Next();
      v := x2 * 0x8000 + x1 / 2;
    }
  }

  /** The limbs that next() leaves, from its partial products and carries. */
  lemma LimbsAreSuccessor(x0: nat, x1: nat, x2: nat, p0: nat, p1: nat, q0: nat, q1: nat, r0: nat, r1: nat,
                          carry0: nat, carry1: nat)
    requires x0 < TWO_16 && x1 < TWO_16 && x2 < TWO_16
    requires p0 < TWO_16 && p1 < TWO_16 && r0 < TWO_16
    requires r1 * TWO_16 + r0 == 0xDEEC * x0
    // the carries of p0 and of the two sums in p1 account for everything that p lost
    requires (carry0 + carry1 + q1) * TWO_32 + p1 * TWO_16 + p0 == 0xE66D * x0 + 0xB + 0xE66D * x1 * TWO_16
    ensures
      var y2 := Low((carry0 + carry1 + Carry(p1, r0) + q1 + r1 + 0xE66D * x2 + 0xDEEC * x1 + 0x5 * x0) % TWO_32);
      y2 * TWO_32 + Low(p1 + r0) * TWO_16 + Low(p0) == Successor(x2 * TWO_32 + x1 * TWO_16 + x0)
  {
    var k := carry0 + carry1 + Carry(p1, r0) + q1 + r1 + 0xE66D * x2 + 0xDEEC * x1 + 0x5 * x0;
    var y2, m, c, y1 := k % TWO_16, k / TWO_16, Carry(p1, r0), Low(p1 + r0);
    LowOfWrapped(k);
    CarryIs(p1, r0);
    hide Low, Carry;
    LimbsAdd(x0, x1, x2, p0, p1, r0, r1, carry0 + carry1 + q1, c, y1, y2, m);
    RemainderIs(0x5_DEEC_E66D * (x2 * TWO_32 + x1 * TWO_16 + x0) + 0xB, m + 0xDEEC * x2 + 0x5 * x1 + 0x5 * x2 * TWO_16,
                y2 * TWO_32 + y1 * TWO_16 + p0);
    LowOfLimb(p0);
  }

  lemma LowOfWrapped(k: nat)
    ensures Low(k % TWO_32) == k % TWO_16
  {
  }

  lemma LowOfLimb(p: nat)
    requires p < TWO_16
    ensures Low(p) == p
  {
  }

  lemma CarryIs(x: nat, y: nat)
    requires x < TWO_16 && y < TWO_16
    ensures x + y == Carry(x, y) * TWO_16 + Low(x + y)
  {
  }

  lemma LimbsAdd(x0: nat, x1: nat, x2: nat, p0: nat, p1: nat, r0: nat, r1: nat, s: nat, c: nat, y1: nat, y2: nat,
      m: nat)
    requires r1 * TWO_16 + r0 == 0xDEEC * x0 && p1 + r0 == c * TWO_16 + y1
    requires s * TWO_32 + p1 * TWO_16 + p0 == 0xE66D * x0 + 0xB + 0xE66D * x1 * TWO_16
    requires s + c + r1 + 0xE66D * x2 + 0xDEEC * x1 + 0x5 * x0 == m * TWO_16 + y2
    ensures 0x5_DEEC_E66D * (x2 * TWO_32 + x1 * TWO_16 + x0) + 0xB ==
      (m + 0xDEEC * x2 + 0x5 * x1 + 0x5 * x2 * TWO_16) * TWO_48 + (y2 * TWO_32 + y1 * TWO_16 + p0)
  {
  }

  /** n calls after a seed, whatever was generated before. */
  method Draws(g: Generator, seedval: int, n: nat) returns (vs: seq<nat>)
    requires -0x8000_0000 <= seedval < 0x8000_0000
    modifies g
    ensures |vs| == n && forall k :: 0 <= k < n ==> vs[k] == High31(Iterate(Seeded(seedval), k + 1))
  {
    g.Srand48(seedval);
    vs := [];
    while |vs| < n
      invariant |vs| <= n && g.Valid() && g.State() == Iterate(Seeded(seedval), |vs|)
      invariant forall k :: 0 <= k < |vs| ==> vs[k] == High31(Iterate(Seeded(seedval), k + 1))
    {
      IterateLast(Seeded(seedval), |vs|);
      var v := g.Lrand48();
      vs := vs + [v];
    }
  }

  lemma {:induction false} IterateLast(x: nat, n: nat)
    ensures Iterate(x, n + 1) == Successor(Iterate(x, n))
    decreases n
  {
    if n > 0 { IterateLast(Successor(x), n - 1); }
  }
}
