/** rand.c: the generator visits all 2^48 states before it repeats one. */
module Rand48Period {
  import opened Rand48

  const A: nat := 0x5_DEEC_E66D
  const C: nat := 0xB

  // ----- divisibility by powers of two -----

  /** 2^k divides v. */
  predicate Divides(k: nat, v: nat) { k == 0 || (v % 2 == 0 && Divides(k - 1, v / 2)) }

  lemma FourHalves(k: nat, v: nat)
    ensures Divides(k + 4, v) <==> v % 16 == 0 && Divides(k, v / 16)
  {
    assert Divides(k + 4, v) <==> v % 2 == 0 && Divides(k + 3, v / 2);
    assert Divides(k + 3, v / 2) <==> (v / 2) % 2 == 0 && Divides(k + 2, v / 2 / 2);
    assert Divides(k + 2, v / 2 / 2) <==> (v / 2 / 2) % 2 == 0 && Divides(k + 1, v / 2 / 2 / 2);
    assert Divides(k + 1, v / 2 / 2 / 2) <==> (v / 2 / 2 / 2) % 2 == 0 && Divides(k, v / 2 / 2 / 2 / 2);
    assert v / 2 / 2 / 2 / 2 == v / 16;
  }

  lemma SixteenBits(k: nat, v: nat)
    ensures Divides(k + 16, v) <==> v % TWO_16 == 0 && Divides(k, v / TWO_16)
  {
    hide Divides;
    FourHalves(k + 12, v);
    FourHalves(k + 8, v / 16);
    FourHalves(k + 4, v / 16 / 16);
    FourHalves(k, v / 16 / 16 / 16);
    Sixteens(v);
  }

  lemma Sixteens(v: nat)
    ensures v / 16 / 16 / 16 / 16 == v / TWO_16
    ensures v % TWO_16 == 0 <==>
      v % 16 == 0 && (v / 16) % 16 == 0 && (v / 16 / 16) % 16 == 0 && (v / 16 / 16 / 16) % 16 == 0
  {
  }

  /** For 48 bits that is the remainder. */
  lemma DividesIs(v: nat)
    ensures Divides(48, v) <==> v % TWO_48 == 0
  {
    SixteenBits(32, v);
    SixteenBits(16, v / TWO_16);
    SixteenBits(0, v / TWO_16 / TWO_16);
    hide Divides;
    assert Divides(0, v / TWO_16 / TWO_16 / TWO_16) by { DividesOnce(v / TWO_16 / TWO_16 / TWO_16); }
    Limbs(v);
  }

  lemma DividesOnce(v: nat)
    ensures Divides(0, v)
  {
  }

  lemma Limbs(v: nat)
    ensures v % TWO_48 == 0 <==> v % TWO_16 == 0 && (v / TWO_16) % TWO_16 == 0 && (v / TWO_16 / TWO_16) % TWO_16 == 0
  {
  }

  lemma Double(a: nat, o: nat)
    ensures (2 * a) * o == 2 * (a * o) && (2 * a + 1) * o == 2 * (a * o) + o
  {
  }

  lemma Halved(v: nat, w: nat, r: nat)
    requires v == 2 * w + r && r < 2
    ensures v / 2 == w && v % 2 == r
  {
  }

  lemma OddTimes(s: nat, o: nat)
    requires o % 2 == 1
    ensures s % 2 == 0 ==> (s * o) % 2 == 0 && (s * o) / 2 == (s / 2) * o
    ensures s % 2 == 1 ==> (s * o) % 2 == 1
  {
    var a := s / 2;
    Double(a, o);
    if s % 2 == 0 {
      Halved(s * o, a * o, 0);
    } else {
      Halved(s * o, a * o + o / 2, 1);
    }
  }

  /** An odd factor makes no difference. */
  lemma {:induction false} DividesOdd(k: nat, s: nat, o: nat)
    requires o % 2 == 1
    ensures Divides(k, s * o) <==> Divides(k, s)
    decreases k
  {
    if k > 0 {
      OddTimes(s, o);
      if s % 2 == 0 { DividesOdd(k - 1, s / 2, o); }
    }
  }

  // ----- n steps without the modulus -----

  /** A^n */
  function Power(n: nat): nat { if n == 0 then 1 else A * Power(n - 1) }

  /** 1 + A + ... + A^(n - 1) */
  function Series(n: nat): nat { if n == 0 then 0 else 1 + A * Series(n - 1) }

  function Plain(x: nat, n: nat): nat
    decreases n
  {
    if n == 0 then x else Plain(A * x + C, n - 1)
  }

  lemma {:induction false} SeriesAdds(a: nat, b: nat)
    ensures Series(a + b) == Series(a) + Power(a) * Series(b)
    decreases a
  {
    if a > 0 {
      SeriesAdds(a - 1, b);
      Regroup(Power(a - 1), Series(b));
    }
  }

  lemma Regroup(p: nat, s: nat)
    ensures A * (p * s) == (A * p) * s
  {
  }

  lemma {:induction false} PowerMod4(n: nat)
    ensures Power(n) % 4 == 1
  {
    if n > 0 { PowerMod4(n - 1); }
  }

  lemma {:induction false} SeriesParity(n: nat)
    ensures Series(n) % 2 == n % 2
  {
    if n > 0 {
      SeriesParity(n - 1);
      OddStep(Series(n - 1));
    }
  }

  lemma OddStep(s: nat)
    ensures (1 + A * s) % 2 == 1 - s % 2
  {
    var q := s / 2;
    if s % 2 == 0 {
      Halved(1 + A * s, A * q, 1);
    } else {
      Halved(1 + A * s, A * q + 0x2_EF76_7336 + 1, 0);
    }
  }

  lemma SeriesDoubles(m: nat)
    ensures Series(2 * m) == 2 * (Series(m) * ((1 + Power(m)) / 2)) && ((1 + Power(m)) / 2) % 2 == 1
  {
    SeriesAdds(m, m);
    PowerMod4(m);
    hide Series, Power;
    HalfIsOdd(Power(m));
    Factored(Series(m), Power(m), (1 + Power(m)) / 2);
  }

  lemma HalfIsOdd(p: nat)
    requires p % 4 == 1
    ensures 1 + p == 2 * ((1 + p) / 2) && ((1 + p) / 2) % 2 == 1
  {
  }

  lemma Factored(s: nat, p: nat, u: nat)
    requires 1 + p == 2 * u
    ensures s + p * s == 2 * (s * u)
  {
    assert s + p * s == (1 + p) * s;
    assert (2 * u) * s == 2 * (s * u);
  }

  /** The sum of n powers has as many factors of two as n. */
  lemma {:induction false} SeriesDivides(k: nat, n: nat)
    ensures Divides(k, Series(n)) <==> Divides(k, n)
    decreases k
  {
    if k > 0 {
      SeriesParity(n);
      if n % 2 == 0 {
        var m := n / 2;
        SeriesDoubles(m);
        var u := (1 + Power(m)) / 2;
        assert Series(n) / 2 == Series(m) * u;
        DividesOdd(k - 1, Series(m), u);
        SeriesDivides(k - 1, m);
      }
    }
  }

  /** What a single step adds. */
  function Gap(x: nat): nat { (A - 1) * x + C }

  lemma GapIsOdd(x: nat)
    ensures Gap(x) % 2 == 1
  {
    Halved(Gap(x), (A / 2) * x + C / 2, 1);
  }

  /** n steps add a multiple of that sum, by an odd number. */
  lemma {:induction false} PlainIs(x: nat, n: nat)
    ensures Plain(x, n) == x + Series(n) * Gap(x)
    decreases n
  {
    if n > 0 {
      PlainIs(A * x + C, n - 1);
      OneMore(x, Series(n - 1));
    }
  }

  lemma OneMore(x: nat, s: nat)
    ensures (A * x + C) + s * ((A - 1) * (A * x + C) + C) == x + (1 + A * s) * ((A - 1) * x + C)
  {
    var d := (A - 1) * x + C;
    assert (A - 1) * (A * x + C) + C == A * d;
    assert s * (A * d) == (A * s) * d;
    assert (1 + A * s) * d == d + (A * s) * d;
  }

  // ----- and with it -----

  lemma StepsMod(x: nat, y: nat)
    requires x % TWO_48 == y % TWO_48
    ensures Successor(x) == Successor(y) == (A * y + C) % TWO_48
  {
    var q := x / TWO_48 - y / TWO_48;
    assert x == y + q * TWO_48;
    var r := (A * y + C) % TWO_48;
    RemainderIs(A * x + C, A * q + (A * y + C) / TWO_48, r);
  }

  lemma {:induction false} IterateIs(x: nat, y: nat, n: nat)
    requires x % TWO_48 == y % TWO_48
    ensures Iterate(x, n) % TWO_48 == Plain(y, n) % TWO_48
    decreases n
  {
    if n > 0 {
      StepsMod(x, y);
      IterateIs(Successor(x), A * y + C, n - 1);
    }
  }

  lemma {:induction false} IterateStays(x: nat, n: nat)
    requires x < TWO_48
    ensures Iterate(x, n) < TWO_48
    decreases n
  {
    if n > 0 { IterateStays(Successor(x), n - 1); }
  }

  lemma SumRemainder(x: nat, d: nat)
    requires x < TWO_48
    ensures (x + d) % TWO_48 == x <==> d % TWO_48 == 0
  {
    var q, r := d / TWO_48, d % TWO_48;
    assert x + d == q * TWO_48 + (x + r);
    if x + r < TWO_48 {
      RemainderIs(x + d, q, x + r);
    } else {
      RemainderIs(x + d, q + 1, x + r - TWO_48);
    }
  }

  /** The full period: a state comes back after n steps exactly if 2^48 divides n. */
  lemma FullPeriod(x: nat, n: nat)
    requires x < TWO_48
    ensures Iterate(x, n) == x <==> n % TWO_48 == 0
  {
    hide Iterate, Plain, Series, Divides, Gap;
    IterateIs(x, x, n);
    IterateStays(x, n);
    PlainIs(x, n);
    GapIsOdd(x);
    FactorsDecide(Series(n), Gap(x), n);
    SumRemainder(x, Series(n) * Gap(x));
  }

  lemma FactorsDecide(s: nat, o: nat, n: nat)
    requires s == Series(n) && o % 2 == 1
    ensures (s * o) % TWO_48 == 0 <==> n % TWO_48 == 0
  {
    hide Series, Divides;
    DividesIs(s * o);
    DividesOdd(48, s, o);
    SeriesDivides(48, n);
    DividesIs(n);
  }
}
