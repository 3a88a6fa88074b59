/** bitops.c, bitopCommand: the result computed four machine words at a time as far as all the
    sources reach, and byte by byte from there. */
module Bitops {
  import opened BitString

  // ----- words in memory -----

  function Low(w: bv64): bv8 { (w & 0xFF) as bv8 }

  function High(w: bv64): bv64 { w >> 8 }

  function Push(x: bv8, w: bv64): bv64 { (x as bv64) | (w << 8) }

  /** The machine word of these bytes, least significant first. */
  function Word(s: Bits): bv64
  {
    if s == [] then 0 else Push(s[0], Word(s[1..]))
  }

  /** The n low bytes of a word, as they are stored. */
  function Spelled(w: bv64, n: nat): (s: Bits)
    ensures |s| == n
  {
    if n == 0 then [] else [Low(w)] + Spelled(High(w), n - 1)
  }

  // ----- a word read back is the same bytes -----

  /** The largest word of n bytes. */
  function Limit(n: nat): bv64 { if n == 0 then 0 else Push(0xFF, Limit(n - 1)) }

  lemma PushParts(x: bv8, w: bv64)
    requires w <= 0x00FF_FFFF_FFFF_FFFF
    ensures Low(Push(x, w)) == x && High(Push(x, w)) == w
  {
  }

  lemma PushGrows(x: bv8, w: bv64, v: bv64)
    requires w <= v <= 0x00FF_FFFF_FFFF_FFFF
    ensures Push(x, w) <= Push(0xFF, v)
  {
  }

  lemma Limits(n: nat)
    requires n <= 7
    ensures Limit(n) <= 0x00FF_FFFF_FFFF_FFFF
  {
    assert Limit(0) == 0 && Limit(1) == 0xFF && Limit(2) == 0xFFFF && Limit(3) == 0xFF_FFFF && Limit(4) == 0xFFFF_FFFF;
    assert Limit(5) == 0xFF_FFFF_FFFF && Limit(6) == 0xFFFF_FFFF_FFFF && Limit(7) == 0xFF_FFFF_FFFF_FFFF;
  }

  lemma {:induction false} WordFits(s: Bits)
    requires |s| <= 7
    ensures Word(s) <= Limit(|s|)
  {
    hide Push;
    if s != [] {
      WordFits(s[1..]);
      Limits(|s| - 1);
      PushGrows(s[0], Word(s[1..]), Limit(|s| - 1));
    }
  }

  lemma {:induction false} SpelledWord(s: Bits)
    requires |s| <= 8
    ensures Spelled(Word(s), |s|) == s
  {
    hide Push, Low, High;
    if s != [] {
      WordFits(s[1..]);
      Limits(|s| - 1);
      PushParts(s[0], Word(s[1..]));
      SpelledWord(s[1..]);
      assert s == [s[0]] + s[1..];
    }
  }

  // ----- an operation on words is the operation on each of their bytes -----

  function AndWord(a: bv64, b: bv64): bv64 { a & b }

  function AndByte(a: bv8, b: bv8): bv8 { a & b }

  lemma AndParts(a: bv64, b: bv64)
    ensures Low(AndWord(a, b)) == AndByte(Low(a), Low(b)) && High(AndWord(a, b)) == AndWord(High(a), High(b))
  {
  }

  lemma {:induction false} AndSpelled(a: bv64, b: bv64, n: nat)
    ensures forall k :: 0 <= k < n ==> Spelled(AndWord(a, b), n)[k] == AndByte(Spelled(a, n)[k], Spelled(b, n)[k])
    decreases n
  {
    hide Low, High, AndWord, AndByte;
    if n > 0 {
      AndParts(a, b);
      AndSpelled(High(a), High(b), n - 1);
    }
  }

  function OrWord(a: bv64, b: bv64): bv64 { a | b }

  function OrByte(a: bv8, b: bv8): bv8 { a | b }

  lemma OrParts(a: bv64, b: bv64)
    ensures Low(OrWord(a, b)) == OrByte(Low(a), Low(b)) && High(OrWord(a, b)) == OrWord(High(a), High(b))
  {
  }

  lemma {:induction false} OrSpelled(a: bv64, b: bv64, n: nat)
    ensures forall k :: 0 <= k < n ==> Spelled(OrWord(a, b), n)[k] == OrByte(Spelled(a, n)[k], Spelled(b, n)[k])
    decreases n
  {
    hide Low, High, OrWord, OrByte;
    if n > 0 {
      OrParts(a, b);
      OrSpelled(High(a), High(b), n - 1);
    }
  }

  function XorWord(a: bv64, b: bv64): bv64 { a ^ b }

  function XorByte(a: bv8, b: bv8): bv8 { a ^ b }

  lemma XorParts(a: bv64, b: bv64)
    ensures Low(XorWord(a, b)) == XorByte(Low(a), Low(b)) && High(XorWord(a, b)) == XorWord(High(a), High(b))
  {
  }

  lemma {:induction false} XorSpelled(a: bv64, b: bv64, n: nat)
    ensures forall k :: 0 <= k < n ==> Spelled(XorWord(a, b), n)[k] == XorByte(Spelled(a, n)[k], Spelled(b, n)[k])
    decreases n
  {
    hide Low, High, XorWord, XorByte;
    if n > 0 {
      XorParts(a, b);
      XorSpelled(High(a), High(b), n - 1);
    }
  }

  const ONES: bv64 := 0xFFFF_FFFF_FFFF_FFFF

  lemma OnesSpelled()
    ensures Spelled(ONES, 8) == [0xFF, 0xFF, 0xFF, 0xFF, 0xFF, 0xFF, 0xFF, 0xFF]
  {
    assert Spelled(0xFFFF_FFFF, 4) == [0xFF, 0xFF, 0xFF, 0xFF];
    assert Spelled(ONES, 8) == [0xFF, 0xFF, 0xFF, 0xFF] + Spelled(0xFFFF_FFFF, 4);
  }

  lemma NotIsXor(w: bv64)
    ensures !w == XorWord(w, ONES)
  {
  }

  lemma XorOnes(x: bv8)
    ensures XorByte(x, 0xFF) == !x
  {
  }

  lemma NotSpelled(w: bv64)
    ensures forall k :: 0 <= k < 8 ==> Spelled(!w, 8)[k] == !Spelled(w, 8)[k]
  {
    NotIsXor(w);
    OnesSpelled();
    hide Spelled, XorWord, XorByte;
    XorSpelled(w, ONES, 8);
    forall k | 0 <= k < 8 ensures XorByte(Spelled(w, 8)[k], 0xFF) == !Spelled(w, 8)[k] { XorOnes(Spelled(w, 8)[k]); }
  }

  /** The operator of the branch that is taken. */
  function CombineWord(op: Operation, a: bv64, b: bv64): bv64
  {
    match op case And => AndWord(a, b) case Or => OrWord(a, b) case Xor => XorWord(a, b) case Not => a
  }

  lemma CombineSpelled(op: Operation, a: bv64, b: bv64)
    ensures forall k :: 0 <= k < 8 ==>
      Spelled(CombineWord(op, a, b), 8)[k] == Combine(op, Spelled(a, 8)[k], Spelled(b, 8)[k])
  {
    hide Spelled, AndWord, OrWord, XorWord;
    match op
    case And => AndSpelled(a, b, 8);
    case Or => OrSpelled(a, b, 8);
    case Xor => XorSpelled(a, b, 8);
    case Not =>
  }

  // ----- the result buffer -----

  /** One word of the buffer combined with one word of a source: lres[k] op= lp[i][k]. */
  method CombineAt(res: array<bv8>, o: nat, op: Operation, src: Bits)
    requires o + 8 <= res.Length && o + 8 <= |src|
    modifies res
    ensures forall p :: 0 <= p < res.Length ==>
      res[p] == if o <= p < o + 8 then Combine(op, old(res[p]), src[p]) else old(res[p])
  {
    hide Combine, CombineWord, Word, Spelled;
    ghost var before := res[o..o + 8];
    var a, b := Word(res[o..o + 8]), Word(src[o..o + 8]);
    SpelledWord(res[o..o + 8]);
    SpelledWord(src[o..o + 8]);
    CombineSpelled(op, a, b);
    var w := Spelled(CombineWord(op, a, b), 8);
    forall k | 0 <= k < 8 { res[o + k] := w[k]; }
    assert forall p :: o <= p < o + 8 ==>
      res[p] == w[p - o] && before[p - o] == old(res[p]) && src[o..o + 8][p - o] == src[p];
  }

  /** lres[k] = ~lres[k]. */
  method InvertAt(res: array<bv8>, o: nat)
    requires o + 8 <= res.Length
    modifies res
    ensures forall p :: 0 <= p < res.Length ==> res[p] == if o <= p < o + 8 then !old(res[p]) else old(res[p])
  {
    hide Word, Spelled;
    ghost var before := res[o..o + 8];
    var a := Word(res[o..o + 8]);
    SpelledWord(res[o..o + 8]);
    NotSpelled(a);
    var w := Spelled(!a, 8);
    forall k | 0 <= k < 8 { res[o + k] := w[k]; }
    assert forall p :: o <= p < o + 8 ==> res[p] == w[p - o] && before[p - o] == old(res[p]);
  }

  /** Four words at once. */
  method CombineFour(res: array<bv8>, o: nat, op: Operation, src: Bits)
    requires o + 32 <= res.Length && o + 32 <= |src|
    modifies res
    ensures forall p :: 0 <= p < res.Length ==>
      res[p] == if o <= p < o + 32 then Combine(op, old(res[p]), src[p]) else old(res[p])
  {
    hide Combine;
    CombineAt(res, o, op, src);
    CombineAt(res, o + 8, op, src);
    CombineAt(res, o + 16, op, src);
    CombineAt(res, o + 24, op, src);
  }

  method InvertFour(res: array<bv8>, o: nat)
    requires o + 32 <= res.Length
    modifies res
    ensures forall p :: 0 <= p < res.Length ==> res[p] == if o <= p < o + 32 then !old(res[p]) else old(res[p])
  {
    InvertAt(res, o);
    InvertAt(res, o + 8);
    InvertAt(res, o + 16);
    InvertAt(res, o + 24);
  }

  /** The sources' bytes at p combined, as far as all the sources up to the n-th reach there. */
  lemma ColumnStep(op: Operation, srcs: seq<Bits>, n: nat, p: nat)
    requires 0 < n < |srcs| && p < |srcs[n]|
    ensures Column(op, srcs[..n + 1], p) == Combine(op, Column(op, srcs[..n], p), srcs[n][p])
  {
    assert srcs[..n + 1][..n] == srcs[..n];
  }

  /** One round of the fast path. */
  method FastRound(res: array<bv8>, j: nat, op: Operation, srcs: seq<Bits>)
    requires srcs != [] && (op == Not ==> |srcs| == 1)
    requires j + 32 <= res.Length && forall s :: s in srcs ==> j + 32 <= |s|
    requires forall p :: j <= p < j + 32 ==> res[p] == srcs[0][p]
    modifies res
    ensures forall p :: 0 <= p < res.Length ==> res[p] == if j <= p < j + 32 then Column(op, srcs, p) else old(res[p])
  {
    hide Combine;
    assert srcs[0] in srcs;
    if op == Not {
      InvertFour(res, j);
      return;
    }
    var i := 1;
    FirstColumn(op, srcs);
    while i < |srcs|
      invariant 1 <= i <= |srcs|
      invariant forall p :: 0 <= p < res.Length ==> res[p] == if j <= p < j + 32 then Column(op, srcs[..i], p)
        else old(res[p])
    {
      assert srcs[i] in srcs;
      CombineFour(res, j, op, srcs[i]);
      forall p | j <= p < j + 32
        ensures Column(op, srcs[..i + 1], p) == Combine(op, Column(op, srcs[..i], p), srcs[i][p]) {
        ColumnStep(op, srcs, i, p);
      }
      i := i + 1;
    }
    assert srcs[..i] == srcs;
  }

  lemma FirstColumn(op: Operation, srcs: seq<Bits>)
    requires srcs != [] && op != Not
    ensures forall p :: 0 <= p < |srcs[0]| ==> Column(op, srcs[..1], p) == srcs[0][p]
  {
  }

  /** The vanilla algorithm for one byte. */
  method SlowByte(j: nat, op: Operation, srcs: seq<Bits>) returns (output: bv8)
    requires srcs != [] && (op == Not ==> |srcs| == 1)
    ensures output == Column(op, srcs, j)
  {
    hide Combine;
    output := if |srcs[0]| <= j then 0 else srcs[0][j];
    if op == Not { output := !output; }
    var i := 1;
    while i < |srcs|
      invariant 1 <= i <= |srcs| && output == Column(op, srcs[..i], j)
    {
      var byte := if |srcs[i]| <= j then 0 else srcs[i][j];
      assert srcs[..i + 1][..i] == srcs[..i];
      output := Combine(op, output, byte);
      i := i + 1;
    }
    assert srcs[..i] == srcs;
  }

  /** The length of the shortest source. */
  method MinLen(srcs: seq<Bits>) returns (n: nat)
    requires srcs != []
    ensures forall s :: s in srcs ==> n <= |s|
  {
    n := |srcs[0]|;
    var j := 1;
    while j < |srcs|
      invariant 1 <= j <= |srcs| && forall i :: 0 <= i < j ==> n <= |srcs[i]|
    {
      if |srcs[j]| < n { n := |srcs[j]|; }
      j := j + 1;
    }
  }

  /** The computation in bitopCommand. */
  method BitOp(op: Operation, srcs: seq<Bits>) returns (r: Bits)
    requires srcs != [] && (op == Not ==> |srcs| == 1)
    ensures r == Result(op, srcs)
  {
    var maxlen := MaxLen(srcs);
    var minlen := MinLen(srcs);
    assert srcs[0] in srcs;
    var res := new bv8[maxlen](i => 0);
    var j := 0;
    if minlen > 0 && |srcs| <= 16 {
      forall k | 0 <= k < minlen { res[k] := srcs[0][k]; }
      j := FastPath(res, minlen, op, srcs);
    }
    while j < maxlen
      invariant j <= maxlen == res.Length && forall p :: 0 <= p < j ==> res[p] == Column(op, srcs, p)
    {
      var output := SlowByte(j, op, srcs);
      res[j] := output;
      j := j + 1;
    }
    r := res[..];
  }

  method FastPath(res: array<bv8>, minlen: nat, op: Operation, srcs: seq<Bits>) returns (j: nat)
    requires srcs != [] && (op == Not ==> |srcs| == 1)
    requires minlen <= res.Length && forall s :: s in srcs ==> minlen <= |s|
    requires srcs[0] in srcs && forall p :: 0 <= p < minlen ==> res[p] == srcs[0][p]
    modifies res
    ensures j <= minlen && forall p :: 0 <= p < j ==> res[p] == Column(op, srcs, p)
  {
    hide Column;
    j := 0;
    var left := minlen;
    while left >= 32
      invariant j + left == minlen
      invariant forall p :: 0 <= p < j ==> res[p] == Column(op, srcs, p)
      invariant forall p :: j <= p < minlen ==> res[p] == srcs[0][p]
      decreases left
    {
      FastRound(res, j, op, srcs);
      j := j + 32;
      left := left - 32;
    }
  }
}
