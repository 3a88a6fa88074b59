/** pqsort.c: quicksort that only has to get the positions l..r right. Positions are element
    indices, so a pointer p of the original is a + p * es; elements are swapped whole. */
module Pqsort {

  ghost predicate TotalPreorder<T(!new)>(cmp: (T, T) -> int)
  {
    && (forall a, b :: cmp(a, b) <= 0 <==> cmp(b, a) >= 0)
    && (forall a, b, c :: cmp(a, b) <= 0 && cmp(b, c) <= 0 ==> cmp(a, c) <= 0)
  }

  /** Positions l..r of the segment hold what a full sort would put there: every pair that
      reaches into l..r, or straddles it, is in order. */
  ghost predicate Placed<T>(cmp: (T, T) -> int, s: seq<T>, lo: nat, hi: nat, l: int, r: int)
    requires hi <= |s|
  {
    forall i, j :: lo <= i < j < hi && l <= j && i <= r ==> cmp(s[i], s[j]) <= 0
  }

  ghost predicate Sorted<T>(cmp: (T, T) -> int, s: seq<T>, lo: nat, hi: nat)
    requires hi <= |s|
  {
    forall i, j :: lo <= i < j < hi ==> cmp(s[i], s[j]) <= 0
  }

  /** `t` rearranges the segment lo..hi of `s` and leaves the rest alone. */
  ghost predicate Rearranged<T>(s: seq<T>, t: seq<T>, lo: nat, hi: nat)
  {
    && lo <= hi <= |s| == |t|
    && s[..lo] == t[..lo] && s[hi..] == t[hi..]
    && multiset(s[lo..hi]) == multiset(t[lo..hi])
  }

  lemma RearrangedSelf<T>(s: seq<T>, lo: nat, hi: nat)
    requires lo <= hi <= |s|
    ensures Rearranged(s, s, lo, hi)
  {
  }

  lemma RearrangedTwice<T>(s: seq<T>, t: seq<T>, u: seq<T>, lo: nat, hi: nat)
    requires Rearranged(s, t, lo, hi) && Rearranged(t, u, lo, hi)
    ensures Rearranged(s, u, lo, hi)
  {
  }

  function Swapped<T>(s: seq<T>, i: nat, j: nat): (t: seq<T>)
    requires i < |s| && j < |s|
    ensures |t| == |s|
  {
    s[i := s[j]][j := s[i]]
  }

  lemma SwapRearranges<T>(s: seq<T>, i: nat, j: nat, lo: nat, hi: nat)
    requires lo <= i < hi <= |s| && lo <= j < hi
    ensures Rearranged(s, Swapped(s, i, j), lo, hi)
  {
    var t := Swapped(s, i, j);
    var u := s[lo..hi];
    assert t[lo..hi] == u[i - lo := u[j - lo]][j - lo := u[i - lo]];
  }

  /** A rearrangement of a part is a rearrangement of the whole. */
  lemma Widen<T>(s: seq<T>, t: seq<T>, lo: nat, hi: nat, lo': nat, hi': nat)
    requires Rearranged(s, t, lo, hi) && lo' <= lo && hi <= hi' <= |s|
    ensures Rearranged(s, t, lo', hi')
  {
    assert s[lo'..hi'] == s[..lo][lo'..] + s[lo..hi] + s[hi..][..hi' - hi];
    assert t[lo'..hi'] == t[..lo][lo'..] + t[lo..hi] + t[hi..][..hi' - hi];
    assert s[..lo'] == s[..lo][..lo'] && t[..lo'] == t[..lo][..lo'];
    assert s[hi'..] == s[hi..][hi' - hi..] && t[hi'..] == t[hi..][hi' - hi..];
  }

  /** Every element of a rearranged segment was somewhere in that segment before. */
  lemma Origin<T>(s: seq<T>, t: seq<T>, lo: nat, hi: nat, k: nat) returns (m: nat)
    requires Rearranged(s, t, lo, hi) && lo <= k < hi
    ensures lo <= m < hi && t[k] == s[m]
  {
    assert t[k] == t[lo..hi][k - lo];
    assert t[k] in multiset(t[lo..hi]);
    assert t[k] in s[lo..hi];
    var i :| 0 <= i < hi - lo && s[lo..hi][i] == t[k];
    m := lo + i;
  }

  method Swap<T>(a: array<T>, i: nat, j: nat)
    requires i < a.Length && j < a.Length
    modifies a
    ensures a[..] == Swapped(old(a[..]), i, j)
  {
    a[i], a[j] := a[j], a[i];
  }

  // ----- insertion sort -----

  /** lo..hi is sorted but for the element at `at`, which may be too small for its place. */
  ghost predicate Sinking<T>(cmp: (T, T) -> int, s: seq<T>, lo: nat, at: nat, hi: nat)
    requires hi <= |s|
  {
    forall i, j :: lo <= i < j < hi && j != at ==> cmp(s[i], s[j]) <= 0
  }

  lemma SinkStep<T(!new)>(cmp: (T, T) -> int, s: seq<T>, lo: nat, at: nat, hi: nat)
    requires TotalPreorder(cmp) && lo < at < hi <= |s|
    requires Sinking(cmp, s, lo, at, hi) && cmp(s[at - 1], s[at]) > 0
    ensures Sinking(cmp, Swapped(s, at, at - 1), lo, at - 1, hi)
  {
    assert cmp(s[at], s[at - 1]) <= 0;
  }

  lemma SinkDone<T(!new)>(cmp: (T, T) -> int, s: seq<T>, lo: nat, at: nat, hi: nat)
    requires TotalPreorder(cmp) && lo <= at < hi <= |s|
    requires Sinking(cmp, s, lo, at, hi) && (at == lo || cmp(s[at - 1], s[at]) <= 0)
    ensures Sorted(cmp, s, lo, hi)
  {
    forall i | lo <= i < at ensures cmp(s[i], s[at]) <= 0 {
      if i < at - 1 { assert cmp(s[i], s[at - 1]) <= 0; }
    }
  }

  method SinkOne<T(!new)>(a: array<T>, cmp: (T, T) -> int, lo: nat, at: nat, hi: nat)
    requires TotalPreorder(cmp) && lo < at < hi <= a.Length
    requires Sinking(cmp, a[..], lo, at, hi) && cmp(a[at - 1], a[at]) > 0
    modifies a
    ensures Sinking(cmp, a[..], lo, at - 1, hi) && Rearranged(old(a[..]), a[..], lo, hi)
  {
    hide TotalPreorder, Sinking, Rearranged, Swapped;
    ghost var s := a[..];
    SinkStep(cmp, s, lo, at, hi);
    SwapRearranges(s, at, at - 1, lo, hi);
    Swap(a, at, at - 1);
  }

  method Insert<T(!new)>(a: array<T>, cmp: (T, T) -> int, lo: nat, pm: nat)
    requires TotalPreorder(cmp) && lo <= pm < a.Length && Sorted(cmp, a[..], lo, pm)
    modifies a
    ensures Rearranged(old(a[..]), a[..], lo, pm + 1) && Sorted(cmp, a[..], lo, pm + 1)
  {
    hide Rearranged, TotalPreorder;
    ghost var s := a[..];
    RearrangedSelf(s, lo, pm + 1);
    var pl := pm;
    while pl > lo && cmp(a[pl - 1], a[pl]) > 0
      invariant lo <= pl <= pm
      invariant Sinking(cmp, a[..], lo, pl, pm + 1)
      invariant Rearranged(s, a[..], lo, pm + 1)
    {
      ghost var t := a[..];
      SinkOne(a, cmp, lo, pl, pm + 1);
      RearrangedTwice(s, t, a[..], lo, pm + 1);
      pl := pl - 1;
    }
    SinkDone(cmp, a[..], lo, pl, pm + 1);
  }

  method InsertionSort<T(!new)>(a: array<T>, cmp: (T, T) -> int, lo: nat, hi: nat)
    requires TotalPreorder(cmp) && lo <= hi <= a.Length
    modifies a
    ensures Rearranged(old(a[..]), a[..], lo, hi) && Sorted(cmp, a[..], lo, hi)
  {
    hide Rearranged, TotalPreorder;
    ghost var s := a[..];
    RearrangedSelf(s, lo, hi);
    var pm := lo + 1;
    while pm < hi
      invariant lo < pm && (pm <= hi || pm == lo + 1)
      invariant Rearranged(s, a[..], lo, hi)
      invariant Sorted(cmp, a[..], lo, if pm <= hi then pm else hi)
    {
      ghost var t := a[..];
      Insert(a, cmp, lo, pm);
      Widen(t, a[..], lo, pm + 1, lo, hi);
      RearrangedTwice(s, t, a[..], lo, hi);
      pm := pm + 1;
    }
  }

  // ----- the fat partition -----

  function Med3<T>(s: seq<T>, x: nat, y: nat, z: nat, cmp: (T, T) -> int): (m: nat)
    requires x < |s| && y < |s| && z < |s|
    ensures m == x || m == y || m == z
  {
    if cmp(s[x], s[y]) < 0 then
      if cmp(s[y], s[z]) < 0 then y else if cmp(s[x], s[z]) < 0 then z else x
    else
      if cmp(s[y], s[z]) > 0 then y else if cmp(s[x], s[z]) < 0 then x else z
  }

  ghost predicate Between<T>(cmp: (T, T) -> int, u: T, m: T, v: T)
  {
    (cmp(u, m) <= 0 && cmp(m, v) <= 0) || (cmp(v, m) <= 0 && cmp(m, u) <= 0)
  }

  /** med3 finds the median: one of the three, and not beyond both others. */
  lemma Med3IsMedian<T(!new)>(s: seq<T>, x: nat, y: nat, z: nat, cmp: (T, T) -> int)
    requires x < |s| && y < |s| && z < |s| && TotalPreorder(cmp)
    ensures var m := Med3(s, x, y, z, cmp);
      || (m == x && Between(cmp, s[y], s[x], s[z]))
      || (m == y && Between(cmp, s[x], s[y], s[z]))
      || (m == z && Between(cmp, s[x], s[z], s[y]))
  {
    var a, b, c := s[x], s[y], s[z];
    assert cmp(a, b) < 0 <==> cmp(b, a) > 0;
    assert cmp(b, c) < 0 <==> cmp(c, b) > 0;
    assert cmp(a, c) < 0 <==> cmp(c, a) > 0;
  }

  /** The pivot: the middle element, a median of three, or a median of three medians. */
  function Pivot<T>(s: seq<T>, lo: nat, n: nat, cmp: (T, T) -> int): (m: nat)
    requires n >= 7 && lo + n <= |s|
    ensures lo <= m < lo + n
  {
    var pm := lo + n / 2;
    if n <= 7 then pm
    else if n <= 40 then Med3(s, lo, pm, lo + n - 1, cmp)
    else
      var d := n / 8;
      var pn := lo + n - 1;
      Med3(s, Med3(s, lo, lo + d, lo + 2 * d, cmp), Med3(s, pm - d, pm, pm + d, cmp),
           Med3(s, pn - 2 * d, pn - d, pn, cmp), cmp)
  }

  ghost predicate Below<T>(cmp: (T, T) -> int, s: seq<T>, lo: nat, hi: nat, p: T)
    requires hi <= |s|
  { forall k :: lo <= k < hi ==> cmp(s[k], p) < 0 }

  ghost predicate Equal<T>(cmp: (T, T) -> int, s: seq<T>, lo: nat, hi: nat, p: T)
    requires hi <= |s|
  { forall k :: lo <= k < hi ==> cmp(s[k], p) == 0 }

  ghost predicate Above<T>(cmp: (T, T) -> int, s: seq<T>, lo: nat, hi: nat, p: T)
    requires hi <= |s|
  { forall k :: lo <= k < hi ==> cmp(s[k], p) > 0 }

  /** The four fingers of the partition: equal, smaller, not yet seen, greater, equal. */
  ghost predicate Fingers<T>(cmp: (T, T) -> int, s: seq<T>, lo: nat, hi: nat, p: T, pa: int, pb: int, pc: int, pd: int)
  {
    && lo < pa <= pb <= pc + 1 && pc <= pd < hi <= |s|
    && s[lo] == p
    && Equal(cmp, s, lo + 1, pa, p) && Below(cmp, s, pa, pb, p)
    && Above(cmp, s, pc + 1, pd + 1, p) && Equal(cmp, s, pd + 1, hi, p)
  }

  lemma UpSmaller<T>(cmp: (T, T) -> int, s: seq<T>, lo: nat, hi: nat, p: T, pa: int, pb: int, pc: int, pd: int)
    requires Fingers(cmp, s, lo, hi, p, pa, pb, pc, pd) && pb <= pc && cmp(s[pb], p) < 0
    ensures Fingers(cmp, s, lo, hi, p, pa, pb + 1, pc, pd)
  {
  }

  lemma UpEqual<T>(cmp: (T, T) -> int, s: seq<T>, lo: nat, hi: nat, p: T, pa: int, pb: int, pc: int, pd: int)
    requires Fingers(cmp, s, lo, hi, p, pa, pb, pc, pd) && pb <= pc && cmp(s[pb], p) == 0
    ensures Fingers(cmp, Swapped(s, pa, pb), lo, hi, p, pa + 1, pb + 1, pc, pd)
  {
  }

  lemma DownGreater<T>(cmp: (T, T) -> int, s: seq<T>, lo: nat, hi: nat, p: T, pa: int, pb: int, pc: int, pd: int)
    requires Fingers(cmp, s, lo, hi, p, pa, pb, pc, pd) && pb <= pc && cmp(s[pc], p) > 0
    ensures Fingers(cmp, s, lo, hi, p, pa, pb, pc - 1, pd)
  {
  }

  lemma DownEqual<T>(cmp: (T, T) -> int, s: seq<T>, lo: nat, hi: nat, p: T, pa: int, pb: int, pc: int, pd: int)
    requires Fingers(cmp, s, lo, hi, p, pa, pb, pc, pd) && pb <= pc && cmp(s[pc], p) == 0
    ensures Fingers(cmp, Swapped(s, pc, pd), lo, hi, p, pa, pb, pc - 1, pd - 1)
  {
  }

  lemma Exchange<T>(cmp: (T, T) -> int, s: seq<T>, lo: nat, hi: nat, p: T, pa: int, pb: int, pc: int, pd: int)
    requires Fingers(cmp, s, lo, hi, p, pa, pb, pc, pd) && pb < pc && cmp(s[pb], p) > 0 && cmp(s[pc], p) < 0
    ensures Fingers(cmp, Swapped(s, pb, pc), lo, hi, p, pa, pb + 1, pc - 1, pd)
  {
  }

  /** Swaps two elements of the segment, keeping account of the permutation since `s`. */
  method SwapWithin<T>(a: array<T>, i: nat, j: nat, lo: nat, hi: nat, ghost s: seq<T>)
    requires lo <= i < hi <= a.Length && lo <= j < hi && Rearranged(s, a[..], lo, hi)
    modifies a
    ensures a[..] == Swapped(old(a[..]), i, j) && Rearranged(s, a[..], lo, hi)
  {
    SwapRearranges(a[..], i, j, lo, hi);
    RearrangedTwice(s, a[..], Swapped(a[..], i, j), lo, hi);
    Swap(a, i, j);
  }

  /** Moves pb up past elements that are not greater than the pivot, collecting equal ones. */
  method ScanUp<T>(a: array<T>, cmp: (T, T) -> int, lo: nat, hi: nat, ghost s: seq<T>, pa0: int, pb0: int, pc: int,
      pd: int)
    returns (pa: int, pb: int, swapped: bool)
    requires lo < hi <= a.Length && Fingers(cmp, a[..], lo, hi, a[lo], pa0, pb0, pc, pd)
    requires Rearranged(s, a[..], lo, hi)
    modifies a
    ensures Rearranged(s, a[..], lo, hi)
    ensures Fingers(cmp, a[..], lo, hi, a[lo], pa, pb, pc, pd) && a[lo] == old(a[lo])
    ensures pb0 <= pb && (pb > pc || cmp(a[pb], a[lo]) > 0)
  {
    ghost var p := a[lo];
    pa, pb, swapped := pa0, pb0, false;
    hide Rearranged, Fingers, Swapped;
    while pb <= pc && cmp(a[pb], a[lo]) <= 0
      invariant lo < pa <= pb <= pc + 1 <= hi && pb0 <= pb && a[lo] == p
      invariant Fingers(cmp, a[..], lo, hi, p, pa, pb, pc, pd)
      invariant Rearranged(s, a[..], lo, hi)
    {
      if cmp(a[pb], a[lo]) == 0 {
        UpEqual(cmp, a[..], lo, hi, p, pa, pb, pc, pd);
        swapped := true;
        SwapWithin(a, pa, pb, lo, hi, s);
        pa := pa + 1;
      } else {
        UpSmaller(cmp, a[..], lo, hi, p, pa, pb, pc, pd);
      }
      pb := pb + 1;
    }
  }

  /** Moves pc down past elements that are not smaller than the pivot, collecting equal ones. */
  method ScanDown<T>(a: array<T>, cmp: (T, T) -> int, lo: nat, hi: nat, ghost s: seq<T>, pa: int, pb: int, pc0: int,
      pd0: int)
    returns (pc: int, pd: int, swapped: bool)
    requires lo < hi <= a.Length && Fingers(cmp, a[..], lo, hi, a[lo], pa, pb, pc0, pd0)
    requires Rearranged(s, a[..], lo, hi)
    requires pb <= pc0 ==> cmp(a[pb], a[lo]) > 0
    modifies a
    ensures Rearranged(s, a[..], lo, hi)
    ensures Fingers(cmp, a[..], lo, hi, a[lo], pa, pb, pc, pd) && a[lo] == old(a[lo])
    ensures pc <= pc0 && (pb > pc || (cmp(a[pb], a[lo]) > 0 && cmp(a[pc], a[lo]) < 0))
  {
    ghost var p := a[lo];
    pc, pd, swapped := pc0, pd0, false;
    hide Rearranged, Fingers;
    while pb <= pc && cmp(a[pc], a[lo]) >= 0
      invariant lo < pb <= pc + 1 && pc <= pd < hi && pc <= pc0 && a[lo] == p
      invariant pb <= pc ==> cmp(a[pb], p) > 0
      invariant Fingers(cmp, a[..], lo, hi, p, pa, pb, pc, pd)
      invariant Rearranged(s, a[..], lo, hi)
    {
      if cmp(a[pc], a[lo]) == 0 {
        DownEqual(cmp, a[..], lo, hi, p, pa, pb, pc, pd);
        swapped := true;
        SwapWithin(a, pc, pd, lo, hi, s);
        pd := pd - 1;
      } else {
        DownGreater(cmp, a[..], lo, hi, p, pa, pb, pc, pd);
      }
      pc := pc - 1;
    }
  }

  /** The partition loop around the pivot at `lo`. */
  method Partition<T>(a: array<T>, cmp: (T, T) -> int, lo: nat, hi: nat, ghost s: seq<T>)
    returns (pa: int, pb: int, pc: int, pd: int, swapped: bool)
    requires lo < hi <= a.Length && cmp(a[lo], a[lo]) == 0 && Rearranged(s, a[..], lo, hi)
    modifies a
    ensures Rearranged(s, a[..], lo, hi)
    ensures pb == pc + 1 && Fingers(cmp, a[..], lo, hi, a[lo], pa, pb, pc, pd) && a[lo] == old(a[lo])
  {
    ghost var p := a[lo];
    pa, pb, pc, pd, swapped := lo + 1, lo + 1, hi - 1, hi - 1, false;
    assert Fingers(cmp, a[..], lo, hi, p, pa, pb, pc, pd);
    hide Rearranged, Fingers, Swapped;
    while true
      invariant lo < pa <= pb <= pc + 1 && pc <= pd < hi && a[lo] == p
      invariant Fingers(cmp, a[..], lo, hi, p, pa, pb, pc, pd)
      invariant Rearranged(s, a[..], lo, hi)
      decreases pc + 1 - pb
    {
      var up, down;
      pa, pb, up := ScanUp(a, cmp, lo, hi, s, pa, pb, pc, pd);
      pc, pd, down := ScanDown(a, cmp, lo, hi, s, pa, pb, pc, pd);
      swapped := swapped || up || down;
      if pb > pc { break; }
      Exchange(cmp, a[..], lo, hi, p, pa, pb, pc, pd);
      SwapWithin(a, pb, pc, lo, hi, s);
      swapped := true;
      pb, pc := pb + 1, pc - 1;
    }
  }

  /** `t` is `s` with the disjoint blocks of length n at i and j exchanged. */
  ghost predicate BlocksExchanged<T>(s: seq<T>, t: seq<T>, i: int, j: int, n: int)
  {
    && 0 <= i && 0 <= n && i + n <= j && j + n <= |s| == |t|
    && (forall k :: 0 <= k < |s| && !(i <= k < i + n) && !(j <= k < j + n) ==> t[k] == s[k])
    && (forall k :: i <= k < i + n ==> t[k] == s[k - i + j])
    && (forall k :: j <= k < j + n ==> t[k] == s[k - j + i])
  }

  lemma NothingExchanged<T>(s: seq<T>, i: int, j: int)
    requires 0 <= i <= j <= |s|
    ensures BlocksExchanged(s, s, i, j, 0)
  {
  }

  lemma ExchangeOneMore<T>(s: seq<T>, t: seq<T>, i: int, j: int, n: int)
    requires BlocksExchanged(s, t, i, j, n) && i + n + 1 <= j && j + n + 1 <= |s|
    ensures BlocksExchanged(s, Swapped(t, i + n, j + n), i, j, n + 1)
  {
  }

  lemma SameLength<T>(s: seq<T>, t: seq<T>, i: int, j: int, n: int)
    requires BlocksExchanged(s, t, i, j, n)
    ensures |s| == |t|
  {
  }

  method ExchangePair<T>(a: array<T>, i: nat, j: nat, k: nat, lo: nat, hi: nat, ghost before: seq<T>, ghost s: seq<T>)
    requires lo <= i && i + k < j && j + k < hi <= a.Length
    requires BlocksExchanged(before, a[..], i, j, k) && Rearranged(s, a[..], lo, hi)
    modifies a
    ensures BlocksExchanged(before, a[..], i, j, k + 1) && Rearranged(s, a[..], lo, hi)
  {
    hide *;
    SameLength(before, a[..], i, j, k);
    ExchangeOneMore(before, a[..], i, j, k);
    SwapWithin(a, i + k, j + k, lo, hi, s);
  }

  method VecSwap<T>(a: array<T>, i: nat, j: nat, n: nat, lo: nat, hi: nat, ghost s: seq<T>)
    requires lo <= i && i + n <= j && j + n <= hi <= a.Length && Rearranged(s, a[..], lo, hi)
    modifies a
    ensures BlocksExchanged(old(a[..]), a[..], i, j, n) && Rearranged(s, a[..], lo, hi)
  {
    hide *;
    NothingExchanged(a[..], i, j);
    var k := 0;
    while k < n
      invariant 0 <= k <= n
      invariant BlocksExchanged(old(a[..]), a[..], i, j, k)
      invariant Rearranged(s, a[..], lo, hi)
    {
      ExchangePair(a, i, j, k, lo, hi, old(a[..]), s);
      k := k + 1;
    }
  }

  /** The segment in three parts around the pivot value. */
  ghost predicate ThreeWay<T>(cmp: (T, T) -> int, s: seq<T>, lo: nat, m1: nat, m2: nat, hi: nat, p: T)
  {
    && lo <= m1 < m2 <= hi <= |s|
    && Below(cmp, s, lo, m1, p) && Equal(cmp, s, m1, m2, p) && Above(cmp, s, m2, hi, p)
  }

  function Min(x: int, y: int): int { if x < y then x else y }

  /** Exchanging the shorter of the two outer blocks on each side gathers the equal elements. */
  lemma Gathered<T>(cmp: (T, T) -> int, s: seq<T>, t: seq<T>, u: seq<T>, lo: nat, hi: nat, p: T, pa: int, pb: int,
      pd: int)
    requires Fingers(cmp, s, lo, hi, p, pa, pb, pb - 1, pd) && cmp(p, p) == 0
    requires var r := Min(pa - lo, pb - pa); BlocksExchanged(s, t, lo, pb - r, r)
    requires var r := Min(pd - pb + 1, hi - pd - 1); BlocksExchanged(t, u, pb, hi - r, r)
    ensures ThreeWay(cmp, u, lo, lo + pb - pa, hi - (pd - pb + 1), hi, p)
  {
    assert Equal(cmp, s, lo, pa, p);
    assert Below(cmp, t, lo, lo + pb - pa, p) && Equal(cmp, t, lo + pb - pa, pb, p);
    assert Above(cmp, t, pb, pd + 1, p) && Equal(cmp, t, pd + 1, hi, p);
    assert Below(cmp, u, lo, lo + pb - pa, p) && Equal(cmp, u, lo + pb - pa, pb, p);
  }

  method Gather<T>(a: array<T>, cmp: (T, T) -> int, lo: nat, hi: nat, pa: int, pb: int, pd: int, ghost s: seq<T>)
    returns (m1: nat, m2: nat)
    requires lo < hi <= a.Length && cmp(a[lo], a[lo]) == 0
    requires Fingers(cmp, a[..], lo, hi, a[lo], pa, pb, pb - 1, pd) && Rearranged(s, a[..], lo, hi)
    modifies a
    ensures m1 == lo + pb - pa && m2 == hi - (pd - pb + 1)
    ensures ThreeWay(cmp, a[..], lo, m1, m2, hi, old(a[lo])) && Rearranged(s, a[..], lo, hi)
  {
    ghost var before, p := a[..], a[lo];
    m1, m2 := lo + pb - pa, hi - (pd - pb + 1);
    hide Rearranged;
    var r := Min(pa - lo, pb - pa);
    VecSwap(a, lo, pb - r, r, lo, hi, s);
    ghost var between := a[..];
    r := Min(pd - pb + 1, hi - pd - 1);
    VecSwap(a, pb, hi - r, r, lo, hi, s);
    Gathered(cmp, before, between, a[..], lo, hi, p, pa, pb, pd);
  }

  // ----- the sort -----

  /** Everything before `x` is placed, and is no greater than anything from `x` on. */
  ghost predicate Frontier<T>(cmp: (T, T) -> int, s: seq<T>, lo: nat, x: nat, hi: nat, l: int, r: int)
  {
    && lo <= x <= hi <= |s|
    && Placed(cmp, s, lo, x, l, r)
    && forall i, j :: lo <= i < x <= j < hi ==> cmp(s[i], s[j]) <= 0
  }

  lemma FrontierKept<T>(cmp: (T, T) -> int, s: seq<T>, t: seq<T>, lo: nat, x: nat, hi: nat, l: int, r: int)
    requires Frontier(cmp, s, lo, x, hi, l, r) && Rearranged(s, t, x, hi)
    ensures Frontier(cmp, t, lo, x, hi, l, r)
  {
    assert forall i :: 0 <= i < x ==> t[i] == t[..x][i] == s[..x][i] == s[i];
    forall i, j | lo <= i < x <= j < hi ensures cmp(t[i], t[j]) <= 0 {
      var m := Origin(s, t, x, hi, j);
    }
  }

  lemma ThreeWayKept<T>(cmp: (T, T) -> int, s: seq<T>, t: seq<T>, lo: nat, m1: nat, m2: nat, hi: nat, p: T)
    requires ThreeWay(cmp, s, lo, m1, m2, hi, p) && Rearranged(s, t, lo, m1)
    ensures ThreeWay(cmp, t, lo, m1, m2, hi, p)
  {
    assert forall i :: m1 <= i < |s| ==> t[i] == t[m1..][i - m1] == s[m1..][i - m1] == s[i];
    forall k | lo <= k < m1 ensures cmp(t[k], p) < 0 {
      var m := Origin(s, t, lo, m1, k);
    }
  }

  /** The smaller part placed, the frontier moves on to the greater part. */
  lemma FrontierMoves<T(!new)>(cmp: (T, T) -> int, s: seq<T>, lo: nat, x: nat, m1: nat, m2: nat, hi: nat, l: int,
      r: int, p: T)
    requires TotalPreorder(cmp) && Frontier(cmp, s, lo, x, hi, l, r)
    requires ThreeWay(cmp, s, x, m1, m2, hi, p) && Placed(cmp, s, x, m1, l, r)
    ensures Frontier(cmp, s, lo, m2, hi, l, r)
  {
    forall i, j | x <= i < j < hi && (i < m1 <= j || i < m2 <= j || m1 <= i < m2) ensures cmp(s[i], s[j]) <= 0 {
      if i < m2 && m1 <= j {
        assert cmp(s[i], p) <= 0;
        assert cmp(p, s[j]) <= 0;
      }
    }
  }

  lemma FrontierDone<T>(cmp: (T, T) -> int, s: seq<T>, lo: nat, x: nat, hi: nat, l: int, r: int)
    requires Frontier(cmp, s, lo, x, hi, l, r) && Placed(cmp, s, x, hi, l, r)
    ensures Placed(cmp, s, lo, hi, l, r)
  {
  }

  /** One round on lo..hi: either it is sorted outright (short, or already in order as far as the
      partition could tell), or it is split in three around a pivot. */
  method Round<T(!new)>(a: array<T>, cmp: (T, T) -> int, lo: nat, hi: nat)
    returns (sorted: bool, m1: nat, m2: nat, ghost p: T)
    requires TotalPreorder(cmp) && lo < hi <= a.Length
    modifies a
    ensures Rearranged(old(a[..]), a[..], lo, hi)
    ensures if sorted then Sorted(cmp, a[..], lo, hi) else ThreeWay(cmp, a[..], lo, m1, m2, hi, p)
  {
    ghost var s := a[..];
    RearrangedSelf(s, lo, hi);
    hide Rearranged, Swapped, Fingers, ThreeWay, Sorted;
    sorted, m1, m2, p := true, lo, hi, a[lo];
    if hi - lo < 7 {
      InsertionSort(a, cmp, lo, hi);
      return;
    }
    SwapWithin(a, lo, Pivot(a[..], lo, hi - lo, cmp), lo, hi, s);
    p := a[lo];
    Reflexive(cmp, p);
    hide TotalPreorder;
    var pa, pb, pc, pd, swapped := Partition(a, cmp, lo, hi, s);
    if !swapped {
      ghost var t := a[..];
      InsertionSort(a, cmp, lo, hi);
      RearrangedTwice(s, t, a[..], lo, hi);
      return;
    }
    sorted := false;
    m1, m2 := Gather(a, cmp, lo, hi, pa, pb, pd, s);
  }

  lemma Reflexive<T(!new)>(cmp: (T, T) -> int, p: T)
    requires TotalPreorder(cmp)
    ensures cmp(p, p) == 0
  {
  }

  /** The test that lets a segment be skipped: neither end of l..r reaches into lo..hi. */
  predicate Outside(lo: int, hi: int, l: int, r: int)
  {
    (l < lo && r < lo) || (l > hi - 1 && r > hi - 1)
  }

  /** The original compares byte addresses: `base + l * es` and the last byte of element r against
      the first and last byte of the segment. For l <= r that is the test on indices above. */
  lemma AddressesAgree(base: nat, es: nat, lo: nat, hi: nat, l: nat, r: nat)
    requires es > 0 && lo < hi && l <= r
    ensures var first, last := base + lo * es, base + hi * es - 1;
      var left, right := base + l * es, base + (r + 1) * es - 1;
      Outside(lo, hi, l, r) <==> ((left < first && right < first) || (left > last && right > last))
  {
    MulOrder(r + 1, lo, es);
    MulOrder(hi, l, es);
    MulOrder(l, r, es);
  }

  lemma MulOrder(x: nat, y: nat, es: nat)
    requires es > 0
    ensures x <= y <==> x * es <= y * es
  {
    if x < y { MulGap(x, y, es); } else if y < x { MulGap(y, x, es); }
  }

  lemma {:induction false} MulGap(x: nat, y: nat, es: nat)
    requires x < y
    ensures x * es + es <= y * es
    decreases y
  {
    if x + 1 < y { MulGap(x, y - 1, es); }
    assert y * es == (y - 1) * es + es;
  }

  /** Sorts what l..r needs of the segment lo..hi. */
  method Segment<T(!new)>(a: array<T>, cmp: (T, T) -> int, lo: nat, hi: nat, l: int, r: int)
    requires TotalPreorder(cmp) && lo <= hi <= a.Length && l <= r
    modifies a
    ensures Rearranged(old(a[..]), a[..], lo, hi)
    ensures Placed(cmp, a[..], lo, hi, l, r)
    decreases hi - lo
  {
    ghost var s := a[..];
    RearrangedSelf(s, lo, hi);
    var x := lo;
    assert Frontier(cmp, a[..], lo, x, hi, l, r);
    hide Rearranged, TotalPreorder, Frontier, ThreeWay;
    while x < hi
      invariant lo <= x <= hi
      invariant Rearranged(s, a[..], lo, hi)
      invariant Frontier(cmp, a[..], lo, x, hi, l, r)
      decreases hi - x
    {
      ghost var t := a[..];
      var sorted, m1, m2, p := Round(a, cmp, x, hi);
      After(cmp, s, t, a[..], lo, x, hi, hi, l, r);
      if sorted {
        FrontierDone(cmp, a[..], lo, x, hi, l, r);
        return;
      }
      ThreeWayBounds(cmp, a[..], x, m1, m2, hi, p);
      if m1 - x > 1 && !Outside(x, m1, l, r) {
        t := a[..];
        Segment(a, cmp, x, m1, l, r);
        After(cmp, s, t, a[..], lo, x, m1, hi, l, r);
        ThreeWayKept(cmp, t, a[..], x, m1, m2, hi, p);
      }
      FrontierMoves(cmp, a[..], lo, x, m1, m2, hi, l, r, p);
      if hi - m2 <= 1 || Outside(m2, hi, l, r) {
        FrontierDone(cmp, a[..], lo, m2, hi, l, r);
        return;
      }
      x := m2;
    }
    FrontierDone(cmp, a[..], lo, x, hi, l, r);
  }

  lemma ThreeWayBounds<T>(cmp: (T, T) -> int, s: seq<T>, lo: nat, m1: nat, m2: nat, hi: nat, p: T)
    requires ThreeWay(cmp, s, lo, m1, m2, hi, p)
    ensures lo <= m1 < m2 <= hi <= |s|
  {
  }

  /** Work between x and y <= hi keeps both the permutation and the frontier. */
  lemma After<T>(cmp: (T, T) -> int, s: seq<T>, t: seq<T>, u: seq<T>, lo: nat, x: nat, y: nat, hi: nat, l: int, r: int)
    requires Rearranged(s, t, lo, hi) && Rearranged(t, u, x, y)
    requires lo <= x && y <= hi <= |t| && Frontier(cmp, t, lo, x, hi, l, r)
    ensures Rearranged(s, u, lo, hi) && Frontier(cmp, u, lo, x, hi, l, r)
  {
    hide Rearranged, Frontier;
    Widen(t, u, x, y, lo, hi);
    RearrangedTwice(s, t, u, lo, hi);
    Widen(t, u, x, y, x, hi);
    FrontierKept(cmp, t, u, lo, x, hi, l, r);
  }

  /** Partial sort: a permutation in which positions l..r are sorted, everything before them is no
      greater and everything after them no smaller. */
  method Pqsort<T(!new)>(a: array<T>, cmp: (T, T) -> int, l: nat, r: nat)
    requires TotalPreorder(cmp) && l <= r < a.Length
    modifies a
    ensures multiset(a[..]) == multiset(old(a[..]))
    ensures forall i, j :: l <= i < j <= r ==> cmp(a[i], a[j]) <= 0
    ensures forall i :: 0 <= i < l ==> cmp(a[i], a[l]) <= 0
    ensures forall j :: r < j < a.Length ==> cmp(a[r], a[j]) <= 0
  {
    ghost var s := a[..];
    Segment(a, cmp, 0, a.Length, l, r);
    assert s[0..a.Length] == s && a[..][0..a.Length] == a[..];
    assert Placed(cmp, a[..], 0, a.Length, l, r);
  }

  /** If the first m elements of `s` satisfy P and none of `t` from n on does, then m <= n. */
  lemma Pigeonhole<T>(s: seq<T>, t: seq<T>, m: nat, n: nat, P: T -> bool)
    requires multiset(s) == multiset(t) && m <= |s| && n <= |t|
    requires forall i :: 0 <= i < m ==> P(s[i])
    requires forall i :: n <= i < |t| ==> !P(t[i])
    ensures m <= n
  {
    var few, many := multiset(s[..m]), multiset(t[..n]);
    assert s == s[..m] + s[m..] && t == t[..n] + t[n..];
    forall e ensures few[e] <= many[e] {
      if e in few {
        assert e in s[..m] && P(e);
        assert e !in t[n..];
        assert multiset(t[n..])[e] == 0;
        assert few[e] <= multiset(s)[e] == multiset(t)[e] == many[e];
      }
    }
    assert many == few + (many - few);
    assert |few| == m && |many| == n;
  }

  /** What `Placed` leaves in the range is what any full sort would: for l <= k <= r the element at
      k compares equal to the k-th smallest. */
  lemma PlacedIsSelection<T(!new)>(cmp: (T, T) -> int, s: seq<T>, t: seq<T>, l: nat, r: nat, k: nat)
    requires TotalPreorder(cmp) && l <= k <= r < |s|
    requires multiset(s) == multiset(t) && |t| == |s|
    requires Placed(cmp, s, 0, |s|, l, r) && Sorted(cmp, t, 0, |t|)
    ensures cmp(s[k], t[k]) == 0
  {
    var x, y := s[k], t[k];
    Reflexive(cmp, x);
    Reflexive(cmp, y);
    if cmp(x, y) < 0 {
      // k + 1 elements of s are <= x, but in t every one from k on is >= y > x
      forall i | k <= i < |t| ensures cmp(t[i], x) > 0 {
        assert cmp(y, t[i]) <= 0;
      }
      Pigeonhole(s, t, k + 1, k, e => cmp(e, x) <= 0);
    } else if cmp(x, y) > 0 {
      // k + 1 elements of t are <= y, but in s every one from k on is >= x > y
      forall i | k <= i < |s| ensures cmp(s[i], y) > 0 {
        assert cmp(x, s[i]) <= 0;
      }
      Pigeonhole(t, s, k + 1, k, e => cmp(e, y) <= 0);
    }
  }
}
