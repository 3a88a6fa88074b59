/** dict.c's safe iterator: dictNext while the dictionary is being changed. */
module DictIterator {
  import opened Bytes
  import opened DictModel

  /** The C iterator; its two entry pointers are named by the key they point at. */
  datatype Iter = Iter(table: int, index: int, entry: Option<Key>, nextEntry: Option<Key>)

  const START := Iter(0, -1, None, None)

  function Current(s: State, it: Iter): Table { if it.table == 0 then s.ht0 else s.ht1 }

  /** The part of a chain from the entry named `k` on. */
  function Suffix(c: Chain, k: Option<Key>): (r: Chain)
    ensures |r| <= |c|
  {
    if c == [] || k == None then [] else if c[0].key == k.value then c else Suffix(c[1..], k)
  }

  function HeadKey(c: Chain): Option<Key> { if c == [] then None else Some(c[0].key) }

  /** entry->next. */
  function Successor(c: Chain, k: Key): Option<Key>
  {
    var f := Suffix(c, Some(k));
    if f == [] then None else HeadKey(f[1..])
  }

  /** What is left of the bucket the iterator stands in. */
  function Pending(s: State, it: Iter): Chain
  {
    if it.entry != None && 0 <= it.index < |Current(s, it).buckets|
    then Suffix(Current(s, it).buckets[it.index], it.nextEntry) else []
  }

  ghost predicate ItOk(s: State, it: Iter)
  {
    && (it.table == 0 || (it.table == 1 && s.Rehashing()))
    && it.index >= -1
    && (it.entry != None ==> 0 <= it.index < |Current(s, it).buckets| && it.nextEntry != it.entry)
    && (it.entry != None && it.nextEntry != None ==> Get(Current(s, it).buckets[it.index], it.nextEntry.value) != None)
  }

  // ----- dictNext -----

  function BucketsLeft(s: State, it: Iter): nat
  {
    var n := |Current(s, it).buckets| - it.index;
    if n < 0 then 0 else n
  }

  /** No bucket is left, in either table. */
  predicate AtEnd(s: State, it: Iter)
  {
    it.entry == None && it.index + 1 >= |Current(s, it).buckets| && !(s.Rehashing() && it.table == 0)
  }

  /** Where the loop of dictNext moves to: along the list, to the next bucket, to the new table. */
  function MoveOn(s: State, it: Iter): (r: Iter)
    requires ItOk(s, it) && !AtEnd(s, it) && (s.Rehashing() ==> s.ht1.buckets != [])
  {
    if it.entry != None then it.(entry := it.nextEntry)
    else if it.index + 1 < |Current(s, it).buckets| then
      it.(index := it.index + 1, entry := HeadKey(Current(s, it).buckets[it.index + 1]))
    else Iter(1, 0, HeadKey(s.ht1.buckets[0]), it.nextEntry)
  }

  /** The loop of dictNext. */
  function Advance(s: State, it: Iter): (r: Iter)
    requires ItOk(s, it) && (s.Rehashing() ==> s.ht1.buckets != [])
    decreases 1 - it.table, BucketsLeft(s, it), if it.entry == None then 0 else 2
  {
    if AtEnd(s, it) then it.(index := it.index + 1) else Land(s, MoveOn(s, it))
  }

  /** Having moved: stop at an entry, remembering its successor, or go round the loop again. */
  function Land(s: State, it: Iter): (r: Iter)
    requires (it.table == 0 || (it.table == 1 && s.Rehashing())) && 0 <= it.index < |Current(s, it).buckets|
    requires s.Rehashing() ==> s.ht1.buckets != []
    requires it.entry != None ==> Get(Current(s, it).buckets[it.index], it.entry.value) != None
    decreases 1 - it.table, BucketsLeft(s, it), 1
  {
    match it.entry
    case None => Advance(s, it)
    case Some(k) => it.(nextEntry := Successor(Current(s, it).buckets[it.index], k))
  }

  ghost predicate Less(a: (int, nat, nat), b: (int, nat, nat))
  {
    a.0 < b.0 || (a.0 == b.0 && (a.1 < b.1 || (a.1 == b.1 && a.2 < b.2)))
  }

  /** The measure of the loop of dictNext. */
  function Turns(s: State, it: Iter): (int, nat, nat)
  {
    (1 - it.table, BucketsLeft(s, it), if it.entry == None then 0 else 2)
  }

  /** One turn of the loop, unfolded. */
  lemma AdvanceTurn(s: State, it: Iter)
    requires ItOk(s, it) && (s.Rehashing() ==> s.ht1.buckets != [])
    ensures AtEnd(s, it) ==> Advance(s, it) == it.(index := it.index + 1)
    ensures !AtEnd(s, it) ==>
      var m := MoveOn(s, it);
      && 0 <= m.index < |Current(s, m).buckets| && it.table <= m.table <= 1
      && (match m.entry
          case None => ItOk(s, m) && Advance(s, it) == Advance(s, m) && Less(Turns(s, m), Turns(s, it))
          case Some(k) => Advance(s, it) == m.(nextEntry := Successor(Current(s, m).buckets[m.index], k)))
  {
  }

  /** dictNext: the first call of a safe iterator freezes migration. */
  function Next(s: State, it: Iter): (State, Iter)
    requires ItOk(s, it) && (s.Rehashing() ==> s.ht1.buckets != [])
  {
    var t := if it.index == -1 && it.table == 0 then s.(iterators := s.iterators + 1) else s;
    (t, Advance(t, it))
  }

  // ----- what is still to come -----

  /** Key `k` will be returned if the dictionary is left alone. */
  ghost predicate Ahead(h: Hash, s: State, it: Iter, k: Key)
  {
    || (it.table == 0 && s.Rehashing() && TableGet(h, s.ht1, k) != None)
    || AheadHere(h, Current(s, it), it.index, Pending(s, it), k)
  }

  ghost predicate AheadHere(h: Hash, t: Table, index: int, pending: Chain, k: Key)
  {
    && TableGet(h, t, k) != None
    && (Slot(h, k, |t.buckets|) > index || (Slot(h, k, |t.buckets|) == index && Get(pending, k) != None))
  }

  lemma {:induction false} SuffixSplit(c: Chain, k: Key, x: Key)
    requires Distinct(c) && Get(c, k) != None
    ensures var f := Suffix(c, Some(k)); var n := Successor(c, k);
      && f != [] && f[0].key == k && |Suffix(c, n)| == |f| - 1
      && n != Some(k) && (n != None ==> Get(c, n.value) != None)
      && ((Get(Suffix(c, n), x) != None) <==> (Get(f, x) != None && x != k))
  {
    if c[0].key == k {
      if |c| > 1 { SuffixHead(c); }
    } else {
      SuffixSplit(c[1..], k, x);
      var n := Successor(c, k);
      if n != None {
        GetMember(c[1..], n.value);
      }
    }
  }

  lemma SuffixHead(c: Chain)
    requires Distinct(c) && |c| > 1
    ensures c[1].key != c[0].key && Suffix(c, Some(c[1].key)) == c[1..]
  {
    assert Get(c[1..], c[1].key) != None;
  }

  lemma SuffixOfHead(c: Chain)
    ensures Suffix(c, HeadKey(c)) == c
  {
  }

  /** As Ahead, counting the entry the iterator is about to stop at. */
  ghost predicate AheadAt(h: Hash, s: State, it: Iter, k: Key)
    requires 0 <= it.index < |Current(s, it).buckets|
  {
    || (it.table == 0 && s.Rehashing() && TableGet(h, s.ht1, k) != None)
    || AheadHere(h, Current(s, it), it.index, Suffix(Current(s, it).buckets[it.index], it.entry), k)
  }

  /** The keys still to come. */
  ghost function Coming(h: Hash, s: State, it: Iter): iset<Key> { iset x | Ahead(h, s, it, x) }

  ghost function ComingAt(h: Hash, s: State, it: Iter): iset<Key>
    requires 0 <= it.index < |Current(s, it).buckets|
  {
    iset x | AheadAt(h, s, it, x)
  }

  /** The outcome of a move from a state in which exactly the keys in `ahead` were to come. */
  ghost predicate Moved(h: Hash, s: State, r: Iter, ahead: iset<Key>)
  {
    && ItOk(s, r)
    && (r.entry == None ==> ahead == iset{} == Coming(h, s, r))
    && (r.entry != None ==>
          && r.entry.value in ahead && Lookup(h, s, r.entry.value) != None
          && Coming(h, s, r) == ahead - iset{r.entry.value})
  }

  /** The current table at the iterator satisfies its invariant. */
  lemma CurrentOk(h: Hash, s: State, it: Iter)
    requires Valid(h, s) && (it.table == 0 || it.table == 1)
    ensures TableOk(h, Current(s, it)) && (s.Rehashing() ==> s.ht1.buckets != [])
    ensures forall k :: TableGet(h, Current(s, it), k) != None ==> Lookup(h, s, k) != None
    ensures it.table == 0 ==> forall k :: TableGet(h, Current(s, it), k) != None ==> TableGet(h, s.ht1, k) == None
  {
  }

  lemma {:induction false} LandMoves(h: Hash, s: State, it: Iter)
    requires Valid(h, s)
    requires (it.table == 0 || (it.table == 1 && s.Rehashing())) && 0 <= it.index < |Current(s, it).buckets|
    requires s.Rehashing() ==> s.ht1.buckets != []
    requires it.entry != None ==> Get(Current(s, it).buckets[it.index], it.entry.value) != None
    ensures Moved(h, s, Land(s, it), ComingAt(h, s, it))
    decreases 1 - it.table, BucketsLeft(s, it), 1
  {
    hide Valid, TableOk, TableGet;
    match it.entry
    case None =>
      AdvanceMoves(h, s, it);
      assert ComingAt(h, s, it) == Coming(h, s, it);
    case Some(k) =>
      CurrentOk(h, s, it);
      var t := Current(s, it);
      BucketHolds(h, t, it.index);
      var c := t.buckets[it.index];
      forall x ensures (Get(Suffix(c, Successor(c, k)), x) != None)
        <==> (Get(Suffix(c, Some(k)), x) != None && x != k) {
        SuffixSplit(c, k, x);
      }
      SuffixSplit(c, k, k);
      SlotOf(h, t, it.index, k);
  }

  lemma SlotOf(h: Hash, t: Table, i: nat, k: Key)
    requires TableOk(h, t) && i < |t.buckets| && Get(t.buckets[i], k) != None
    ensures Slot(h, k, |t.buckets|) == i && TableGet(h, t, k) != None
  {
    GetMember(t.buckets[i], k);
  }

  lemma {:induction false} AdvanceMoves(h: Hash, s: State, it: Iter)
    requires Valid(h, s) && ItOk(s, it) && (s.Rehashing() ==> s.ht1.buckets != [])
    ensures Moved(h, s, Advance(s, it), Coming(h, s, it))
    decreases 1 - it.table, BucketsLeft(s, it), if it.entry == None then 0 else 2
  {
    hide Moved, Valid, Coming, ComingAt;
    if it.entry != None {
      AtIsAhead(h, s, it);
      LandMoves(h, s, it.(entry := it.nextEntry));
    } else if it.index + 1 < |Current(s, it).buckets| {
      EnterIsAhead(h, s, it);
      LandMoves(h, s, it.(index := it.index + 1, entry := HeadKey(Current(s, it).buckets[it.index + 1])));
    } else if s.Rehashing() && it.table == 0 {
      CrossIsAhead(h, s, it);
      LandMoves(h, s, Iter(1, 0, HeadKey(s.ht1.buckets[0]), it.nextEntry));
    } else {
      NothingAhead(h, s, it);
    }
  }

  /** Following nextEntry inside the bucket. */
  lemma AtIsAhead(h: Hash, s: State, it: Iter)
    requires ItOk(s, it) && it.entry != None
    ensures ComingAt(h, s, it.(entry := it.nextEntry)) == Coming(h, s, it)
  {
    hide TableGet, AheadHere;
    assert forall x :: AheadAt(h, s, it.(entry := it.nextEntry), x) <==> Ahead(h, s, it, x);
  }

  /** On to the next bucket of the same table. */
  lemma EnterIsAhead(h: Hash, s: State, it: Iter)
    requires ItOk(s, it) && it.entry == None && it.index + 1 < |Current(s, it).buckets|
    ensures var b := Current(s, it).buckets[it.index + 1];
      ComingAt(h, s, it.(index := it.index + 1, entry := HeadKey(b))) == Coming(h, s, it)
  {
    var next := it.(index := it.index + 1, entry := HeadKey(Current(s, it).buckets[it.index + 1]));
    SuffixOfHead(Current(s, it).buckets[it.index + 1]);
    assert forall x :: AheadAt(h, s, next, x) <==> Ahead(h, s, it, x);
  }

  /** From the end of the old table to the start of the new one. */
  lemma CrossIsAhead(h: Hash, s: State, it: Iter)
    requires it.entry == None && it.table == 0 && it.index + 1 >= |s.ht0.buckets|
    requires s.Rehashing() && s.ht1.buckets != []
    ensures ComingAt(h, s, Iter(1, 0, HeadKey(s.ht1.buckets[0]), it.nextEntry)) == Coming(h, s, it)
  {
    var next := Iter(1, 0, HeadKey(s.ht1.buckets[0]), it.nextEntry);
    SuffixOfHead(s.ht1.buckets[0]);
    assert forall x :: AheadAt(h, s, next, x) <==> Ahead(h, s, it, x);
  }

  lemma NothingAhead(h: Hash, s: State, it: Iter)
    requires ItOk(s, it) && it.entry == None && it.index + 1 >= |Current(s, it).buckets|
    requires !(s.Rehashing() && it.table == 0)
    ensures Moved(h, s, it.(index := it.index + 1), Coming(h, s, it))
  {
  }

  // ----- progress -----

  /** Shrinks, first to last: tables left, buckets left in the table, entries left in the bucket. */
  function Left(s: State, it: Iter): (int, nat, nat) { (1 - it.table, BucketsLeft(s, it), |Pending(s, it)|) }

  lemma {:induction false} LandShrinks(h: Hash, s: State, it: Iter)
    requires Valid(h, s)
    requires (it.table == 0 || (it.table == 1 && s.Rehashing())) && 0 <= it.index < |Current(s, it).buckets|
    requires s.Rehashing() ==> s.ht1.buckets != []
    requires it.entry != None ==> Get(Current(s, it).buckets[it.index], it.entry.value) != None
    ensures var r := Land(s, it);
      r.entry != None ==>
        Less(Left(s, r), (1 - it.table, BucketsLeft(s, it), |Suffix(Current(s, it).buckets[it.index], it.entry)|))
    decreases 1 - it.table, BucketsLeft(s, it), 1
  {
    match it.entry
    case None => AdvanceShrinks(h, s, it);
    case Some(k) =>
      CurrentOk(h, s, it);
      hide Valid, TableOk;
      BucketHolds(h, Current(s, it), it.index);
      SuffixSplit(Current(s, it).buckets[it.index], k, k);
  }

  /** Every entry returned brings the end of the iteration closer. */
  lemma {:induction false} AdvanceShrinks(h: Hash, s: State, it: Iter)
    requires Valid(h, s) && ItOk(s, it) && (s.Rehashing() ==> s.ht1.buckets != [])
    ensures Advance(s, it).entry != None ==> Less(Left(s, Advance(s, it)), Left(s, it))
    decreases 1 - it.table, BucketsLeft(s, it), if it.entry == None then 0 else 2
  {
    hide Valid;
    if it.entry != None {
      LandShrinks(h, s, it.(entry := it.nextEntry));
    } else if it.index + 1 < |Current(s, it).buckets| {
      SuffixOfHead(Current(s, it).buckets[it.index + 1]);
      LandShrinks(h, s, it.(index := it.index + 1, entry := HeadKey(Current(s, it).buckets[it.index + 1])));
    } else if s.Rehashing() && it.table == 0 {
      SuffixOfHead(s.ht1.buckets[0]);
      LandShrinks(h, s, Iter(1, 0, HeadKey(s.ht1.buckets[0]), it.nextEntry));
    }
  }

  // ----- operations while the iterator is open -----

  /** From `s` to `t` nothing changed for the iterator, except perhaps what concerns `k`. */
  ghost predicate Undisturbed(h: Hash, s: State, t: State, it: Iter, k: Key)
  {
    && ItOk(t, it)
    && |Current(t, it).buckets| == |Current(s, it).buckets|
    && |Pending(t, it)| <= |Pending(s, it)|
    && forall x :: x != k ==> (Ahead(h, t, it, x) <==> Ahead(h, s, it, x))
  }

  lemma GrowthUndisturbing(h: Hash, s: State, it: Iter, canResize: bool)
    requires Valid(h, s) && ItOk(s, it) && s.ht0.buckets != []
    ensures ExpandIfNeeded(s, canResize).Some?
    ensures var t := ExpandIfNeeded(s, canResize).value;
      && ItOk(t, it) && Current(t, it).buckets == Current(s, it).buckets && Pending(t, it) == Pending(s, it)
      && forall x :: Ahead(h, t, it, x) <==> Ahead(h, s, it, x)
  {
    ExpandKeeps(h, s, canResize);
    FreshOk(h, (if |s.ht0.buckets| > s.ht0.used then |s.ht0.buckets| else s.ht0.used) * 2);
    hide TableOk, TableGet, NextPower;
  }

  lemma SuffixPush(c: Chain, e: Entry, n: Option<Key>)
    requires n != Some(e.key)
    ensures Suffix([e] + c, n) == Suffix(c, n)
  {
    assert ([e] + c)[1..] == c;
  }

  /** A push at the head of a bucket is behind an iterator that is inside that bucket. */
  lemma PushHere(h: Hash, t: Table, e: Entry, index: int, n: Option<Key>, inside: bool)
    requires t.buckets != [] && TableOk(h, t) && TableGet(h, t, e.key) == None
    requires inside ==> 0 <= index < |t.buckets| && (n != None ==> Get(t.buckets[index], n.value) != None)
    ensures var u := Push(h, t, e);
      && |u.buckets| == |t.buckets|
      && (inside ==> Suffix(u.buckets[index], n) == Suffix(t.buckets[index], n))
      && (inside && n != None ==> Get(u.buckets[index], n.value) != None)
      && forall x :: x != e.key ==> TableGet(h, u, x) == TableGet(h, t, x)
  {
    PushOk(h, t, e);
    if inside {
      if n != None { SlotOf(h, t, index, n.value); }
      SuffixPush(t.buckets[index], e, n);
    }
  }

  lemma InsertUndisturbing(h: Hash, s: State, it: Iter, e: Entry)
    requires Valid(h, s) && ItOk(s, it) && s.ht0.buckets != [] && Lookup(h, s, e.key) == None
    ensures Undisturbed(h, s, Insert(h, s, e), it, e.key)
  {
    var t := if s.Rehashing() then s.ht1 else s.ht0;
    var here := s.Rehashing() == (it.table == 1);
    PushHere(h, t, e, if here then it.index else 0, if here then it.nextEntry else None, here && it.entry != None);
    hide TableOk, TableGet, Push;
  }

  lemma {:induction false} SuffixAssign(c: Chain, k: Key, v: Val, n: Option<Key>, x: Key)
    ensures |Suffix(Assign(c, k, v), n)| == |Suffix(c, n)|
    ensures Get(Suffix(Assign(c, k, v), n), x) != None <==> Get(Suffix(c, n), x) != None
  {
    if c != [] && n != None && c[0].key != n.value {
      SuffixAssign(c[1..], k, v, n, x);
    } else if c != [] && n != None {
      GetAssign(c, k, v, x);
    }
  }

  lemma {:induction false} SuffixUnlink(c: Chain, k: Key, n: Option<Key>, x: Key)
    requires Distinct(c) && n != Some(k)
    ensures |Suffix(Unlink(c, k), n)| <= |Suffix(c, n)|
    ensures x != k ==> (Get(Suffix(Unlink(c, k), n), x) != None <==> Get(Suffix(c, n), x) != None)
  {
    if c != [] && n != None {
      if c[0].key == n.value {
        GetUnlink(c, k, x);
      } else {
        SuffixUnlink(c[1..], k, n, x);
      }
    }
  }

  /** `c'` in place of `c` looks the same to an iterator whose next entry is `n`, save for `k`. */
  ghost predicate SameAhead(c: Chain, c': Chain, n: Option<Key>, k: Key)
  {
    && (n != None && Get(c, n.value) != None ==> Get(c', n.value) != None)
    && |Suffix(c', n)| <= |Suffix(c, n)|
    && forall x :: x != k ==> (Get(Suffix(c', n), x) != None <==> Get(Suffix(c, n), x) != None)
  }

  lemma AssignSameAhead(c: Chain, k: Key, v: Val, n: Option<Key>, j: Key)
    ensures SameAhead(c, Assign(c, k, v), n, j)
  {
    forall x ensures |Suffix(Assign(c, k, v), n)| == |Suffix(c, n)|
      && (Get(Suffix(Assign(c, k, v), n), x) != None <==> Get(Suffix(c, n), x) != None)
    {
      SuffixAssign(c, k, v, n, x);
    }
    if n != None { GetAssign(c, k, v, n.value); }
  }

  lemma UnlinkSameAhead(c: Chain, k: Key, n: Option<Key>)
    requires Distinct(c) && n != Some(k)
    ensures SameAhead(c, Unlink(c, k), n, k)
  {
    forall x ensures |Suffix(Unlink(c, k), n)| <= |Suffix(c, n)|
      && (x != k ==> (Get(Suffix(Unlink(c, k), n), x) != None <==> Get(Suffix(c, n), x) != None))
    {
      SuffixUnlink(c, k, n, x);
    }
    if n != None { GetUnlink(c, k, n.value); }
  }

  ghost predicate SameKeys(h: Hash, t: Table, u: Table, k: Key)
  {
    forall x :: x != k ==> (TableGet(h, u, x) != None <==> TableGet(h, t, x) != None)
  }

  /** Replacing bucket `b` of the current table by one with the same keys, save perhaps `k`. */
  lemma BucketChanged(h: Hash, s: State, t: State, it: Iter, b: nat, c: Chain, k: Key)
    requires ItOk(s, it) && t.Rehashing() == s.Rehashing() && b < |Current(s, it).buckets|
    requires Current(t, it).buckets == Current(s, it).buckets[b := c]
    requires SameKeys(h, s.ht1, t.ht1, k) && SameKeys(h, Current(s, it), Current(t, it), k)
    requires SameAhead(Current(s, it).buckets[b], c, it.nextEntry, k)
    ensures Undisturbed(h, s, t, it, k)
  {
    hide TableGet;
  }

  /** A change to the table the iterator is not in. */
  lemma OtherChanged(h: Hash, s: State, t: State, it: Iter, k: Key)
    requires ItOk(s, it) && t.Rehashing() == s.Rehashing()
    requires Current(t, it) == Current(s, it) && SameKeys(h, s.ht1, t.ht1, k)
    ensures Undisturbed(h, s, t, it, k)
  {
    hide TableGet;
  }

  /** A new value disturbs nothing: no key needs to be excepted, and `j` may be any. */
  lemma SetValueUndisturbing(h: Hash, s: State, it: Iter, k: Key, v: Val, j: Key)
    requires Valid(h, s) && ItOk(s, it) && Lookup(h, s, k) != None
    ensures Undisturbed(h, s, SetValue(h, s, k, v), it, j)
  {
    var inOld := TableGet(h, s.ht0, k) != None;
    var t := if inOld then s.ht0 else s.ht1;
    UpdateOk(h, t, k, v);
    assert SameKeys(h, t, Update(h, t, k, v), j);
    hide TableGet, Undisturbed, SameAhead, ItOk;
    if inOld == (it.table == 0) {
      var b := Slot(h, k, |t.buckets|);
      AssignSameAhead(t.buckets[b], k, v, it.nextEntry, j);
      BucketChanged(h, s, SetValue(h, s, k, v), it, b, Assign(t.buckets[b], k, v), j);
    } else {
      OtherChanged(h, s, SetValue(h, s, k, v), it, j);
    }
  }

  lemma EraseUndisturbing(h: Hash, s: State, it: Iter, k: Key)
    requires Valid(h, s) && ItOk(s, it) && Lookup(h, s, k) != None && it.entry == Some(k)
    ensures Undisturbed(h, s, Erase(h, s, k), it, k)
  {
    var inOld := TableGet(h, s.ht0, k) != None;
    var t := if inOld then s.ht0 else s.ht1;
    RemoveOk(h, t, k);
    assert SameKeys(h, t, Remove(h, t, k), k);
    hide TableGet, Undisturbed, SameAhead;
    if inOld == (it.table == 0) {
      var b := Slot(h, k, |t.buckets|);
      BucketHolds(h, t, b);
      UnlinkSameAhead(t.buckets[b], k, it.nextEntry);
      BucketChanged(h, s, Erase(h, s, k), it, b, Unlink(t.buckets[b], k), k);
    } else {
      OtherChanged(h, s, Erase(h, s, k), it, k);
    }
  }

  /** What the client may do between two calls of dictNext. */
  datatype Act =
    | ActAdd(k: Key, v: Val, canResize: bool)
    | ActReplace(k: Key, v: Val, canResize: bool)
    | ActFind(k: Key)
    | DeleteLast

  function Perform(h: Hash, s: State, last: Key, a: Act): State
    requires Valid(h, s)
  {
    match a
    case ActAdd(k, v, r) => Add(h, s, k, v, r).0
    case ActReplace(k, v, r) => Replace(h, s, k, v, r).0
    case ActFind(k) => Find(h, s, k).0
    case DeleteLast => Delete(h, s, last).0
  }

  /** What must still be true when the client hands back control: the keys that are neither new
      nor the one it may delete are where they were, to the iterator. */
  ghost predicate Kept(h: Hash, s: State, t: State, it: Iter, x: Key)
  {
    && Valid(h, t) && t.iterators == s.iterators && t.ht0.buckets != []
    && ItOk(t, it) && |Current(t, it).buckets| == |Current(s, it).buckets| && |Pending(t, it)| <= |Pending(s, it)|
    && (Lookup(h, s, x) != None ==> Lookup(h, t, x) != None && (Ahead(h, t, it, x) <==> Ahead(h, s, it, x)))
  }

  ghost predicate Open(h: Hash, s: State, it: Iter)
  {
    Valid(h, s) && ItOk(s, it) && s.iterators > 0 && s.ht0.buckets != [] && it.entry != None
  }

  lemma AddKept(h: Hash, s: State, it: Iter, k: Key, v: Val, canResize: bool, x: Key)
    requires Open(h, s, it)
    ensures Kept(h, s, Add(h, s, k, v, canResize).0, it, x)
  {
    hide Valid, Lookup, Ahead, Pending, Current, ItOk;
    AddDenotes(h, s, k, v, canResize);
    GrowthUndisturbing(h, s, it, canResize);
    ExpandKeeps(h, s, canResize);
    var t := ExpandIfNeeded(s, canResize).value;
    hide ExpandIfNeeded;
    if Lookup(h, t, k) == None {
      InsertUndisturbing(h, t, it, Entry(k, v));
      hide Push;
    }
  }

  lemma SetValueKept(h: Hash, s: State, it: Iter, k: Key, v: Val, x: Key)
    requires Open(h, s, it) && Lookup(h, s, k) != None
    ensures Kept(h, s, SetValue(h, s, k, v), it, x)
  {
    SetValueDenotes(h, s, k, v);
    SetValueUndisturbing(h, s, it, k, v, x + [0]);
    hide Valid, Lookup, Ahead, Pending, ItOk;
    assert x != x + [0];
  }

  lemma DeleteKept(h: Hash, s: State, it: Iter, x: Key)
    requires Open(h, s, it) && it.entry != Some(x)
    ensures Kept(h, s, Delete(h, s, it.entry.value).0, it, x)
  {
    var k := it.entry.value;
    DeleteDenotes(h, s, k);
    if Lookup(h, s, k) != None {
      EraseUndisturbing(h, s, it, k);
    }
    hide Valid, Lookup, Ahead, Pending, ItOk, Current;
  }

  lemma PerformKept(h: Hash, s: State, it: Iter, a: Act, x: Key)
    requires Open(h, s, it) && (a.DeleteLast? ==> it.entry != Some(x))
    ensures Kept(h, s, Perform(h, s, it.entry.value, a), it, x)
  {
    match a
    case ActAdd(k, v, r) => AddKept(h, s, it, k, v, r, x);
    case ActReplace(k, v, r) =>
      hide Valid, Lookup, Ahead, Pending, ItOk, Current;
      AddKept(h, s, it, k, v, r, x);
      AddDenotes(h, s, k, v, r);
      var t := Add(h, s, k, v, r).0;
      if Lookup(h, s, k) != None { SetValueKept(h, t, it, k, v, x); }
    case ActFind(k) => FindDenotes(h, s, k);
    case DeleteLast => DeleteKept(h, s, it, x);
  }

  // ----- whole iterations -----

  /** The state can still be iterated from `it`, no further from the end than `s` was. */
  ghost predicate StaysOpen(h: Hash, s: State, t: State, it: Iter)
  {
    && Open(h, t, it) && t.iterators == s.iterators
    && |Current(t, it).buckets| == |Current(s, it).buckets| && |Pending(t, it)| <= |Pending(s, it)|
  }

  lemma PerformStaysOpen(h: Hash, s: State, it: Iter, a: Act)
    requires Open(h, s, it)
    ensures StaysOpen(h, s, Perform(h, s, it.entry.value, a), it)
  {
    var other := it.entry.value + [0];
    assert other != it.entry.value;
    PerformKept(h, s, it, a, other);
    hide Valid, Lookup, Ahead, Pending, ItOk, Current, Perform;
  }

  function PerformAll(h: Hash, s: State, it: Iter, acts: seq<Act>): (t: State)
    requires Open(h, s, it)
    ensures StaysOpen(h, s, t, it)
    decreases |acts|
  {
    if acts == [] then s
    else
      PerformStaysOpen(h, s, it, acts[0]);
      PerformAll(h, Perform(h, s, it.entry.value, acts[0]), it, acts[1..])
  }

  /** Everything the client may decide: what it does next as a function of the keys returned. */
  type Client = seq<Key> -> seq<Act>

  /** What one whole iteration leaves: the state, the keys returned, the keys deleted. */
  datatype Trace = Trace(s: State, returned: seq<Key>, deleted: set<Key>)

  lemma AdvanceOpens(h: Hash, s: State, it: Iter)
    requires Valid(h, s) && ItOk(s, it) && s.iterators > 0 && Advance(s, it).entry != None
    requires s.Rehashing() ==> s.ht1.buckets != []
    ensures Open(h, s, Advance(s, it)) && Less(Left(s, Advance(s, it)), Left(s, it))
  {
    AdvanceMoves(h, s, it);
    AdvanceShrinks(h, s, it);
  }

  /** dictNext until it returns NULL, the client acting in between. The definition is total: the
      iteration ends whatever the client adds. */
  function Iterate(h: Hash, s: State, it: Iter, client: Client, history: seq<Key>): Trace
    requires Valid(h, s) && ItOk(s, it) && s.iterators > 0
    decreases 1 - it.table, BucketsLeft(s, it), |Pending(s, it)|
  {
    var r := Advance(s, it);
    if r.entry == None then Trace(s, [], {})
    else
      AdvanceOpens(h, s, it);
      var k := r.entry.value;
      var acts := client(history + [k]);
      var t := PerformAll(h, s, r, acts);
      var rest := Iterate(h, t, r, client, history + [k]);
      Trace(rest.s, [k] + rest.returned, (if DeleteLast in acts then {k} else {}) + rest.deleted)
  }

  lemma {:induction false} PerformAllKept(h: Hash, s: State, it: Iter, acts: seq<Act>, x: Key)
    requires Open(h, s, it) && (DeleteLast in acts ==> it.entry != Some(x))
    ensures Kept(h, s, PerformAll(h, s, it, acts), it, x)
    decreases |acts|
  {
    hide Valid, Lookup, Ahead, Pending, ItOk, Current, Perform;
    if acts != [] {
      PerformStaysOpen(h, s, it, acts[0]);
      PerformKept(h, s, it, acts[0], x);
      PerformAllKept(h, Perform(h, s, it.entry.value, acts[0]), it, acts[1..], x);
    }
  }

  function Occurrences(ks: seq<Key>, k: Key): nat { multiset(ks)[k] }

  /** dictNext seen from one key. */
  lemma AdvanceSees(h: Hash, s: State, it: Iter, x: Key)
    requires Valid(h, s) && ItOk(s, it) && s.iterators > 0
    ensures var r := Advance(s, it);
      if r.entry == None then !Ahead(h, s, it, x)
      else
        && Open(h, s, r) && Lookup(h, s, r.entry.value) != None && Ahead(h, s, it, r.entry.value)
        && (Ahead(h, s, r, x) <==> Ahead(h, s, it, x) && x != r.entry.value)
  {
    AdvanceMoves(h, s, it);
    var r := Advance(s, it);
    if r.entry == None {
      assert x !in Coming(h, s, it);
    } else {
      AdvanceOpens(h, s, it);
      assert x in Coming(h, s, r) <==> Ahead(h, s, r, x);
    }
  }

  /** How often a key that is not deleted is still returned: once if it is ahead, never if it is
      behind, at most once if it is not there yet. */
  ghost predicate Counted(h: Hash, s: State, it: Iter, tr: Trace, x: Key)
  {
    x !in tr.deleted ==>
      && Occurrences(tr.returned, x) <= 1
      && (Ahead(h, s, it, x) ==> Occurrences(tr.returned, x) == 1)
      && (Lookup(h, s, x) != None && !Ahead(h, s, it, x) ==> Occurrences(tr.returned, x) == 0)
  }

  lemma {:induction false} IterateCounts(h: Hash, s: State, it: Iter, client: Client, history: seq<Key>, x: Key)
    requires Valid(h, s) && ItOk(s, it) && s.iterators > 0
    ensures Counted(h, s, it, Iterate(h, s, it, client, history), x)
    decreases 1 - it.table, BucketsLeft(s, it), |Pending(s, it)|
  {
    AdvanceSees(h, s, it, x);
    var r := Advance(s, it);
    if r.entry != None {
      AdvanceOpens(h, s, it);
      hide Valid, Lookup, Ahead, ItOk, Advance, PerformAll;
      var k := r.entry.value;
      var acts := client(history + [k]);
      var t := PerformAll(h, s, r, acts);
      IterateCounts(h, t, r, client, history + [k], x);
      if DeleteLast !in acts || x != k { PerformAllKept(h, s, r, acts, x); }
    }
  }

  /** At its first call everything in the dictionary is ahead of the iterator. */
  lemma AllAhead(h: Hash, s: State, x: Key)
    requires Valid(h, s)
    ensures Ahead(h, s, START, x) <==> Lookup(h, s, x) != None
  {
  }

  /** The guarantee of a safe iterator, for every dictionary, every table layout (a migration may
      be under way or be started by an add), and every client that adds, replaces and finds at
      will and deletes only the entry just returned: each key present at the first call and not
      deleted is returned exactly once, and no other undeleted key is returned twice. */
  lemma SafeIteration(h: Hash, s: State, client: Client, x: Key)
    requires Valid(h, s)
    ensures var tr := Iterate(h, s.(iterators := s.iterators + 1), START, client, []);
      x !in tr.deleted ==>
        && Occurrences(tr.returned, x) <= 1
        && (Lookup(h, s, x) != None ==> Occurrences(tr.returned, x) == 1)
  {
    var t := s.(iterators := s.iterators + 1);
    AllAhead(h, t, x);
    IterateCounts(h, t, START, client, [], x);
  }
}
