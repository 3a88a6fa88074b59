/** dict.c as it runs: fields updated step by step, loops over buckets and lists. Each method is
    tied to the state functions that the other dictionary modules prove things about. */
module Dict {
  import opened Bytes
  import opened DictModel
  import opened DictRuns
  import opened DictIterator

  class Dictionary {
    const hash: Hash
    var ht0: Table
    var ht1: Table
    var rehashidx: int
    var iterators: int

    constructor (h: Hash)
      ensures hash == h && Value() == EMPTY && Valid(hash, Value())
    {
      hash := h;
      ht0, ht1, rehashidx, iterators := NO_TABLE, NO_TABLE, -1, 0;
    }

    /** The fields as one value. */
    function Value(): State
      reads this
    {
      State(ht0, ht1, rehashidx, iterators)
    }

    ghost predicate Ok()
      reads this
    {
      Valid(hash, Value())
    }

    /** Finds the next bucket that has entries. */
    method ScanForBusy()
      requires Ok() && Value().Rehashing() && ht0.used != 0
      modifies this`rehashidx
      ensures exists k :: old(rehashidx) <= k < |ht0.buckets| && ht0.buckets[k] != []
      ensures rehashidx == FirstBusy(ht0.buckets, old(rehashidx))
    {
      CountZero(ht0.buckets);
      while ht0.buckets[rehashidx] == []
        invariant old(rehashidx) <= rehashidx < |ht0.buckets|
        invariant exists k :: rehashidx <= k < |ht0.buckets| && ht0.buckets[k] != []
        invariant FirstBusy(ht0.buckets, rehashidx) == FirstBusy(ht0.buckets, old(rehashidx))
        decreases |ht0.buckets| - rehashidx
      {
        rehashidx := rehashidx + 1;
      }
    }

    /** Relinks every entry of bucket rehashidx into the new table. */
    method MoveEntries()
      requires 0 <= rehashidx < |ht0.buckets| && ht1.buckets != []
      modifies this`ht0, this`ht1, this`rehashidx
      ensures Value() == MoveBucket(hash, old(Value()), old(rehashidx))
    {
      var de := ht0.buckets[rehashidx];
      ghost var c, b, used, t := de, ht0.buckets, ht0.used, ht1;
      while de != []
        invariant rehashidx == old(rehashidx) && iterators == old(iterators)
        invariant |de| <= |c| && ht1.buckets != [] && ht0 == Table(b, used - |c| + |de|)
        invariant MoveChain(hash, de, ht1) == MoveChain(hash, c, t)
      {
        var slot := Slot(hash, de[0].key, |ht1.buckets|);
        ht1 := Table(ht1.buckets[slot := [de[0]] + ht1.buckets[slot]], ht1.used + 1);
        ht0 := Table(ht0.buckets, ht0.used - 1);
        de := de[1..];
      }
      ht0 := Table(ht0.buckets[rehashidx := []], ht0.used);
      rehashidx := rehashidx + 1;
    }

    /** One turn of the loop of dictRehash. */
    method Turn()
      requires Ok() && Value().Rehashing()
      modifies this
      ensures Value() == RehashStep(hash, old(Value())) && Ok()
    {
      RehashStepKeeps(hash, Value());
      if ht0.used == 0 {
        ht0, ht1, rehashidx := ht1, NO_TABLE, -1;
      } else {
        ScanForBusy();
        MoveEntries();
      }
    }

    /** dictRehash: up to n steps; true while there is more to do. */
    method Rehash(n: nat) returns (more: bool)
      requires Ok()
      modifies this
      ensures Ok() && Value() == Steps(hash, old(Value()), n)
      ensures more == Value().Rehashing()
    {
      if rehashidx == -1 { return false; }
      var left := n;
      hide Valid, RehashStep;
      while left > 0
        invariant 0 <= left && Ok() && Value().Rehashing()
        invariant Steps(hash, Value(), left) == Steps(hash, old(Value()), n)
      {
        Turn();
        left := left - 1;
        if rehashidx == -1 { return false; }
      }
      return true;
    }

    /** _dictRehashStep. */
    method OneStep()
      requires Ok() && Value().Rehashing()
      modifies this
      ensures Ok() && Value() == MaybeStep(hash, old(Value()))
    {
      if iterators == 0 {
        hide Valid, RehashStep;
        var _ := Rehash(1);
      }
    }

    /** dictExpand: true when the new table was set up. */
    method ExpandTo(size: nat) returns (ok: bool)
      modifies this
      ensures ok == Expand(old(Value()), size).Some?
      ensures Value() == if ok then Expand(old(Value()), size).value else old(Value())
    {
      var realsize := NextPowerLoop(size);
      if rehashidx != -1 || ht0.used > size { return false; }
      var n := Table(seq(realsize, _ => []), 0);
      assert n == Fresh(NextPower(size));
      if ht0.buckets == [] {
        ht0 := n;
      } else {
        ht1, rehashidx := n, 0;
      }
      return true;
    }

    /** _dictExpandIfNeeded. */
    method ExpandIfFull(canResize: bool) returns (ok: bool)
      requires Ok()
      modifies this
      ensures ok && Ok() && Value() == ExpandIfNeeded(old(Value()), canResize).value
    {
      ExpandKeeps(hash, Value(), canResize);
      if rehashidx != -1 { return true; }
      if |ht0.buckets| == 0 {
        ok := ExpandTo(INITIAL_SIZE);
      } else if ht0.used >= |ht0.buckets| && (canResize || ht0.used / |ht0.buckets| > FORCE_RESIZE_RATIO) {
        ok := ExpandTo((if |ht0.buckets| > ht0.used then |ht0.buckets| else ht0.used) * 2);
      } else {
        ok := true;
      }
    }

    /** The search both tables share: the value found, looking in the new table only while a
        migration is under way. */
    method Search(k: Key) returns (v: Option<Val>)
      requires Ok() && ht0.buckets != []
      ensures v == Lookup(hash, Value(), k)
    {
      v := SearchChain(ht0.buckets[Slot(hash, k, |ht0.buckets|)], k);
      if v == None && rehashidx != -1 {
        v := SearchChain(ht1.buckets[Slot(hash, k, |ht1.buckets|)], k);
      }
    }

    /** dictAdd: false when the key is already there. */
    method Put(k: Key, v: Val, canResize: bool) returns (added: bool)
      requires Ok()
      modifies this
      ensures Ok() && (Value(), added) == Add(hash, old(Value()), k, v, canResize)
    {
      hide Valid, Lookup, RehashStep, ExpandIfNeeded;
      MaybeStepKeeps(hash, Value());
      AddDenotes(hash, Value(), k, v, canResize);
      if rehashidx != -1 { OneStep(); }
      ExpandKeeps(hash, Value(), canResize);
      var _ := ExpandIfFull(canResize);
      var found := Search(k);
      if found != None { return false; }
      Link(Entry(k, v));
      return true;
    }

    /** Links a new entry at the head of its bucket, in the new table while migrating. */
    method Link(e: Entry)
      requires (if Value().Rehashing() then ht1.buckets else ht0.buckets) != []
      modifies this
      ensures Value() == Insert(hash, old(Value()), e)
    {
      if rehashidx != -1 {
        var i := Slot(hash, e.key, |ht1.buckets|);
        ht1 := Table(ht1.buckets[i := [e] + ht1.buckets[i]], ht1.used + 1);
      } else {
        var i := Slot(hash, e.key, |ht0.buckets|);
        ht0 := Table(ht0.buckets[i := [e] + ht0.buckets[i]], ht0.used + 1);
      }
    }

    /** dictReplace: true when the key is new. */
    method PutOrReplace(k: Key, v: Val, canResize: bool) returns (added: bool)
      requires Ok()
      modifies this
      ensures Ok() && (Value(), added) == Replace(hash, old(Value()), k, v, canResize)
    {
      hide Valid, Lookup, RehashStep, Add;
      ReplaceDenotes(hash, Value(), k, v, canResize);
      AddDenotes(hash, Value(), k, v, canResize);
      added := Put(k, v, canResize);
      if added { return; }
      MaybeStepKeeps(hash, Value());
      if rehashidx != -1 { OneStep(); }
      Overwrite(k, v);
    }

    /** Sets the value of the entry that dictFind returned. */
    method Overwrite(k: Key, v: Val)
      requires Ok() && Lookup(hash, Value(), k) != None
      modifies this
      ensures Value() == SetValue(hash, old(Value()), k, v)
    {
      var i := Slot(hash, k, |ht0.buckets|);
      var found := SearchChain(ht0.buckets[i], k);
      if found != None {
        ht0 := Table(ht0.buckets[i := Assign(ht0.buckets[i], k, v)], ht0.used);
      } else {
        i := Slot(hash, k, |ht1.buckets|);
        ht1 := Table(ht1.buckets[i := Assign(ht1.buckets[i], k, v)], ht1.used);
      }
    }

    /** dictFind. */
    method Fetch(k: Key) returns (v: Option<Val>)
      requires Ok()
      modifies this
      ensures Ok() && (Value(), v) == Find(hash, old(Value()), k)
      ensures v == old(Lookup(hash, Value(), k))
    {
      FindDenotes(hash, Value(), k);
      hide Valid, Lookup, RehashStep;
      if |ht0.buckets| == 0 { return None; }
      MaybeStepKeeps(hash, Value());
      StepKeepsTable(hash, Value());
      if rehashidx != -1 { OneStep(); }
      v := Search(k);
    }

    /** dictDelete: false when the key is not there. */
    method Drop(k: Key) returns (deleted: bool)
      requires Ok()
      modifies this
      ensures Ok() && (Value(), deleted) == Delete(hash, old(Value()), k)
    {
      DeleteDenotes(hash, Value(), k);
      hide Valid, Lookup, RehashStep, Erase;
      if |ht0.buckets| == 0 { return false; }
      MaybeStepKeeps(hash, Value());
      StepKeepsTable(hash, Value());
      if rehashidx != -1 { OneStep(); }
      deleted := UnlinkKey(k);
    }

    method UnlinkKey(k: Key) returns (deleted: bool)
      requires Ok() && ht0.buckets != []
      modifies this
      ensures deleted == (Lookup(hash, old(Value()), k) != None)
      ensures Value() == if deleted then Erase(hash, old(Value()), k) else old(Value())
    {
      var i := Slot(hash, k, |ht0.buckets|);
      var rest;
      deleted, rest := UnlinkFrom(ht0.buckets[i], k);
      if deleted {
        ht0 := Table(ht0.buckets[i := rest], ht0.used - 1);
      } else if rehashidx != -1 {
        i := Slot(hash, k, |ht1.buckets|);
        deleted, rest := UnlinkFrom(ht1.buckets[i], k);
        if deleted { ht1 := Table(ht1.buckets[i := rest], ht1.used - 1); }
      }
    }
  }

  /** A step never takes the last table away. */
  lemma StepKeepsTable(h: Hash, s: State)
    requires Valid(h, s) && s.ht0.buckets != []
    ensures MaybeStep(h, s).ht0.buckets != []
  {
  }

  /** _dictNextPower: the smallest power of two from 4 on that reaches the size. */
  method NextPowerLoop(size: nat) returns (i: nat)
    ensures i == NextPower(size) && PowerOfTwo(i) && INITIAL_SIZE <= i && size <= i
    ensures forall p :: PowerOfTwo(p) && INITIAL_SIZE <= p && size <= p ==> i <= p
  {
    i := INITIAL_SIZE;
    while i < size
      invariant i > 0 && NextPowerFrom(i, size) == NextPower(size)
      decreases size - i
    {
      i := 2 * i;
    }
    assert PowerOfTwo(1) && PowerOfTwo(2) && PowerOfTwo(4);
    NextPowerIsPower(INITIAL_SIZE, size);
    forall p | PowerOfTwo(p) && INITIAL_SIZE <= p && size <= p ensures i <= p {
      NextPowerIsSmallest(INITIAL_SIZE, size, p);
    }
  }

  /** Walks a bucket's list. */
  method SearchChain(c: Chain, k: Key) returns (v: Option<Val>)
    ensures v == Get(c, k)
  {
    var he := c;
    while he != []
      invariant Get(he, k) == Get(c, k)
      decreases |he|
    {
      if he[0].key == k { return Some(he[0].val); }
      he := he[1..];
    }
    return None;
  }

  /** Walks a bucket's list with a trailing pointer and unlinks the entry found. */
  method UnlinkFrom(c: Chain, k: Key) returns (found: bool, r: Chain)
    ensures found == (Get(c, k) != None)
    ensures r == Unlink(c, k)
  {
    var prev, he: Chain := [], c;
    while he != []
      invariant Get(he, k) == Get(c, k)
      invariant Unlink(c, k) == prev + Unlink(he, k)
      decreases |he|
    {
      if he[0].key == k { return true, prev + he[1..]; }
      assert prev + ([he[0]] + Unlink(he[1..], k)) == prev + [he[0]] + Unlink(he[1..], k);
      prev, he := prev + [he[0]], he[1..];
    }
    return false, prev;
  }

  /** The iterator object. */
  class SafeIterator {
    const d: Dictionary
    var table: int
    var index: int
    var entry: Option<Key>
    var nextEntry: Option<Key>

    constructor (dict: Dictionary)
      ensures d == dict && Value() == START
    {
      d := dict;
      table, index, entry, nextEntry := 0, -1, None, None;
    }

    function Value(): Iter
      reads this
    {
      Iter(table, index, entry, nextEntry)
    }

    /** Follows the list, or goes to the next bucket, crossing to the new table at the end of the
        old one; true when there is nowhere to go. */
    method MoveCursor() returns (ended: bool)
      requires ItOk(d.Value(), Value()) && (d.Value().Rehashing() ==> d.ht1.buckets != [])
      modifies this
      ensures ended == AtEnd(d.Value(), old(Value()))
      ensures Value() == if ended then old(Value()).(index := old(index) + 1) else MoveOn(d.Value(), old(Value()))
    {
      ended := false;
      if entry == None {
        index := index + 1;
        var ht := if table == 0 then d.ht0 else d.ht1;
        if index >= |ht.buckets| {
          if d.rehashidx != -1 && table == 0 {
            table, index := 1, 0;
            ht := d.ht1;
          } else {
            return true;
          }
        }
        entry := HeadKey(ht.buckets[index]);
      } else {
        entry := nextEntry;
      }
    }

    /** One turn of the loop of dictNext: true when it leaves the loop. */
    method Turn() returns (done: bool)
      requires ItOk(d.Value(), Value()) && (d.Value().Rehashing() ==> d.ht1.buckets != [])
      modifies this
      ensures done ==> Value() == Advance(d.Value(), old(Value()))
      ensures !done ==> ItOk(d.Value(), Value()) && Advance(d.Value(), Value()) == Advance(d.Value(), old(Value()))
      ensures !done ==> Less(Turns(d.Value(), Value()), Turns(d.Value(), old(Value())))
    {
      AdvanceTurn(d.Value(), Value());
      hide Advance, ItOk, Less, Turns;
      done := MoveCursor();
      if !done && entry != None {
        var ht := if table == 0 then d.ht0 else d.ht1;
        nextEntry := Successor(ht.buckets[index], entry.value);
        done := true;
      }
    }

    /** dictNext: moves until there is an entry to return, and saves its successor. */
    method GetNext() returns (r: Option<Key>)
      requires d.Ok() && ItOk(d.Value(), Value())
      modifies this, d`iterators
      ensures (d.Value(), Value()) == Next(old(d.Value()), old(Value())) && r == entry
    {
      if index == -1 && table == 0 { d.iterators := d.iterators + 1; }
      ghost var s, start := d.Value(), Value();
      assert s.Rehashing() ==> s.ht1.buckets != [];
      hide Valid, Advance, ItOk;
      var done := false;
      while !done
        invariant d.Value() == s
        invariant done ==> Value() == Advance(s, start)
        invariant !done ==> ItOk(s, Value()) && Advance(s, Value()) == Advance(s, start)
        decreases !done, Turns(s, Value()).0, Turns(s, Value()).1, Turns(s, Value()).2
      {
        done := Turn();
      }
      r := entry;
    }

    /** dictReleaseIterator. */
    method Release()
      modifies d`iterators
      ensures d.iterators == old(d.iterators) - if index == -1 && table == 0 then 0 else 1
    {
      if !(index == -1 && table == 0) { d.iterators := d.iterators - 1; }
    }
  }
}
