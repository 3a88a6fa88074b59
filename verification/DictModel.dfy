/** dict.c on values: the two tables, what they denote, and what each operation does to them. */
module DictModel {
  import opened Bytes

  type Key = Bytestring
  type Val = nat
  type Hash = Key -> nat

  datatype Entry = Entry(key: Key, val: Val)

  /** A bucket's linked list, head first. */
  type Chain = seq<Entry>

  /** `used` counts the entries; a table that was never allocated has no buckets. */
  datatype Table = Table(buckets: seq<Chain>, used: int)

  const NO_TABLE := Table([], 0)
  const INITIAL_SIZE := 4
  const FORCE_RESIZE_RATIO := 5

  datatype State = State(ht0: Table, ht1: Table, rehashidx: int, iterators: int)
  {
    predicate Rehashing() { rehashidx != -1 }
  }

  const EMPTY := State(NO_TABLE, NO_TABLE, -1, 0)

  // ----- chains -----

  function Get(c: Chain, k: Key): Option<Val>
  {
    if c == [] then None else if c[0].key == k then Some(c[0].val) else Get(c[1..], k)
  }

  ghost predicate Distinct(c: Chain)
  {
    c == [] || (Get(c[1..], c[0].key) == None && Distinct(c[1..]))
  }

  /** The chain without the entry for `k`. */
  function Unlink(c: Chain, k: Key): (r: Chain)
    ensures |r| == if Get(c, k) == None then |c| else |c| - 1
    ensures forall e :: e in r ==> e in c
  {
    if c == [] then [] else if c[0].key == k then c[1..] else [c[0]] + Unlink(c[1..], k)
  }

  /** The chain with the value for `k` replaced in place. */
  function Assign(c: Chain, k: Key, v: Val): (r: Chain)
    ensures |r| == |c| && forall i :: 0 <= i < |c| ==> r[i].key == c[i].key
  {
    if c == [] then [] else if c[0].key == k then [Entry(k, v)] + c[1..] else [c[0]] + Assign(c[1..], k, v)
  }

  lemma {:induction false} GetUnlink(c: Chain, k: Key, x: Key)
    requires Distinct(c)
    ensures Distinct(Unlink(c, k))
    ensures Get(Unlink(c, k), x) == if x == k then None else Get(c, x)
  {
    if c != [] {
      GetUnlink(c[1..], k, c[0].key);
      GetUnlink(c[1..], k, x);
    }
  }

  lemma {:induction false} GetAssign(c: Chain, k: Key, v: Val, x: Key)
    ensures Distinct(c) ==> Distinct(Assign(c, k, v))
    ensures Get(Assign(c, k, v), x) == if x == k && Get(c, k) != None then Some(v) else Get(c, x)
  {
    if c != [] {
      GetAssign(c[1..], k, v, c[0].key);
      GetAssign(c[1..], k, v, x);
    }
  }

  lemma {:induction c} GetMember(c: Chain, k: Key)
    ensures Get(c, k) != None <==> exists i :: 0 <= i < |c| && c[i].key == k
  {
    if c != [] {
      GetMember(c[1..], k);
      if i :| 0 <= i < |c| && c[i].key == k {
        assert i > 0 ==> c[1..][i - 1].key == k;
      }
    }
  }

  // ----- tables -----

  function Count(b: seq<Chain>): nat
  {
    if b == [] then 0 else |b[0]| + Count(b[1..])
  }

  lemma {:induction false} CountUpdate(b: seq<Chain>, i: nat, c: Chain)
    requires i < |b|
    ensures Count(b[i := c]) == Count(b) - |b[i]| + |c|
  {
    if i == 0 {
      assert b[0 := c][1..] == b[1..];
    } else {
      assert b[i := c][1..] == b[1..][i - 1 := c];
      CountUpdate(b[1..], i - 1, c);
    }
  }

  lemma {:induction b} CountZero(b: seq<Chain>)
    ensures Count(b) == 0 <==> forall i :: 0 <= i < |b| ==> b[i] == []
  {
    if b != [] {
      assert forall i :: 1 <= i < |b| ==> b[i] == b[1..][i - 1];
      assert Count(b) == 0 ==> forall i :: 0 <= i < |b[1..]| ==> b[1..][i] == [];
    }
  }

  /** Bucket number: hash & sizemask, sizes being powers of two. */
  function Slot(h: Hash, k: Key, n: nat): (i: nat)
    requires n > 0
    ensures i < n
  {
    h(k) % n
  }

  function TableGet(h: Hash, t: Table, k: Key): Option<Val>
  {
    if t.buckets == [] then None else Get(t.buckets[Slot(h, k, |t.buckets|)], k)
  }

  /** Chain `c` may stand in bucket `b` of `n`. */
  ghost predicate ChainOk(h: Hash, c: Chain, b: nat, n: nat)
    requires n > 0
  {
    Distinct(c) && forall i :: 0 <= i < |c| ==> Slot(h, c[i].key, n) == b
  }

  predicate PowerOfTwo(n: nat) { n == 1 || (n > 1 && n % 2 == 0 && PowerOfTwo(n / 2)) }

  ghost predicate TableOk(h: Hash, t: Table)
  {
    && (t.buckets == [] || (PowerOfTwo(|t.buckets|) && |t.buckets| >= INITIAL_SIZE))
    && t.used == Count(t.buckets)
    && forall b :: 0 <= b < |t.buckets| ==> ChainOk(h, t.buckets[b], b, |t.buckets|)
  }

  // ----- the dictionary -----

  /** What the two tables denote. */
  function Lookup(h: Hash, s: State, k: Key): Option<Val>
  {
    if TableGet(h, s.ht0, k) != None then TableGet(h, s.ht0, k) else TableGet(h, s.ht1, k)
  }

  ghost predicate Valid(h: Hash, s: State)
  {
    && TableOk(h, s.ht0) && TableOk(h, s.ht1)
    && (!s.Rehashing() ==> s.ht1 == NO_TABLE)
    && (s.Rehashing() ==>
          && s.ht1.buckets != []
          && 0 <= s.rehashidx <= |s.ht0.buckets|
          && s.ht0.buckets != []
          && forall b :: 0 <= b < s.rehashidx ==> s.ht0.buckets[b] == [])
    && (forall k :: TableGet(h, s.ht0, k) == None || TableGet(h, s.ht1, k) == None)
    && s.iterators >= 0
  }

  /** The number of entries, dictSize. */
  function Size(s: State): int { s.ht0.used + s.ht1.used }

  // ----- growing -----

  function NextPowerFrom(i: nat, size: nat): (p: nat)
    requires i > 0
    ensures p >= size && p >= i
    decreases size - i
  {
    if i >= size then i else NextPowerFrom(2 * i, size)
  }

  function NextPower(size: nat): nat { NextPowerFrom(INITIAL_SIZE, size) }

  /** The next power of two after i is its double. */
  lemma {:induction false} PowerDoubles(i: nat, p: nat)
    requires PowerOfTwo(i) && PowerOfTwo(p) && i < p
    ensures 2 * i <= p
    decreases p
  {
    if i > 1 { PowerDoubles(i / 2, p / 2); }
  }

  lemma {:induction false} NextPowerIsSmallest(i: nat, size: nat, p: nat)
    requires PowerOfTwo(i) && PowerOfTwo(p) && i <= p && size <= p
    ensures NextPowerFrom(i, size) <= p
    decreases size - i
  {
    if i < size {
      PowerDoubles(i, p);
      assert PowerOfTwo(2 * i);
      NextPowerIsSmallest(2 * i, size, p);
    }
  }

  lemma {:induction false} NextPowerIsPower(i: nat, size: nat)
    requires i > 0 && PowerOfTwo(i)
    ensures PowerOfTwo(NextPowerFrom(i, size))
    ensures size > i ==> NextPowerFrom(i, size) < 2 * size
    decreases size - i
  {
    if i < size {
      assert PowerOfTwo(2 * i);
      NextPowerIsPower(2 * i, size);
    }
  }

  function Fresh(n: nat): Table { Table(seq(n, _ => []), 0) }

  /** dictExpand; None when it refuses. */
  function Expand(s: State, size: nat): Option<State>
  {
    if s.Rehashing() || s.ht0.used > size then None
    else if s.ht0.buckets == [] then Some(s.(ht0 := Fresh(NextPower(size))))
    else Some(s.(ht1 := Fresh(NextPower(size)), rehashidx := 0))
  }

  function ExpandIfNeeded(s: State, canResize: bool): Option<State>
  {
    var size := |s.ht0.buckets|;
    if s.Rehashing() then Some(s)
    else if size == 0 then Expand(s, INITIAL_SIZE)
    else if s.ht0.used >= size && (canResize || s.ht0.used / size > FORCE_RESIZE_RATIO) then
      Expand(s, (if size > s.ht0.used then size else s.ht0.used) * 2)
    else Some(s)
  }

  lemma {:induction b} CountEmpty(b: seq<Chain>)
    requires forall i :: 0 <= i < |b| ==> b[i] == []
    ensures Count(b) == 0
  {
  }

  lemma FreshOk(h: Hash, size: nat)
    ensures TableOk(h, Fresh(NextPower(size)))
    ensures forall k :: TableGet(h, Fresh(NextPower(size)), k) == None
  {
    var p := NextPower(size);
    assert PowerOfTwo(1) && PowerOfTwo(2) && PowerOfTwo(4);
    NextPowerIsPower(INITIAL_SIZE, size);
    CountEmpty(Fresh(p).buckets);
  }

  /** Growing denotes nothing new, and an add never finds it refused. */
  lemma ExpandKeeps(h: Hash, s: State, canResize: bool)
    requires Valid(h, s)
    ensures ExpandIfNeeded(s, canResize).Some?
    ensures var t := ExpandIfNeeded(s, canResize).value;
      && Valid(h, t) && t.ht0.buckets != [] && t.iterators == s.iterators && Size(t) == Size(s)
      && (forall k :: Lookup(h, t, k) == Lookup(h, s, k))
  {
    CountZero(s.ht0.buckets);
    FreshOk(h, INITIAL_SIZE);
    FreshOk(h, (if |s.ht0.buckets| > s.ht0.used then |s.ht0.buckets| else s.ht0.used) * 2);
  }

  // ----- one entry in, one entry out -----

  /** Links `e` in at the head of its bucket. */
  function Push(h: Hash, t: Table, e: Entry): Table
    requires t.buckets != []
  {
    var b := Slot(h, e.key, |t.buckets|);
    Table(t.buckets[b := [e] + t.buckets[b]], t.used + 1)
  }

  lemma PushOk(h: Hash, t: Table, e: Entry)
    requires t.buckets != [] && TableOk(h, t) && TableGet(h, t, e.key) == None
    ensures TableOk(h, Push(h, t, e))
    ensures forall k :: TableGet(h, Push(h, t, e), k) == if k == e.key then Some(e.val) else TableGet(h, t, k)
  {
    var b := Slot(h, e.key, |t.buckets|);
    var c := [e] + t.buckets[b];
    CountUpdate(t.buckets, b, c);
    assert c[1..] == t.buckets[b];
  }

  function Remove(h: Hash, t: Table, k: Key): Table
    requires t.buckets != []
  {
    var b := Slot(h, k, |t.buckets|);
    Table(t.buckets[b := Unlink(t.buckets[b], k)], t.used - 1)
  }

  lemma RemoveOk(h: Hash, t: Table, k: Key)
    requires TableOk(h, t) && TableGet(h, t, k) != None
    ensures TableOk(h, Remove(h, t, k))
    ensures forall x :: TableGet(h, Remove(h, t, k), x) == if x == k then None else TableGet(h, t, x)
  {
    var b := Slot(h, k, |t.buckets|);
    var c := t.buckets[b];
    CountUpdate(t.buckets, b, Unlink(c, k));
    forall x ensures Get(Unlink(c, k), x) == if x == k then None else Get(c, x) { GetUnlink(c, k, x); }
    GetUnlink(c, k, k);
    assert forall i :: 0 <= i < |Unlink(c, k)| ==> Unlink(c, k)[i] in c;
  }

  function Update(h: Hash, t: Table, k: Key, v: Val): Table
    requires t.buckets != []
  {
    var b := Slot(h, k, |t.buckets|);
    Table(t.buckets[b := Assign(t.buckets[b], k, v)], t.used)
  }

  lemma UpdateOk(h: Hash, t: Table, k: Key, v: Val)
    requires TableOk(h, t) && TableGet(h, t, k) != None
    ensures TableOk(h, Update(h, t, k, v))
    ensures forall x :: TableGet(h, Update(h, t, k, v), x) == if x == k then Some(v) else TableGet(h, t, x)
  {
    var b := Slot(h, k, |t.buckets|);
    var c := t.buckets[b];
    CountUpdate(t.buckets, b, Assign(c, k, v));
    forall x ensures Get(Assign(c, k, v), x) == if x == k then Some(v) else Get(c, x) { GetAssign(c, k, v, x); }
    GetAssign(c, k, v, k);
  }

  // ----- incremental rehashing -----

  /** Moves every entry of `c`, head first, to its bucket of `t`. */
  function MoveChain(h: Hash, c: Chain, t: Table): (r: Table)
    requires t.buckets != []
    ensures |r.buckets| == |t.buckets|
  {
    if c == [] then t else MoveChain(h, c[1..], Push(h, t, c[0]))
  }

  lemma {:induction false} MoveChainOk(h: Hash, c: Chain, t: Table)
    requires t.buckets != [] && TableOk(h, t) && Distinct(c)
    requires forall k :: Get(c, k) == None || TableGet(h, t, k) == None
    ensures TableOk(h, MoveChain(h, c, t)) && MoveChain(h, c, t).used == t.used + |c|
    ensures forall k :: TableGet(h, MoveChain(h, c, t), k) == if Get(c, k) != None then Get(c, k) else TableGet(h, t, k)
  {
    if c != [] {
      assert Get(c, c[0].key) != None;
      PushOk(h, t, c[0]);
      MoveChainOk(h, c[1..], Push(h, t, c[0]));
    }
  }

  /** The scan for a non-empty bucket from `i` on: there is one, so it stays inside the table. */
  function FirstBusy(b: seq<Chain>, i: nat): (j: nat)
    requires exists k :: i <= k < |b| && b[k] != []
    ensures i <= j < |b| && b[j] != []
    ensures forall k :: i <= k < j ==> b[k] == []
    decreases |b| - i
  {
    if b[i] != [] then i else FirstBusy(b, i + 1)
  }

  /** One step: move one bucket, or, when nothing is left to move, let the new table take over. */
  function RehashStep(h: Hash, s: State): State
    requires Valid(h, s) && s.Rehashing()
  {
    CountZero(s.ht0.buckets);
    if s.ht0.used == 0 then s.(ht0 := s.ht1, ht1 := NO_TABLE, rehashidx := -1)
    else MoveBucket(h, s, FirstBusy(s.ht0.buckets, s.rehashidx))
  }

  lemma EmptyBucket(h: Hash, t: Table, i: nat)
    requires TableOk(h, t) && i < |t.buckets|
    ensures var r := Table(t.buckets[i := []], t.used - |t.buckets[i]|);
      && TableOk(h, r)
      && forall k :: TableGet(h, r, k) == if Get(t.buckets[i], k) != None then None else TableGet(h, t, k)
  {
    CountUpdate(t.buckets, i, []);
    forall k | Get(t.buckets[i], k) != None ensures Slot(h, k, |t.buckets|) == i {
      GetMember(t.buckets[i], k);
    }
  }

  /** A step denotes nothing new, gets at least one bucket further, and ends within the table. */
  lemma RehashStepKeeps(h: Hash, s: State)
    requires Valid(h, s) && s.Rehashing()
    ensures var t := RehashStep(h, s);
      && Valid(h, t) && t.iterators == s.iterators && Size(t) == Size(s)
      && (forall k :: Lookup(h, t, k) == Lookup(h, s, k))
      && (if t.Rehashing() then t.rehashidx > s.rehashidx && |t.ht0.buckets| == |s.ht0.buckets|
        && |t.ht1.buckets| == |s.ht1.buckets|
          else s.ht0.used == 0 && t.ht0 == s.ht1)
  {
    CountZero(s.ht0.buckets);
    if s.ht0.used == 0 {
      forall k ensures TableGet(h, s.ht0, k) == None { }
    } else {
      MoveBucketKeeps(h, s, FirstBusy(s.ht0.buckets, s.rehashidx));
    }
  }

  function MoveBucket(h: Hash, s: State, i: nat): State
    requires i < |s.ht0.buckets| && s.ht1.buckets != []
  {
    var c := s.ht0.buckets[i];
    s.(ht0 := Table(s.ht0.buckets[i := []], s.ht0.used - |c|), ht1 := MoveChain(h, c, s.ht1), rehashidx := i + 1)
  }

  lemma MoveBucketKeeps(h: Hash, s: State, i: nat)
    requires Valid(h, s) && s.Rehashing() && s.rehashidx <= i < |s.ht0.buckets|
    requires forall j :: s.rehashidx <= j < i ==> s.ht0.buckets[j] == []
    ensures var t := MoveBucket(h, s, i);
      Valid(h, t) && Size(t) == Size(s) && forall k :: Lookup(h, t, k) == Lookup(h, s, k)
  {
    var c := s.ht0.buckets[i];
    BucketHolds(h, s.ht0, i);
    hide TableOk, TableGet, MoveChain;
    EmptyBucket(h, s.ht0, i);
    MoveChainOk(h, c, s.ht1);
  }

  lemma BucketHolds(h: Hash, t: Table, i: nat)
    requires TableOk(h, t) && i < |t.buckets|
    ensures ChainOk(h, t.buckets[i], i, |t.buckets|)
    ensures forall k :: Get(t.buckets[i], k) != None ==> TableGet(h, t, k) == Get(t.buckets[i], k)
  {
    forall k | Get(t.buckets[i], k) != None ensures TableGet(h, t, k) == Get(t.buckets[i], k) {
      GetMember(t.buckets[i], k);
    }
  }

  /** _dictRehashStep as the operations call it: frozen while a safe iterator is open. */
  function MaybeStep(h: Hash, s: State): State
    requires Valid(h, s)
  {
    if s.Rehashing() && s.iterators == 0 then RehashStep(h, s) else s
  }

  lemma MaybeStepKeeps(h: Hash, s: State)
    requires Valid(h, s)
    ensures var t := MaybeStep(h, s);
      && Valid(h, t) && t.iterators == s.iterators && Size(t) == Size(s)
      && (forall k :: Lookup(h, t, k) == Lookup(h, s, k))
  {
    if s.Rehashing() && s.iterators == 0 { RehashStepKeeps(h, s); }
  }

  /** A change confined to the old table. */
  lemma ChangeOld(h: Hash, s: State, t: Table)
    requires Valid(h, s) && TableOk(h, t) && |t.buckets| == |s.ht0.buckets|
    requires forall b :: 0 <= b < |t.buckets| && s.ht0.buckets[b] == [] && s.Rehashing() ==> t.buckets[b] == []
    requires forall k :: TableGet(h, t, k) == None || TableGet(h, s.ht1, k) == None
    ensures Valid(h, s.(ht0 := t))
  {
  }

  /** A change confined to the new table. */
  lemma ChangeNew(h: Hash, s: State, t: Table)
    requires Valid(h, s) && s.Rehashing() && TableOk(h, t) && |t.buckets| == |s.ht1.buckets|
    requires forall k :: TableGet(h, s.ht0, k) == None || TableGet(h, t, k) == None
    ensures Valid(h, s.(ht1 := t))
  {
  }

  // ----- the operations -----

  /** Links a new key into the table that takes new keys. */
  function Insert(h: Hash, s: State, e: Entry): State
    requires (if s.Rehashing() then s.ht1.buckets else s.ht0.buckets) != []
  {
    if s.Rehashing() then s.(ht1 := Push(h, s.ht1, e)) else s.(ht0 := Push(h, s.ht0, e))
  }

  lemma InsertDenotes(h: Hash, s: State, e: Entry)
    requires Valid(h, s) && s.ht0.buckets != [] && Lookup(h, s, e.key) == None
    ensures var t := Insert(h, s, e);
      && Valid(h, t) && Size(t) == Size(s) + 1
      && forall x :: Lookup(h, t, x) == if x == e.key then Some(e.val) else Lookup(h, s, x)
  {
    if s.Rehashing() {
      PushOk(h, s.ht1, e);
      hide TableOk, TableGet;
      ChangeNew(h, s, Push(h, s.ht1, e));
    } else {
      PushOk(h, s.ht0, e);
      assert forall k :: TableGet(h, s.ht1, k) == None;
      hide TableOk, TableGet;
      ChangeOld(h, s, Push(h, s.ht0, e));
    }
  }

  /** dictAdd: at most one rehash step, growth if the table is full, then the new entry. */
  function Add(h: Hash, s: State, k: Key, v: Val, canResize: bool): (State, bool)
    requires Valid(h, s)
  {
    MaybeStepKeeps(h, s);
    ExpandKeeps(h, MaybeStep(h, s), canResize);
    var t := ExpandIfNeeded(MaybeStep(h, s), canResize).value;
    if Lookup(h, t, k) != None then (t, false) else (Insert(h, t, Entry(k, v)), true)
  }

  lemma AddDenotes(h: Hash, s: State, k: Key, v: Val, canResize: bool)
    requires Valid(h, s)
    ensures var (t, added) := Add(h, s, k, v, canResize);
      && Valid(h, t) && t.iterators == s.iterators
      && added == (Lookup(h, s, k) == None)
      && Size(t) == Size(s) + (if added then 1 else 0)
      && forall x :: Lookup(h, t, x) == if x == k && added then Some(v) else Lookup(h, s, x)
  {
    hide Valid, Lookup, ExpandIfNeeded, MaybeStep;
    MaybeStepKeeps(h, s);
    ExpandKeeps(h, MaybeStep(h, s), canResize);
    var t := ExpandIfNeeded(MaybeStep(h, s), canResize).value;
    if Lookup(h, t, k) == None { InsertDenotes(h, t, Entry(k, v)); }
  }

  /** The value of an existing key set in whichever table holds it. */
  function SetValue(h: Hash, s: State, k: Key, v: Val): State
    requires Lookup(h, s, k) != None
  {
    if TableGet(h, s.ht0, k) != None then s.(ht0 := Update(h, s.ht0, k, v)) else s.(ht1 := Update(h, s.ht1, k, v))
  }

  lemma SetValueDenotes(h: Hash, s: State, k: Key, v: Val)
    requires Valid(h, s) && Lookup(h, s, k) != None
    ensures var t := SetValue(h, s, k, v);
      && Valid(h, t) && t.iterators == s.iterators && Size(t) == Size(s)
      && forall x :: Lookup(h, t, x) == if x == k then Some(v) else Lookup(h, s, x)
  {
    if TableGet(h, s.ht0, k) != None {
      UpdateOk(h, s.ht0, k, v);
      hide TableOk, TableGet;
      ChangeOld(h, s, Update(h, s.ht0, k, v));
    } else {
      UpdateOk(h, s.ht1, k, v);
      hide TableOk, TableGet;
      ChangeNew(h, s, Update(h, s.ht1, k, v));
    }
  }

  /** dictReplace; true when the key was new. A failed add is followed by a find, so an existing
      key costs two rehash steps. */
  function Replace(h: Hash, s: State, k: Key, v: Val, canResize: bool): (State, bool)
    requires Valid(h, s)
  {
    AddDenotes(h, s, k, v, canResize);
    var (t, added) := Add(h, s, k, v, canResize);
    MaybeStepKeeps(h, t);
    if added then (t, true) else (SetValue(h, MaybeStep(h, t), k, v), false)
  }

  lemma ReplaceDenotes(h: Hash, s: State, k: Key, v: Val, canResize: bool)
    requires Valid(h, s)
    ensures var (t, added) := Replace(h, s, k, v, canResize);
      && Valid(h, t) && t.iterators == s.iterators
      && added == (Lookup(h, s, k) == None)
      && Size(t) == Size(s) + (if added then 1 else 0)
      && forall x :: Lookup(h, t, x) == if x == k then Some(v) else Lookup(h, s, x)
  {
    hide Add, Valid, Lookup;
    AddDenotes(h, s, k, v, canResize);
    var (t, added) := Add(h, s, k, v, canResize);
    if !added {
      MaybeStepKeeps(h, t);
      SetValueDenotes(h, MaybeStep(h, t), k, v);
    }
  }

  /** Unlinks a key that is present from whichever table holds it. */
  function Erase(h: Hash, s: State, k: Key): State
    requires Lookup(h, s, k) != None
  {
    if TableGet(h, s.ht0, k) != None then s.(ht0 := Remove(h, s.ht0, k)) else s.(ht1 := Remove(h, s.ht1, k))
  }

  lemma EraseDenotes(h: Hash, s: State, k: Key)
    requires Valid(h, s) && Lookup(h, s, k) != None
    ensures var t := Erase(h, s, k);
      && Valid(h, t) && t.iterators == s.iterators && Size(t) == Size(s) - 1
      && forall x :: Lookup(h, t, x) == if x == k then None else Lookup(h, s, x)
  {
    if TableGet(h, s.ht0, k) != None {
      RemoveOk(h, s.ht0, k);
      hide TableOk, TableGet;
      ChangeOld(h, s, Remove(h, s.ht0, k));
    } else {
      RemoveOk(h, s.ht1, k);
      hide TableOk, TableGet;
      ChangeNew(h, s, Remove(h, s.ht1, k));
    }
  }

  /** dictGenericDelete; false when there was nothing to delete. */
  function Delete(h: Hash, s: State, k: Key): (State, bool)
    requires Valid(h, s)
  {
    if s.ht0.buckets == [] then (s, false)
    else
      var t := MaybeStep(h, s);
      if Lookup(h, t, k) == None then (t, false) else (Erase(h, t, k), true)
  }

  lemma DeleteDenotes(h: Hash, s: State, k: Key)
    requires Valid(h, s)
    ensures var (t, deleted) := Delete(h, s, k);
      && Valid(h, t) && t.iterators == s.iterators
      && deleted == (Lookup(h, s, k) != None)
      && Size(t) == Size(s) - (if deleted then 1 else 0)
      && forall x :: Lookup(h, t, x) == if x == k then None else Lookup(h, s, x)
  {
    if s.ht0.buckets != [] {
      hide Valid, Lookup, MaybeStep;
      MaybeStepKeeps(h, s);
      var t := MaybeStep(h, s);
      if Lookup(h, t, k) != None { EraseDenotes(h, t, k); }
    }
  }

  /** dictFind: a rehash step, then the value. */
  function Find(h: Hash, s: State, k: Key): (State, Option<Val>)
    requires Valid(h, s)
  {
    if s.ht0.buckets == [] then (s, None) else (MaybeStep(h, s), Lookup(h, MaybeStep(h, s), k))
  }

  lemma FindDenotes(h: Hash, s: State, k: Key)
    requires Valid(h, s)
    ensures var (t, v) := Find(h, s, k);
      && Valid(h, t) && t.iterators == s.iterators && Size(t) == Size(s) && v == Lookup(h, s, k)
      && forall x :: Lookup(h, t, x) == Lookup(h, s, x)
  {
    MaybeStepKeeps(h, s);
  }
}
