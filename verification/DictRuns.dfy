/** dict.c over whole runs: it is a map, and a growth finishes in time. */
module DictRuns {
  import opened Bytes
  import opened DictModel

  /** What a client may do; a safe iterator enters as Freeze and leaves as Thaw. */
  datatype Op =
    | OpAdd(k: Key, v: Val, canResize: bool)
    | OpReplace(k: Key, v: Val, canResize: bool)
    | OpDelete(k: Key)
    | OpFind(k: Key)
    | Rehash
    | Freeze
    | Thaw

  datatype Reply = Done(ok: bool) | Found(v: Option<Val>) | Silent

  /** The hash table's answer to one operation. */
  function Step(h: Hash, s: State, op: Op): (State, Reply)
    requires Valid(h, s)
  {
    match op
    case OpAdd(k, v, r) => (Add(h, s, k, v, r).0, Done(Add(h, s, k, v, r).1))
    case OpReplace(k, v, r) => (Replace(h, s, k, v, r).0, Done(Replace(h, s, k, v, r).1))
    case OpDelete(k) => (Delete(h, s, k).0, Done(Delete(h, s, k).1))
    case OpFind(k) => (Find(h, s, k).0, Found(Find(h, s, k).1))
    case Rehash => (if s.Rehashing() then RehashStep(h, s) else s, Silent)
    case Freeze => (s.(iterators := s.iterators + 1), Silent)
    case Thaw => (if s.iterators > 0 then s.(iterators := s.iterators - 1) else s, Silent)
  }

  /** A plain dictionary's answer to the same operation. */
  function MapStep(m: map<Key, Val>, op: Op): (map<Key, Val>, Reply)
  {
    match op
    case OpAdd(k, v, _) => (if k in m then m else m[k := v], Done(k !in m))
    case OpReplace(k, v, _) => (m[k := v], Done(k !in m))
    case OpDelete(k) => (m - {k}, Done(k in m))
    case OpFind(k) => (m, Found(if k in m then Some(m[k]) else None))
    case Rehash | Freeze | Thaw => (m, Silent)
  }

  ghost predicate Denotes(h: Hash, s: State, m: map<Key, Val>)
  {
    && Valid(h, s)
    && Size(s) == |m|
    && forall k :: Lookup(h, s, k) == if k in m then Some(m[k]) else None
  }

  lemma DenotesWith(h: Hash, s: State, t: State, m: map<Key, Val>, k: Key, v: Val)
    requires Denotes(h, s, m) && Valid(h, t) && Size(t) == Size(s) + (if k in m then 0 else 1)
    requires forall x :: Lookup(h, t, x) == if x == k then Some(v) else Lookup(h, s, x)
    ensures Denotes(h, t, m[k := v])
  {
    hide Valid, Lookup;
  }

  lemma DenotesWithout(h: Hash, s: State, t: State, m: map<Key, Val>, k: Key)
    requires Denotes(h, s, m) && Valid(h, t) && Size(t) == Size(s) - (if k in m then 1 else 0)
    requires forall x :: Lookup(h, t, x) == if x == k then None else Lookup(h, s, x)
    ensures Denotes(h, t, m - {k})
  {
    hide Valid, Lookup;
    SizeWithout(m, k);
  }

  lemma SizeWithout(m: map<Key, Val>, k: Key)
    ensures |m - {k}| == |m| - (if k in m then 1 else 0)
  {
    if k in m { assert m == (m - {k})[k := m[k]]; } else { assert m - {k} == m; }
  }

  lemma DenotesSame(h: Hash, s: State, t: State, m: map<Key, Val>)
    requires Denotes(h, s, m) && Valid(h, t) && Size(t) == Size(s)
    requires forall x :: Lookup(h, t, x) == Lookup(h, s, x)
    ensures Denotes(h, t, m)
  {
  }

  lemma DenotesValue(h: Hash, s: State, m: map<Key, Val>, k: Key)
    requires Denotes(h, s, m)
    ensures Valid(h, s) && Lookup(h, s, k) == if k in m then Some(m[k]) else None
  {
  }

  lemma AddStep(h: Hash, s: State, m: map<Key, Val>, k: Key, v: Val, r: bool)
    requires Denotes(h, s, m)
    ensures var op := OpAdd(k, v, r);
      Denotes(h, Step(h, s, op).0, MapStep(m, op).0) && Step(h, s, op).1 == MapStep(m, op).1
  {
    hide Denotes, Valid, Lookup, Add;
    DenotesValue(h, s, m, k);
    AddDenotes(h, s, k, v, r);
    if k in m {
      DenotesSame(h, s, Add(h, s, k, v, r).0, m);
    } else {
      DenotesWith(h, s, Add(h, s, k, v, r).0, m, k, v);
    }
  }

  lemma ReplaceStep(h: Hash, s: State, m: map<Key, Val>, k: Key, v: Val, r: bool)
    requires Denotes(h, s, m)
    ensures var op := OpReplace(k, v, r);
      Denotes(h, Step(h, s, op).0, MapStep(m, op).0) && Step(h, s, op).1 == MapStep(m, op).1
  {
    hide Denotes, Valid, Lookup, Replace;
    DenotesValue(h, s, m, k);
    ReplaceDenotes(h, s, k, v, r);
    DenotesWith(h, s, Replace(h, s, k, v, r).0, m, k, v);
  }

  lemma DeleteStep(h: Hash, s: State, m: map<Key, Val>, k: Key)
    requires Denotes(h, s, m)
    ensures var op := OpDelete(k);
      Denotes(h, Step(h, s, op).0, MapStep(m, op).0) && Step(h, s, op).1 == MapStep(m, op).1
  {
    hide Denotes, Valid, Lookup, Delete;
    DenotesValue(h, s, m, k);
    DeleteDenotes(h, s, k);
    DenotesWithout(h, s, Delete(h, s, k).0, m, k);
  }

  lemma FindStep(h: Hash, s: State, m: map<Key, Val>, k: Key)
    requires Denotes(h, s, m)
    ensures var op := OpFind(k);
      Denotes(h, Step(h, s, op).0, MapStep(m, op).0) && Step(h, s, op).1 == MapStep(m, op).1
  {
    hide Denotes, Valid, Lookup, Find;
    DenotesValue(h, s, m, k);
    FindDenotes(h, s, k);
    DenotesSame(h, s, Find(h, s, k).0, m);
  }

  /** One operation: same reply, and the tables go on denoting the dictionary. */
  lemma StepDenotes(h: Hash, s: State, m: map<Key, Val>, op: Op)
    requires Denotes(h, s, m)
    ensures Denotes(h, Step(h, s, op).0, MapStep(m, op).0)
    ensures Step(h, s, op).1 == MapStep(m, op).1
  {
    match op
    case OpAdd(k, v, r) => AddStep(h, s, m, k, v, r);
    case OpReplace(k, v, r) => ReplaceStep(h, s, m, k, v, r);
    case OpDelete(k) => DeleteStep(h, s, m, k);
    case OpFind(k) => FindStep(h, s, m, k);
    case _ =>
      QuietStep(h, s, op);
      hide Denotes, Valid, Lookup;
      DenotesSame(h, s, Step(h, s, op).0, m);
  }

  /** The operations that only move entries about. */
  lemma QuietStep(h: Hash, s: State, op: Op)
    requires Valid(h, s) && (op.Rehash? || op.Freeze? || op.Thaw?)
    ensures var t := Step(h, s, op).0;
      Valid(h, t) && Size(t) == Size(s) && forall k :: Lookup(h, t, k) == Lookup(h, s, k)
  {
    if op.Rehash? && s.Rehashing() { RehashStepKeeps(h, s); }
  }

  /** The invariant survives every operation. */
  lemma StepValid(h: Hash, s: State, op: Op)
    requires Valid(h, s)
    ensures Valid(h, Step(h, s, op).0)
  {
    hide Valid, Lookup, Add, Replace, Delete, Find;
    match op
    case OpAdd(k, v, r) => AddDenotes(h, s, k, v, r);
    case OpReplace(k, v, r) => ReplaceDenotes(h, s, k, v, r);
    case OpDelete(k) => DeleteDenotes(h, s, k);
    case OpFind(k) => FindDenotes(h, s, k);
    case _ => QuietStep(h, s, op);
  }

  function Run(h: Hash, s: State, ops: seq<Op>): (State, seq<Reply>)
    requires Valid(h, s)
    decreases |ops|
  {
    if ops == [] then (s, [])
    else
      StepValid(h, s, ops[0]);
      (Run(h, Step(h, s, ops[0]).0, ops[1..]).0, [Step(h, s, ops[0]).1] + Run(h, Step(h, s, ops[0]).0, ops[1..]).1)
  }

  function MapRun(m: map<Key, Val>, ops: seq<Op>): (map<Key, Val>, seq<Reply>)
    decreases |ops|
  {
    if ops == [] then (m, [])
    else (MapRun(MapStep(m, ops[0]).0, ops[1..]).0, [MapStep(m, ops[0]).1] + MapRun(MapStep(m, ops[0]).0, ops[1..]).1)
  }

  /** Refinement: from an empty dictionary, every run of operations, with growths, migrations and
      frozen spells wherever they fall, is answered as a plain map would, and the tables keep
      their invariant throughout. */
  lemma RunFromEmpty(h: Hash, ops: seq<Op>)
    ensures Valid(h, EMPTY) && Run(h, EMPTY, ops).1 == MapRun(map[], ops).1
    ensures Denotes(h, Run(h, EMPTY, ops).0, MapRun(map[], ops).0)
  {
    RunRefinesMap(h, EMPTY, map[], ops);
  }

  lemma {:induction false} RunRefinesMap(h: Hash, s: State, m: map<Key, Val>, ops: seq<Op>)
    requires Denotes(h, s, m)
    ensures Run(h, s, ops).1 == MapRun(m, ops).1
    ensures Denotes(h, Run(h, s, ops).0, MapRun(m, ops).0)
    decreases |ops|
  {
    if ops != [] {
      hide Valid, Step, MapStep;
      StepDenotes(h, s, m, ops[0]);
      StepValid(h, s, ops[0]);
      RunRefinesMap(h, Step(h, s, ops[0]).0, MapStep(m, ops[0]).0, ops[1..]);
    }
  }

  // ----- growth finishes -----

  /** dictRehash with a budget of n steps. */
  function Steps(h: Hash, s: State, n: nat): State
    requires Valid(h, s)
    decreases n
  {
    if n == 0 || !s.Rehashing() then s
    else
      RehashStepKeeps(h, s);
      Steps(h, RehashStep(h, s), n - 1)
  }

  /** A budget of one more than the buckets left to visit always finishes. */
  lemma {:induction false} RehashFinishes(h: Hash, s: State, n: nat)
    requires Valid(h, s)
    requires s.Rehashing() ==> n > |s.ht0.buckets| - s.rehashidx
    ensures Valid(h, Steps(h, s, n)) && !Steps(h, s, n).Rehashing()
    ensures forall k :: Lookup(h, Steps(h, s, n), k) == Lookup(h, s, k)
    decreases n
  {
    hide Valid, Lookup, RehashStep;
    if s.Rehashing() {
      IndexInTable(h, s);
      RehashStepKeeps(h, s);
      RehashFinishes(h, RehashStep(h, s), n - 1);
    }
  }

  lemma IndexInTable(h: Hash, s: State)
    requires Valid(h, s) && s.Rehashing()
    ensures 0 <= s.rehashidx <= |s.ht0.buckets| && s.ht0.used >= 0
    ensures s.rehashidx == |s.ht0.buckets| ==> s.ht0.used == 0
  {
    CountZero(s.ht0.buckets);
  }

  /** One add while buckets remain to be moved: a step further, same two tables. */
  lemma AddWhileMoving(h: Hash, s: State, k: Key, v: Val, canResize: bool)
    requires Valid(h, s) && s.iterators == 0 && s.Rehashing() && s.ht0.used != 0
    ensures var t := Add(h, s, k, v, canResize).0;
      && t.Rehashing() && t.rehashidx > s.rehashidx
      && |t.ht0.buckets| == |s.ht0.buckets| && |t.ht1.buckets| == |s.ht1.buckets|
  {
    hide Valid, Lookup;
    RehashStepKeeps(h, s);
  }

  /** How many of these adds run before the old table is empty. */
  function AddsUntilMoved(h: Hash, s: State, adds: seq<(Key, Val, bool)>): (n: nat)
    requires Valid(h, s)
    ensures n <= |adds|
    decreases |adds|
  {
    if adds == [] || s.ht0.used == 0 then 0
    else
      AddDenotes(h, s, adds[0].0, adds[0].1, adds[0].2);
      1 + AddsUntilMoved(h, Add(h, s, adds[0].0, adds[0].1, adds[0].2).0, adds[1..])
  }

  function Adds(h: Hash, s: State, adds: seq<(Key, Val, bool)>): (t: State)
    requires Valid(h, s)
    ensures Valid(h, t)
    decreases |adds|
  {
    if adds == [] then s
    else
      AddDenotes(h, s, adds[0].0, adds[0].1, adds[0].2);
      Adds(h, Add(h, s, adds[0].0, adds[0].1, adds[0].2).0, adds[1..])
  }

  lemma {:induction false} AddsPayForMoving(h: Hash, s: State, adds: seq<(Key, Val, bool)>)
    requires Valid(h, s) && s.iterators == 0 && s.Rehashing()
    requires |adds| >= |s.ht0.buckets| - s.rehashidx
    ensures var n := AddsUntilMoved(h, s, adds); var t := Adds(h, s, adds[..n]);
      && n <= |s.ht0.buckets| - s.rehashidx
      && t.iterators == 0 && t.Rehashing() && t.ht0.used == 0
      && |t.ht1.buckets| == |s.ht1.buckets| && Size(t) <= Size(s) + n
    decreases |adds|
  {
    hide Valid, Lookup, Add;
    IndexInTable(h, s);
    if s.ht0.used != 0 {
      var (k, v, r) := adds[0];
      AddDenotes(h, s, k, v, r);
      AddWhileMoving(h, s, k, v, r);
      var t := Add(h, s, k, v, r).0;
      AddsPayForMoving(h, t, adds[1..]);
      var n := AddsUntilMoved(h, t, adds[1..]);
      assert adds[..n + 1][1..] == adds[1..][..n];
    }
  }

  /** A growth started by an add to a table of S buckets, no iterator open: the old table is empty
      after at most S more adds, and the next operation lets the new one take over with at most
      one entry more than it has buckets. */
  lemma GrowthCompletes(h: Hash, s: State, k: Key, v: Val, canResize: bool, adds: seq<(Key, Val, bool)>)
    requires Valid(h, s) && s.iterators == 0 && !s.Rehashing() && s.ht0.buckets != []
    requires Add(h, s, k, v, canResize).0.Rehashing() && |adds| >= |s.ht0.buckets|
    ensures var t := Add(h, s, k, v, canResize).0;
      && Valid(h, t)
      && var n := AddsUntilMoved(h, t, adds); var u := Adds(h, t, adds[..n]);
      && n <= |s.ht0.buckets|
      && MaybeStep(h, u) == u.(ht0 := u.ht1, ht1 := NO_TABLE, rehashidx := -1)
      && Size(u) <= |u.ht1.buckets| + 1
  {
    hide Valid, Lookup;
    AddDenotes(h, s, k, v, canResize);
    var t := Add(h, s, k, v, canResize).0;
    AddsPayForMoving(h, t, adds);
  }
}
