/** dict.c over whole runs: a full table grows, and no sooner, so that chains stay short. */
module DictGrowth {
  import opened Bytes
  import opened DictModel
  import opened DictRuns

  /** After an add to a table of n buckets and `size` entries that was not being migrated: a growth has started exactly
      if there were as many entries as buckets, and growing was allowed or there were six times as many; the new table
      has the least power of two that is twice the number of entries, or more. */
  ghost predicate GrownFrom(n: nat, size: int, t: State, canResize: bool)
  {
    && (t.Rehashing() <==> size >= n && (canResize || size >= 6 * n))
    && |t.ht0.buckets| == n
    && (t.Rehashing() ==>
          && t.rehashidx == 0 && PowerOfTwo(|t.ht1.buckets|) && 2 * size <= |t.ht1.buckets| < 4 * size)
  }

  lemma PowerOfSize(u: nat)
    requires u >= 4
    ensures PowerOfTwo(NextPower(2 * u)) && 2 * u <= NextPower(2 * u) < 4 * u
  {
    assert PowerOfTwo(1) && PowerOfTwo(2) && PowerOfTwo(4);
    NextPowerIsPower(INITIAL_SIZE, 2 * u);
  }

  lemma RatioExceeded(u: nat, n: nat)
    requires n > 0
    ensures u / n > FORCE_RESIZE_RATIO <==> u >= 6 * n
  {
  }

  lemma ExpandGrows(h: Hash, s: State, canResize: bool)
    requires Valid(h, s) && !s.Rehashing() && s.ht0.buckets != []
    ensures ExpandIfNeeded(s, canResize).Some?
      && GrownFrom(|s.ht0.buckets|, Size(s), ExpandIfNeeded(s, canResize).value, canResize)
  {
    var n, u := |s.ht0.buckets|, s.ht0.used;
    CountZero(s.ht0.buckets);
    assert n >= 4 && u >= 0 && s.ht1 == NO_TABLE;
    hide Valid, NextPower, PowerOfTwo;
    RatioExceeded(u, n);
    if u >= n { PowerOfSize(u); }
  }

  lemma InsertKeepsShape(h: Hash, s: State, e: Entry)
    requires (if s.Rehashing() then s.ht1.buckets else s.ht0.buckets) != []
    ensures var t := Insert(h, s, e);
      && t.rehashidx == s.rehashidx && |t.ht0.buckets| == |s.ht0.buckets| && |t.ht1.buckets| == |s.ht1.buckets|
  {
  }

  /** A full table grows with the next add, and no table grows before. */
  lemma AddGrows(h: Hash, s: State, k: Key, v: Val, canResize: bool)
    requires Valid(h, s) && !s.Rehashing() && s.ht0.buckets != []
    ensures GrownFrom(|s.ht0.buckets|, Size(s), Add(h, s, k, v, canResize).0, canResize)
  {
    hide Valid, Lookup, ExpandIfNeeded, PowerOfTwo, Insert;
    ExpandKeeps(h, s, canResize);
    ExpandGrows(h, s, canResize);
    var t := ExpandIfNeeded(s, canResize).value;
    assert MaybeStep(h, s) == s;
    TablesThere(h, t);
    InsertKeepsShape(h, t, Entry(k, v));
  }

  /** The first table has four buckets. */
  lemma FirstTable(h: Hash, s: State, k: Key, v: Val, canResize: bool)
    requires Valid(h, s) && s.ht0.buckets == []
    ensures var (t, added) := Add(h, s, k, v, canResize);
      added && !t.Rehashing() && |t.ht0.buckets| == 4 && Size(t) == 1
  {
    hide Lookup, Insert;
    AddDenotes(h, s, k, v, canResize);
    PowerOfFour();
    var t := ExpandIfNeeded(s, canResize).value;
    InsertKeepsShape(h, t, Entry(k, v));
    NothingThere(h, s, k);
  }

  lemma NothingThere(h: Hash, s: State, k: Key)
    requires Valid(h, s) && s.ht0.buckets == []
    ensures Lookup(h, s, k) == None && Size(s) == 0 && !s.Rehashing()
  {
  }

  lemma TablesThere(h: Hash, s: State)
    requires Valid(h, s) && s.ht0.buckets != []
    ensures s.Rehashing() ==> s.ht1.buckets != [] && 0 <= s.rehashidx <= |s.ht0.buckets|
    ensures |s.ht0.buckets| >= 4 && s.ht0.used >= 0 && s.ht1.used >= 0
  {
    CountZero(s.ht0.buckets);
  }

  // ----- over runs -----

  /** The entries there may be in n buckets when growing is allowed, or discouraged; `late` of them were added while an
      iterator was open, which holds up the migration. */
  function Room(n: nat, always: bool, late: nat): nat
  {
    (if always then n + 1 else 6 * n) + late
  }

  /** There is room, and while a table is being migrated there will be when that is done. */
  ghost predicate Roomy(s: State, always: bool, late: nat)
  {
    if s.Rehashing() then
      Size(s) + (|s.ht0.buckets| - s.rehashidx) <= |s.ht1.buckets| + 1 + late
    else
      (s.ht0.buckets == [] && Size(s) == 0) || Size(s) <= Room(|s.ht0.buckets|, always, late)
  }

  lemma MigratedRoom(s: State, t: State, always: bool, late: nat)
    requires s.Rehashing() && !t.Rehashing() && t.ht0 == s.ht1 && Size(t) == Size(s) && Roomy(s, always, late)
    requires s.rehashidx <= |s.ht0.buckets| && |s.ht1.buckets| >= 4
    ensures Roomy(t, always, late)
  {
  }

  /** A step of the migration keeps the room, and gains one place if the migration goes on. */
  lemma StepRoom(h: Hash, s: State, always: bool, late: nat)
    requires Valid(h, s) && s.Rehashing() && Roomy(s, always, late)
    ensures Valid(h, RehashStep(h, s)) && Roomy(RehashStep(h, s), always, late)
    ensures var t := RehashStep(h, s);
      t.Rehashing() ==> Size(t) + (|t.ht0.buckets| - t.rehashidx) <= |t.ht1.buckets| + late
  {
    RehashStepKeeps(h, s);
    assert s.rehashidx <= |s.ht0.buckets| && |s.ht1.buckets| >= 4;
    var t := RehashStep(h, s);
    hide Valid, RehashStep;
    if !t.Rehashing() { MigratedRoom(s, t, always, late); }
  }

  lemma MaybeStepRoom(h: Hash, s: State, always: bool, late: nat)
    requires Valid(h, s) && Roomy(s, always, late)
    ensures var t := MaybeStep(h, s);
      && Valid(h, t) && t.iterators == s.iterators && Roomy(t, always, late)
      && (t.Rehashing() && s.iterators == 0 ==> Size(t) + (|t.ht0.buckets| - t.rehashidx) <= |t.ht1.buckets| + late)
  {
    hide RehashStep;
    MaybeStepKeeps(h, s);
    if s.Rehashing() && s.iterators == 0 { StepRoom(h, s, always, late); }
  }

  /** An add while a table is being migrated, or that starts a growth. */
  lemma InsertRoom(h: Hash, s: State, e: Entry, always: bool, late: nat)
    requires Valid(h, s) && s.ht0.buckets != [] && Lookup(h, s, e.key) == None
    requires if s.Rehashing() then Size(s) + (|s.ht0.buckets| - s.rehashidx) <= |s.ht1.buckets| + late
             else Size(s) < Room(|s.ht0.buckets|, always, late)
    ensures Roomy(Insert(h, s, e), always, late)
  {
    TablesThere(h, s);
    InsertKeepsShape(h, s, e);
    InsertDenotes(h, s, e);
  }

  lemma GrowthRoom(h: Hash, s: State, always: bool, late: nat, canResize: bool)
    requires Valid(h, s) && !s.Rehashing() && Roomy(s, always, late) && (always ==> canResize)
    ensures ExpandIfNeeded(s, canResize).Some?
    ensures var t := ExpandIfNeeded(s, canResize).value;
      if t.Rehashing() then Size(t) + (|t.ht0.buckets| - t.rehashidx) <= |t.ht1.buckets|
      else Size(t) < Room(|t.ht0.buckets|, always, 0)
  {
    ExpandKeeps(h, s, canResize);
    hide Valid, PowerOfTwo, NextPowerFrom, Lookup;
    if s.ht0.buckets != [] {
      ExpandGrows(h, s, canResize);
      TablesThere(h, s);
      hide ExpandIfNeeded;
    } else {
      assert NextPower(INITIAL_SIZE) == 4 by { PowerOfFour(); }
    }
  }

  lemma PowerOfFour()
    ensures NextPower(INITIAL_SIZE) == 4
  {
  }

  /** How many adds an operation makes while an iterator is open. */
  function LateAdds(s: State, op: Op): nat
  {
    if (op.OpAdd? || op.OpReplace?) && s.iterators > 0 then 1 else 0
  }

  lemma AddRoom(h: Hash, s: State, k: Key, v: Val, canResize: bool, always: bool, late: nat)
    requires Valid(h, s) && Roomy(s, always, late) && (always ==> canResize)
    ensures Roomy(Add(h, s, k, v, canResize).0, always, late + (if s.iterators > 0 then 1 else 0))
  {
    hide Lookup, ExpandIfNeeded, MaybeStep, Insert;
    MaybeStepRoom(h, s, always, late);
    var u := MaybeStep(h, s);
    ExpandKeeps(h, u, canResize);
    var t := ExpandIfNeeded(u, canResize).value;
    if u.Rehashing() { StaysSame(u, canResize); } else { GrowthRoom(h, u, always, late, canResize); }
    TablesThere(h, t);
    hide Valid;
    if Lookup(h, t, k) == None {
      InsertRoom(h, t, Entry(k, v), always, late + (if s.iterators > 0 then 1 else 0));
    }
  }

  lemma StaysSame(s: State, canResize: bool)
    requires s.Rehashing()
    ensures ExpandIfNeeded(s, canResize) == Some(s)
  {
  }

  lemma SetValueShape(h: Hash, s: State, k: Key, v: Val)
    requires Lookup(h, s, k) != None
    ensures var t := SetValue(h, s, k, v);
      && t.rehashidx == s.rehashidx && |t.ht0.buckets| == |s.ht0.buckets| && |t.ht1.buckets| == |s.ht1.buckets|
      && Size(t) == Size(s) && (t.ht0.buckets == [] <==> s.ht0.buckets == [])
  {
  }

  lemma EraseShape(h: Hash, s: State, k: Key)
    requires Lookup(h, s, k) != None
    ensures var t := Erase(h, s, k);
      && t.rehashidx == s.rehashidx && |t.ht0.buckets| == |s.ht0.buckets| && |t.ht1.buckets| == |s.ht1.buckets|
      && Size(t) == Size(s) - 1
  {
  }

  lemma ReplaceRoom(h: Hash, s: State, k: Key, v: Val, canResize: bool, always: bool, late: nat)
    requires Valid(h, s) && Roomy(s, always, late) && (always ==> canResize)
    ensures Roomy(Replace(h, s, k, v, canResize).0, always, late + (if s.iterators > 0 then 1 else 0))
  {
    hide Valid, Lookup, Add, MaybeStep, SetValue;
    AddDenotes(h, s, k, v, canResize);
    AddRoom(h, s, k, v, canResize, always, late);
    var (t, added) := Add(h, s, k, v, canResize);
    if !added {
      MaybeStepKeeps(h, t);
      MaybeStepRoom(h, t, always, late + (if s.iterators > 0 then 1 else 0));
      SetValueShape(h, MaybeStep(h, t), k, v);
    }
  }

  lemma DeleteRoom(h: Hash, s: State, k: Key, always: bool, late: nat)
    requires Valid(h, s) && Roomy(s, always, late)
    ensures Roomy(Delete(h, s, k).0, always, late)
  {
    hide Valid, Lookup, MaybeStep, Erase;
    if s.ht0.buckets != [] {
      MaybeStepRoom(h, s, always, late);
      var t := MaybeStep(h, s);
      if Lookup(h, t, k) != None {
        EraseShape(h, t, k);
        StillThere(h, s);
      }
    }
  }

  lemma StillThere(h: Hash, s: State)
    requires Valid(h, s) && s.ht0.buckets != []
    ensures MaybeStep(h, s).ht0.buckets != []
  {
  }

  /** Growing is allowed, if it has to be. */
  predicate Allows(op: Op, always: bool)
  {
    always && (op.OpAdd? || op.OpReplace?) ==> op.canResize
  }

  lemma OpRoom(h: Hash, s: State, op: Op, always: bool, late: nat)
    requires Valid(h, s) && Roomy(s, always, late) && Allows(op, always)
    ensures Roomy(Step(h, s, op).0, always, late + LateAdds(s, op))
  {
    hide Valid, Lookup, Add, Replace, Delete, MaybeStep, RehashStep;
    match op
    case OpAdd(k, v, r) => AddRoom(h, s, k, v, r, always, late);
    case OpReplace(k, v, r) => ReplaceRoom(h, s, k, v, r, always, late);
    case OpDelete(k) => DeleteRoom(h, s, k, always, late);
    case OpFind(k) => MaybeStepRoom(h, s, always, late);
    case Rehash => if s.Rehashing() { StepRoom(h, s, always, late); }
    case _ =>
  }

  /** How many adds of a run come while an iterator is open. */
  function AllLate(h: Hash, s: State, ops: seq<Op>): nat
    requires Valid(h, s)
    decreases |ops|
  {
    if ops == [] then 0
    else
      StepValid(h, s, ops[0]);
      LateAdds(s, ops[0]) + AllLate(h, Step(h, s, ops[0]).0, ops[1..])
  }

  lemma {:induction false} RunRoom(h: Hash, s: State, ops: seq<Op>, always: bool, late: nat)
    requires Valid(h, s) && Roomy(s, always, late) && forall op :: op in ops ==> Allows(op, always)
    ensures Valid(h, Run(h, s, ops).0) && Roomy(Run(h, s, ops).0, always, late + AllLate(h, s, ops))
    decreases |ops|
  {
    hide Valid, Step, Roomy, Allows, LateAdds;
    if ops != [] {
      var t, n := Step(h, s, ops[0]).0, LateAdds(s, ops[0]);
      StepValid(h, s, ops[0]);
      OpRoom(h, s, ops[0], always, late);
      RunRoom(h, t, ops[1..], always, late + n);
      assert AllLate(h, s, ops) == n + AllLate(h, t, ops[1..]);
      assert late + n + AllLate(h, t, ops[1..]) == late + AllLate(h, s, ops);
    }
  }

  lemma StepIterators(h: Hash, s: State, op: Op)
    requires Valid(h, s) && s.iterators == 0 && !op.Freeze?
    ensures Step(h, s, op).0.iterators == 0
  {
    hide Valid, Lookup, Add, Replace, Delete, Find;
    match op
    case OpAdd(k, v, r) => AddDenotes(h, s, k, v, r);
    case OpReplace(k, v, r) => ReplaceDenotes(h, s, k, v, r);
    case OpDelete(k) => DeleteDenotes(h, s, k);
    case OpFind(k) => FindDenotes(h, s, k);
    case Rehash => if s.Rehashing() { RehashStepKeeps(h, s); }
    case Thaw =>
  }

  lemma {:induction false} NoneLate(h: Hash, s: State, ops: seq<Op>)
    requires Valid(h, s) && s.iterators == 0 && forall op :: op in ops ==> !op.Freeze?
    ensures AllLate(h, s, ops) == 0
    decreases |ops|
  {
    hide Valid, Step;
    if ops != [] {
      StepValid(h, s, ops[0]);
      StepIterators(h, s, ops[0]);
      NoneLate(h, Step(h, s, ops[0]).0, ops[1..]);
    }
  }

  /** No more than this in the table, or, while it is being migrated, in both. */
  ghost predicate Short(s: State, always: bool, late: nat)
  {
    if s.Rehashing() then Size(s) <= |s.ht1.buckets| + 1 + late
    else if s.ht0.buckets == [] then Size(s) == 0
    else Size(s) <= (if always then |s.ht0.buckets| + 1 else 6 * |s.ht0.buckets|) + late
  }

  lemma RoomyIsShort(h: Hash, s: State, always: bool, late: nat)
    requires Valid(h, s) && Roomy(s, always, late)
    ensures Short(s, always, late)
  {
    if s.ht0.buckets != [] { TablesThere(h, s); }
    hide Valid;
  }

  lemma EmptyIsValid(h: Hash)
    ensures Valid(h, EMPTY)
  {
  }

  /** Chains stay short. After any run from an empty dictionary a table that is not being migrated holds at most one
      entry more than it has buckets if growing was always allowed, and else at most six for each bucket; and of two
      tables the new one has room for all entries but one. To this come the adds made while an iterator was open, if one
      ever was. */
  lemma ChainsStayShort(h: Hash, ops: seq<Op>, always: bool)
    requires forall op :: op in ops ==> Allows(op, always)
    ensures Valid(h, EMPTY) && Short(Run(h, EMPTY, ops).0, always, AllLate(h, EMPTY, ops))
    ensures (forall op :: op in ops ==> !op.Freeze?) ==> AllLate(h, EMPTY, ops) == 0
  {
    EmptyIsValid(h);
    assert Roomy(EMPTY, always, 0);
    hide *;
    RunRoom(h, EMPTY, ops, always, 0);
    RoomyIsShort(h, Run(h, EMPTY, ops).0, always, 0 + AllLate(h, EMPTY, ops));
    if forall op :: op in ops ==> !op.Freeze? { NoneLate(h, EMPTY, ops); }
  }

  // ----- the migration goes on -----

  /** A growth has gone a step further, or the new table has taken over. */
  ghost predicate MovedOn(s: State, t: State)
  {
    || (t.Rehashing() && t.rehashidx > s.rehashidx && |t.ht0.buckets| == |s.ht0.buckets|)
    || |t.ht0.buckets| == |s.ht1.buckets|
  }

  lemma StepMoves(h: Hash, s: State)
    requires Valid(h, s) && s.iterators == 0 && s.Rehashing()
    ensures MovedOn(s, MaybeStep(h, s)) && s.ht0.buckets != []
  {
    RehashStepKeeps(h, s);
    hide Lookup, RehashStep;
  }

  lemma AddMoves(h: Hash, s: State, k: Key, v: Val, canResize: bool)
    requires Valid(h, s) && s.iterators == 0 && s.Rehashing()
    ensures MovedOn(s, Add(h, s, k, v, canResize).0)
  {
    StepMoves(h, s);
    MaybeStepKeeps(h, s);
    StillThere(h, s);
    var t := MaybeStep(h, s);
    ExpandKeeps(h, t, canResize);
    var u := ExpandIfNeeded(t, canResize).value;
    StillHere(t, canResize);
    TablesThere(h, u);
    InsertKeepsShape(h, u, Entry(k, v));
    hide Valid, Lookup, MaybeStep, ExpandIfNeeded, Insert;
  }

  lemma StillHere(s: State, canResize: bool)
    requires ExpandIfNeeded(s, canResize).Some? && s.ht0.buckets != []
    ensures var t := ExpandIfNeeded(s, canResize).value;
      t.ht0 == s.ht0 && (s.Rehashing() ==> t == s)
  {
  }

  /** Each add, find and delete takes a growth one step further, unless an iterator is open. */
  lemma OperationMoves(h: Hash, s: State, op: Op)
    requires Valid(h, s) && s.iterators == 0 && s.Rehashing() && (op.OpAdd? || op.OpDelete? || op.OpFind? || op.Rehash?)
    ensures MovedOn(s, Step(h, s, op).0)
  {
    hide Valid, Lookup, Add, MaybeStep, Erase;
    StepMoves(h, s);
    match op
    case OpAdd(k, v, r) => AddMoves(h, s, k, v, r);
    case OpDelete(k) =>
      if Lookup(h, MaybeStep(h, s), k) != None { EraseShape(h, MaybeStep(h, s), k); }
    case OpFind(k) =>
    case Rehash => RehashIsStep(h, s);
  }

  lemma RehashIsStep(h: Hash, s: State)
    requires Valid(h, s) && s.iterators == 0 && s.Rehashing()
    ensures RehashStep(h, s) == MaybeStep(h, s)
  {
  }
}
