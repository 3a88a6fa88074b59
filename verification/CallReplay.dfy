/** What one call feeds to the log rebuilds, when loaded, exactly what the call did. */
module CallReplay {
  import opened Bytes
  import opened Decimal
  import opened Wire
  import opened Strtol
  import opened Commands
  import opened Keyspace
  import opened BitString
  import opened Effects
  import opened Propagation

  // ----- expire times belong to existing keys -----

  lemma {:induction false} DeleteAllOk(db: Db, keys: Argv)
    requires DbOk(db)
    ensures var (d, dirty) := DeleteAll(db, keys); DbOk(d) && (!dirty ==> d == db)
    decreases |keys|
  {
    if keys != [] {
      DeleteAllOk(DbDelete(db, keys[0]), keys[1..]);
      assert keys[0] !in db.dict ==> DbDelete(db, keys[0]) == db;
    }
  }

  lemma {:induction false} SetFieldsGrows(fields: map<Bytestring, Bytestring>, pairs: Argv)
    ensures fields.Keys <= SetFields(fields, pairs).Keys
    ensures |pairs| >= 2 ==> SetFields(fields, pairs) != map[]
    decreases |pairs|
  {
    if |pairs| >= 2 {
      SetFieldsGrows(fields[pairs[0] := pairs[1]], pairs[2..]);
      assert pairs[0] in SetFields(fields, pairs);
    }
  }

  lemma CollectionsOk(db: Db, key: Bytestring, items: Argv)
    requires DbOk(db) && items != []
    ensures var (d, dirty) := PushTail(db, key, items); DbOk(d) && (!dirty ==> d == db)
    ensures var (d, dirty) := AddMembers(db, key, items); DbOk(d) && (!dirty ==> d == db)
    ensures var (d, dirty) := SetHash(db, key, items); DbOk(d) && (!dirty ==> d == db)
  {
    assert items[0] in Members(items);
    SetFieldsGrows(map[], items);
    if key in db.dict && db.dict[key].Set? {
      var m := db.dict[key].members;
      assert Members(items) <= m ==> m + Members(items) == m;
      assert items[0] in m + Members(items);
    } else if key in db.dict && db.dict[key].Hash? {
      SetFieldsGrows(db.dict[key].fields, items);
    }
  }

  lemma ValuesOk(db: Db, c: Command, argv: Argv, clock: Clock)
    requires DbOk(db) && ArityOk(c, |argv|)
      && c in {Command.Set, SetNx, SetEx, PSetEx, GetSet, SetBit, BitOp, RPush, SAdd, HMSet}
    ensures var (d, dirty, a) := InDb(db, c, argv, clock); DbOk(d) && (!dirty ==> d == db)
  {
    hide AsSet, Milliseconds, BitOpOf, Sources, MaxLen, Result, BitOffset, BitValue, StringOf, SetBitOf, Grow;
    hide PushTail, AddMembers, SetHash;
    if c in {RPush, SAdd, HMSet} { CollectionsOk(db, argv[1], argv[2..]); }
  }

  lemma KeysOk(db: Db, c: Command, argv: Argv, clock: Clock)
    requires DbOk(db) && ArityOk(c, |argv|)
      && c !in {Command.Set, SetNx, SetEx, PSetEx, GetSet, SetBit, BitOp, RPush, SAdd, HMSet}
    ensures var (d, dirty, a) := InDb(db, c, argv, clock); DbOk(d) && (!dirty ==> d == db)
  {
    hide When, DeleteAll, NotEmpty;
    if c == Del { DeleteAllOk(db, argv[1..]); }
  }

  /** Every command keeps expire times on existing keys only, and one that does not count as a
      change makes none. */
  lemma EffectOk(w: World, d: nat, c: Command, argv: Argv, clock: Clock)
    requires WorldOk(w) && d < |w| && ArityOk(c, |argv|)
    ensures var o := Effect(w, d, c, argv, clock); WorldOk(o.w) && (!o.dirty ==> o.w == w)
  {
    hide InDb, Atoi;
    if c != FlushAll && c != Move {
      if c in {Command.Set, SetNx, SetEx, PSetEx, GetSet, SetBit, BitOp, RPush, SAdd, HMSet} {
        ValuesOk(w[d], c, argv, clock);
      } else {
        KeysOk(w[d], c, argv, clock);
      }
    }
  }

  // ----- one command of the log -----

  predicate Plain(c: Command) { c != Select && c != Multi && c != Exec }

  lemma PlainRuns(w: World, d: nat, multi: bool, argv: Argv, t: int)
    requires d < |w| && Runnable(argv) && Plain(Lookup(argv[0]).value)
    ensures RunOne(Fake(w, d, multi), argv, t)
         == Some(Fake(Effect(w, d, Lookup(argv[0]).value, argv, Clock(t, true)).w, d, multi))
  {
    hide Effect, Lookup;
  }

  lemma RunSingle(f: Fake, argv: Argv, t: int)
    requires f.db < |f.w|
    ensures RunAll(f, [argv], t) == RunOne(f, argv, t)
  {
    hide RunOne;
    assert |[argv][1..]| == 0;
  }

  lemma DeleteRuns(w: World, d: nat, multi: bool, key: Bytestring, t: int)
    requires d < |w|
    ensures RunAll(Fake(w, d, multi), [[DEL, key]], t) == Some(Fake(w[d := DbDelete(w[d], key)], d, multi))
  {
    hide Lookup, RunOne;
    Names();
    var argv: Argv := [DEL, key];
    RunSingle(Fake(w, d, multi), argv, t);
    PlainRuns(w, d, multi, argv, t);
    assert argv[1..] == [key] && |[key][1..]| == 0;
    assert DeleteAll(w[d], argv[1..]).0 == DbDelete(w[d], key);
  }

  // ----- lookups -----

  /** The deletions fed so far lead from w to where the lookups have got. */
  ghost predicate Explains(w: World, multi: bool, t: int, s: Lazy)
  {
    |w| > 0 && Apply(w, multi, Deletions(s.gone), t) == Some(Fake(s.w, 0, multi))
  }

  lemma {:induction false} DeletionsSnoc(gone: seq<Target>, x: Target)
    ensures Deletions(gone + [x]) == Deletions(gone) + [Record(x.db, [[DEL, x.key]])]
  {
    if gone == [] {
      assert gone + [x] == [x];
      assert |[x][1..]| == 0;
    } else {
      assert (gone + [x])[1..] == gone[1..] + [x];
      DeletionsSnoc(gone[1..], x);
    }
  }

  lemma TouchExplained(w: World, multi: bool, t: int, s: Lazy, d: nat, key: Bytestring, now: int)
    requires Explains(w, multi, t, s) && d < |s.w| && WorldOk(s.w)
    ensures Explains(w, multi, t, Touch(s, d, key, now)) && WorldOk(Touch(s, d, key, now).w)
  {
    hide RunAll;
    if Expired(s.w[d], key, now) {
      var record := Record(d, [[DEL, key]]);
      DeletionsSnoc(s.gone, Target(d, key));
      ApplyAppend(w, multi, Deletions(s.gone), [record], t);
      DeleteRuns(s.w, d, multi, key, t);
      assert |[record][1..]| == 0;
    }
  }

  lemma {:induction false} TouchSourcesExplained(w: World, multi: bool, t: int, s: Lazy, d: nat, keys: Argv, now: int)
    requires Explains(w, multi, t, s) && d < |s.w| && WorldOk(s.w)
    ensures var u := TouchSources(s, d, keys, now); Explains(w, multi, t, u) && WorldOk(u.w)
    decreases |keys|
  {
    hide Touch, Explains, StringOf;
    if keys != [] {
      var u := Touch(s, d, keys[0], now);
      TouchExplained(w, multi, t, s, d, keys[0], now);
      if StringOf(u.w[d], keys[0]) != None { TouchSourcesExplained(w, multi, t, u, d, keys[1..], now); }
    }
  }

  lemma TouchBothExplained(w: World, multi: bool, t: int, s: Lazy, d: nat, key: Bytestring, e: nat, other: Bytestring,
      now: int)
    requires Explains(w, multi, t, s) && d < |s.w| && e < |s.w| && WorldOk(s.w)
    ensures var u := TouchBoth(s, d, key, e, other, now); Explains(w, multi, t, u) && WorldOk(u.w)
  {
    hide Touch, Explains;
    TouchExplained(w, multi, t, s, d, key, now);
    TouchExplained(w, multi, t, Touch(s, d, key, now), e, other, now);
  }

  lemma TouchBitOpExplained(w: World, multi: bool, t: int, s: Lazy, d: nat, argv: Argv, now: int)
    requires Explains(w, multi, t, s) && d < |s.w| && |argv| >= 4 && WorldOk(s.w)
    ensures var u := TouchBitOp(s, d, argv, now); Explains(w, multi, t, u) && WorldOk(u.w)
  {
    hide Touch, Explains, TouchSources, Sources, BitOpOf, MaxLen;
    TouchSourcesExplained(w, multi, t, s, d, argv[3..], now);
    TouchExplained(w, multi, t, TouchSources(s, d, argv[3..], now), d, argv[2], now);
  }

  /** Whatever a command looks up, the DELs fed on the way account for every key it expires. */
  lemma LookedExplained(w: World, multi: bool, t: int, s: Lazy, d: nat, c: Command, argv: Argv, now: int)
    requires Explains(w, multi, t, s) && d < |s.w| && ArityOk(c, |argv|) && WorldOk(s.w)
    ensures var u := Looked(s, d, c, argv, now); Explains(w, multi, t, u) && WorldOk(u.w)
  {
    hide Touch, Explains, TouchBoth, TouchBitOp, Atoi, AsSet, BitOffset, BitValue, When;
    match c
    case Rename | RenameNx => TouchBothExplained(w, multi, t, s, d, argv[1], d, argv[2], now);
    case Move =>
      var id := Atoi(argv[2]);
      if 0 <= id < |s.w| { TouchBothExplained(w, multi, t, s, d, argv[1], id, argv[1], now); }
    case BitOp => TouchBitOpExplained(w, multi, t, s, d, argv, now);
    case Multi | Exec | FlushDb | FlushAll | Select | Del | Persist =>
    case _ => if LooksUp(c, argv, now) { TouchExplained(w, multi, t, s, d, argv[1], now); }
  }

  // ----- effects -----

  /** A SET with EX or PX, which is logged as it was received, with a time relative to the moment
      it is run. */
  predicate RelativeSet(argv: Argv)
    requires Runnable(argv)
  {
    var c := Lookup(argv[0]).value;
    c == Command.Set && AsSet(c, argv).Some? && AsSet(c, argv).value.ttl.Some?
  }

  lemma PExpireAtRuns(w: World, d: nat, multi: bool, key: Bytestring, when: int, t: int)
    requires d < |w| && Int64(when) && key in w[d].dict
    ensures RunOne(Fake(w, d, multi), [PEXPIREAT, key, Print(when)], t)
         == Some(Fake(w[d := SetExpire(w[d], key, when)], d, multi))
  {
    hide Lookup, RunOne, GetLongLong, Print;
    Names();
    GetLongLongOfPrint(when);
    var argv: Argv := [PEXPIREAT, key, Print(when)];
    PlainRuns(w, d, multi, argv, t);
    assert When(PExpireAt, argv[2], t) == Some(when);
  }

  /** A plain SET, as fed for SETEX and PSETEX and written by a rewrite. */
  lemma SetRuns(w: World, d: nat, multi: bool, key: Bytestring, val: Bytestring, t: int)
    requires d < |w|
    ensures RunOne(Fake(w, d, multi), [SET, key, val], t) == Some(Fake(w[d := SetKey(w[d], key, Str(val))], d, multi))
  {
    hide Lookup, RunOne;
    Names();
    var argv: Argv := [SET, key, val];
    PlainRuns(w, d, multi, argv, t);
    var none: Argv := [];
    assert argv[3..] == none;
  }

  lemma ExpireFed(w: World, d: nat, multi: bool, argv: Argv, now: int, t: int)
    requires d < |w| && Runnable(argv) && Lookup(argv[0]).value in {Expire, PExpire, ExpireAt, PExpireAt}
    requires Effect(w, d, Lookup(argv[0]).value, argv, Clock(now, false)).dirty
    ensures var o := Effect(w, d, Lookup(argv[0]).value, argv, Clock(now, false));
      Runnable(o.argv) && RunAll(Fake(w, d, multi), Translate(o.argv, now), t) == Some(Fake(o.w, d, multi))
  {
    hide Lookup, GetLongLong, RunOne, RunAll;
    Names();
    var c, key := Lookup(argv[0]).value, argv[1];
    var when := When(c, argv[2], now).value;
    var f := Fake(w, d, multi);
    if when <= now {
      DeleteRuns(w, d, multi, key, t);
    } else if c == PExpireAt {
      RunSingle(f, argv, t);
      PlainRuns(w, d, multi, argv, t);
    } else {
      FedIsWhen(c, argv[2], now);
      RunSingle(f, [PEXPIREAT, key, Print(when)], t);
      PExpireAtRuns(w, d, multi, key, when, t);
    }
  }

  /** The feed computes the time anew and arrives at the same one. */
  lemma FedIsWhen(c: Command, text: Bytestring, now: int)
    requires c in {Expire, PExpire, ExpireAt} && When(c, text, now).Some?
    ensures FedWhen(c, text, now) == When(c, text, now).value
  {
    hide Number, Wrap;
  }

  lemma FedIsMilliseconds(c: Command, text: Bytestring, now: int)
    requires c in {SetEx, PSetEx} && Milliseconds(Some(Ttl(text, if c == SetEx then 1000 else 1))).Some?
    ensures FedWhen(c, text, now) ==
      Wrap(Milliseconds(Some(Ttl(text, if c == SetEx then 1000 else 1))).value.value + now)
  {
    hide Number, Wrap;
  }

  lemma SetKeyAdds(db: Db, key: Bytestring, val: Value)
    ensures key in SetKey(db, key, val).dict
  {
  }

  lemma SetExEffect(w: World, d: nat, argv: Argv, now: int)
    requires d < |w| && Runnable(argv) && Lookup(argv[0]).value in {SetEx, PSetEx}
    requires Effect(w, d, Lookup(argv[0]).value, argv, Clock(now, false)).dirty
    ensures var c := Lookup(argv[0]).value;
      Effect(w, d, c, argv, Clock(now, false)).w
      == w[d := SetExpire(SetKey(w[d], argv[1], Str(argv[3])), argv[1], FedWhen(c, argv[2], now))]
  {
    hide Lookup, GetLongLong, Wrap, SetKey, SetExpire, FedWhen;
    FedIsMilliseconds(Lookup(argv[0]).value, argv[2], now);
  }

  lemma SetExFed(w: World, d: nat, multi: bool, argv: Argv, now: int, t: int)
    requires d < |w| && Runnable(argv) && Lookup(argv[0]).value in {SetEx, PSetEx}
    requires Effect(w, d, Lookup(argv[0]).value, argv, Clock(now, false)).dirty
    ensures RunAll(Fake(w, d, multi), Translate(argv, now), t)
         == Some(Fake(Effect(w, d, Lookup(argv[0]).value, argv, Clock(now, false)).w, d, multi))
  {
    hide Lookup, RunOne, RunAll, FedWhen, SetKey, SetExpire, Effect;
    var c, key, val, f := Lookup(argv[0]).value, argv[1], argv[3], Fake(w, d, multi);
    SetExEffect(w, d, argv, now);
    var when := FedWhen(c, argv[2], now);
    var v := w[d := SetKey(w[d], key, Str(val))];
    assert v[d := SetExpire(v[d], key, when)] == w[d := SetExpire(v[d], key, when)];
    assert key in v[d].dict by { assert v[d] == SetKey(w[d], key, Str(val)); SetKeyAdds(w[d], key, Str(val)); }
    assert Translate(argv, now) == [[SET, key, val]] + [[PEXPIREAT, key, Print(when)]];
    RunAllAppend(f, [[SET, key, val]], [[PEXPIREAT, key, Print(when)]], t);
    RunSingle(f, [SET, key, val], t);
    SetRuns(w, d, multi, key, val, t);
    RunSingle(Fake(v, d, multi), [PEXPIREAT, key, Print(when)], t);
    PExpireAtRuns(v, d, multi, key, when, t);
  }

  lemma OtherFed(w: World, d: nat, multi: bool, argv: Argv, now: int, t: int)
    requires d < |w| && Runnable(argv) && Plain(Lookup(argv[0]).value) && !RelativeSet(argv)
    requires Lookup(argv[0]).value !in {Expire, PExpire, ExpireAt, PExpireAt, SetEx, PSetEx}
    ensures RunAll(Fake(w, d, multi), Translate(argv, now), t)
         == Some(Fake(Effect(w, d, Lookup(argv[0]).value, argv, Clock(now, false)).w, d, multi))
  {
    hide Lookup, RunOne, RunAll, Effect, SetOptions;
    RunSingle(Fake(w, d, multi), argv, t);
    PlainRuns(w, d, multi, argv, t);
    TimelessEffect(w, d, Lookup(argv[0]).value, argv, Clock(now, false), Clock(t, true));
  }

  /** A change is fed so that loading it makes the same change, at whatever time it is loaded. */
  lemma EffectFed(w: World, d: nat, multi: bool, argv: Argv, now: int, t: int)
    requires d < |w| && Runnable(argv) && !RelativeSet(argv)
    requires Effect(w, d, Lookup(argv[0]).value, argv, Clock(now, false)).dirty
    ensures var o := Effect(w, d, Lookup(argv[0]).value, argv, Clock(now, false));
      Runnable(o.argv) && RunAll(Fake(w, d, multi), Translate(o.argv, now), t) == Some(Fake(o.w, d, multi))
  {
    var c := Lookup(argv[0]).value;
    DirtyIsPlain(w, d, c, argv, Clock(now, false));
    hide Lookup, RunOne, RunAll, Effect, Translate, RelativeSet;
    if c in {Expire, PExpire, ExpireAt, PExpireAt} {
      ExpireFed(w, d, multi, argv, now, t);
    } else {
      if c in {SetEx, PSetEx} { SetExFed(w, d, multi, argv, now, t); } else { OtherFed(w, d, multi, argv, now, t); }
    }
  }

  lemma DirtyIsPlain(w: World, d: nat, c: Command, argv: Argv, clock: Clock)
    requires d < |w| && ArityOk(c, |argv|) && Effect(w, d, c, argv, clock).dirty
    ensures Plain(c) && (c !in {Expire, PExpire, ExpireAt, PExpireAt} ==> Effect(w, d, c, argv, clock).argv == argv)
  {
    hide SetKey, StringOf, DeleteAll, RenameGeneric, PersistKey, SetBitAt, BitOpKeys, PushTail, AddMembers, SetHash,
      MoveKey;
    hide BitOffset, BitValue, GetLongLong, EmptyWorld, Atoi, SetGeneric, AsSet;
  }

  // ----- SET with EX or PX -----

  lemma WrapApart(a: int, b: int, ms: int)
    requires Int64(ms) && 0 <= a <= INT64_MAX && 0 <= b <= INT64_MAX && Wrap(a + ms) == Wrap(b + ms)
    ensures a == b
  {
    var x, y, m := a + ms + 0x8000_0000_0000_0000, b + ms + 0x8000_0000_0000_0000, 0x1_0000_0000_0000_0000;
    assert x - x / m * m == y - y / m * m;
    assert x / m == y / m;
  }

  lemma RelativeSetGeneric(db: Db, r: SetRequest, now: int, t: int)
    requires r.ttl.Some? && SetGeneric(db, r, now).1 && 0 <= now <= INT64_MAX && 0 <= t <= INT64_MAX
    ensures SetGeneric(db, r, now).0 == SetGeneric(db, r, t).0 <==> t == now
  {
    hide GetLongLong, Wrap;
    var ms := Milliseconds(r.ttl).value.value;
    assert SetGeneric(db, r, now).0.expires[r.key] == Wrap(now + ms);
    assert SetGeneric(db, r, t).0.expires[r.key] == Wrap(t + ms);
    if Wrap(now + ms) == Wrap(t + ms) { WrapApart(now, t, ms); }
  }

  lemma SetEffect(w: World, d: nat, argv: Argv, clock: Clock)
    requires d < |w| && Runnable(argv) && RelativeSet(argv)
    ensures var (db, dirty) := SetGeneric(w[d], AsSet(Command.Set, argv).value, clock.now);
      Effect(w, d, Command.Set, argv, clock) == Outcome(w[d := db], dirty, argv)
  {
    hide Lookup, AsSet, SetGeneric;
  }

  /** A SET with EX or PX that goes through is rebuilt only if it is loaded in the very millisecond
      in which it ran. */
  lemma RelativeSetFed(w: World, d: nat, multi: bool, argv: Argv, now: int, t: int)
    requires d < |w| && Runnable(argv) && RelativeSet(argv) && 0 <= now <= INT64_MAX && 0 <= t <= INT64_MAX
    requires Effect(w, d, Command.Set, argv, Clock(now, false)).dirty
    ensures var v := Effect(w, d, Command.Set, argv, Clock(now, false)).w;
      RunAll(Fake(w, d, multi), Translate(argv, now), t) == Some(Fake(v, d, multi)) <==> t == now
  {
    SetEffect(w, d, argv, Clock(now, false));
    SetEffect(w, d, argv, Clock(t, true));
    hide Lookup, RunOne, RunAll, AsSet, SetGeneric, Effect;
    RunSingle(Fake(w, d, multi), argv, t);
    PlainRuns(w, d, multi, argv, t);
    var r := AsSet(Command.Set, argv).value;
    RelativeSetGeneric(w[d], r, now, t);
    var before, after := SetGeneric(w[d], r, now).0, SetGeneric(w[d], r, t).0;
    assert w[d := before][d] == before && w[d := after][d] == after;
  }

  /** The call sets a key with a relative time to live, and not by SETEX or PSETEX. */
  predicate SetsRelativeTime(w: World, d: nat, argv: Argv, now: int)
    requires d < |w| && Runnable(argv)
  {
    RelativeSet(argv) &&
    Effect(Looked(Lazy(w, []), d, Command.Set, argv, now).w, d, Command.Set, argv, Clock(now, false)).dirty
  }

  /** One call, exactly: the records it feeds, loaded at time t into the databases it started from,
      inside a transaction or not, give the databases it left, if and only if it does not set a
      relative time to live by SET or t is the very time at which it ran. */
  lemma CallReplays(w: World, d: nat, argv: Argv, now: int, multi: bool, t: int)
    requires WorldOk(w) && d < |w| && Runnable(argv) && 0 <= now <= INT64_MAX && 0 <= t <= INT64_MAX
    ensures var r := Call(w, d, argv, now);
      && WorldOk(r.w)
      && (Apply(w, multi, r.fed, t) == Some(Fake(r.w, 0, multi)) <==> t == now || !SetsRelativeTime(w, d, argv, now))
  {
    hide Lookup, RunAll, Effect, Translate, RelativeSet, Looked, WorldOk;
    var c := Lookup(argv[0]).value;
    var s := Looked(Lazy(w, []), d, c, argv, now);
    var clock := Clock(now, false);
    LookedExplained(w, multi, t, Lazy(w, []), d, c, argv, now);
    EffectOk(s.w, d, c, argv, clock);
    RewrittenRunnable(s.w, d, argv, clock);
    var o := Effect(s.w, d, c, argv, clock);
    var nil: seq<Record> := [];
    if o.dirty {
      var last := [Record(d, Translate(o.argv, now))];
      ApplyAppend(w, multi, Deletions(s.gone), last, t);
      assert last[1..] == nil;
      RelativeIsSet(argv);
      if RelativeSet(argv) {
        DirtyIsPlain(s.w, d, c, argv, clock);
        RelativeSetFed(s.w, d, multi, argv, now, t);
      } else {
        EffectFed(s.w, d, multi, argv, now, t);
      }
    } else {
      assert Deletions(s.gone) + nil == Deletions(s.gone);
      RelativeIsSet(argv);
    }
  }

  lemma RelativeIsSet(argv: Argv)
    requires Runnable(argv)
    ensures RelativeSet(argv) ==> Lookup(argv[0]) == Some(Command.Set)
  {
    hide Lookup;
  }

  // ----- transactions -----

  /** EXEC under way: the client's database, what has been fed, and whether MULTI is part of it. */
  datatype Txn = Txn(w: World, db: nat, fed: seq<Record>, open: bool)

  /** A queued command, and the time at which EXEC comes to it. */
  datatype Queued = Queued(argv: Argv, now: int)

  /** What processCommand queues: EXEC, DISCARD, MULTI and WATCH are run at once instead. */
  predicate Queueable(q: Queued)
  {
    Runnable(q.argv) && Lookup(q.argv[0]).value != Multi && Lookup(q.argv[0]).value != Exec
  }

  function Opening(x: Txn, c: Command): seq<Record>
  {
    if !x.open && !ReadOnly(c) then [Record(x.db, [[MULTI]])] else []
  }

  function ExecOne(x: Txn, q: Queued): (y: Txn)
    requires x.db < |x.w| && Queueable(q)
    ensures |y.w| == |x.w| && y.db < |y.w|
  {
    var c := Lookup(q.argv[0]).value;
    var r := Call(x.w, x.db, q.argv, q.now);
    Txn(r.w, if c == Select then SelectedDb(q.argv[1], x.db, |x.w|) else x.db,
        x.fed + Opening(x, c) + r.fed, x.open || !ReadOnly(c))
  }

  function ExecQueue(x: Txn, queue: seq<Queued>): (y: Txn)
    requires x.db < |x.w| && forall q :: q in queue ==> Queueable(q)
    ensures |y.w| == |x.w| && y.db < |y.w|
    decreases |queue|
  {
    if queue == [] then x else assert queue[0] in queue; ExecQueue(ExecOne(x, queue[0]), queue[1..])
  }

  /** execCommand: EXEC itself is fed last, if MULTI was. */
  function Transaction(w: World, d: nat, queue: seq<Queued>, exec: Argv): Called
    requires d < |w| && forall q :: q in queue ==> Queueable(q)
  {
    var x := ExecQueue(Txn(w, d, [], false), queue);
    Called(x.w, x.fed + (if x.open then [Record(x.db, [exec])] else []))
  }

  ghost predicate TxnExplained(w: World, t: int, x: Txn)
  {
    WorldOk(x.w) && x.db < |x.w| == |w| && Apply(w, false, x.fed, t) == Some(Fake(x.w, 0, x.open))
  }

  lemma OpeningApplies(x: Txn, c: Command, t: int)
    requires x.db < |x.w|
    ensures Apply(x.w, x.open, Opening(x, c), t) == Some(Fake(x.w, 0, x.open || !ReadOnly(c)))
  {
    hide Lookup, RunOne;
    Names();
    if !x.open && !ReadOnly(c) {
      var multi: Argv := [MULTI];
      var f := Fake(x.w, x.db, false);
      RunSingle(f, multi, t);
      assert RunOne(f, multi, t) == Some(f.(multi := true)) by { MultiRuns(f, t); }
      assert |Opening(x, c)[1..]| == 0;
    }
  }

  lemma MultiRuns(f: Fake, t: int)
    requires f.db < |f.w|
    ensures RunOne(f, [MULTI], t) == Some(f.(multi := true))
  {
    hide Lookup, Effect, SelectedDb;
    Names();
  }

  lemma ExecRuns(f: Fake, exec: Argv, t: int)
    requires f.db < |f.w| && Runnable(exec) && Lookup(exec[0]).value == Exec
    ensures RunOne(f, exec, t) == Some(f.(multi := false))
  {
    hide Lookup, Effect, SelectedDb;
  }

  lemma ExecOneExplained(w: World, t: int, x: Txn, q: Queued)
    requires TxnExplained(w, t, x) && Queueable(q) && 0 <= q.now <= INT64_MAX && 0 <= t <= INT64_MAX
    requires !SetsRelativeTime(x.w, x.db, q.argv, q.now)
    ensures TxnExplained(w, t, ExecOne(x, q))
  {
    hide Lookup, Call, Apply, SetsRelativeTime, SelectedDb, Opening;
    var c := Lookup(q.argv[0]).value;
    var open := x.open || !ReadOnly(c);
    var r := Call(x.w, x.db, q.argv, q.now);
    OpeningApplies(x, c, t);
    ApplyAppend(w, false, x.fed, Opening(x, c), t);
    CallReplays(x.w, x.db, q.argv, q.now, open, t);
    ApplyAppend(w, false, x.fed + Opening(x, c), r.fed, t);
  }

  /** No queued command, when EXEC comes to it, sets a relative time to live by SET. */
  predicate QueueKeepsTime(x: Txn, queue: seq<Queued>)
    requires x.db < |x.w| && forall q :: q in queue ==> Queueable(q)
    decreases |queue|
  {
    if queue == [] then true
    else
      var q := queue[0];
      assert q in queue && Queueable(q);
      && 0 <= q.now <= INT64_MAX
      && !SetsRelativeTime(x.w, x.db, q.argv, q.now)
      && QueueKeepsTime(ExecOne(x, q), queue[1..])
  }

  lemma {:induction false} QueueExplained(w: World, t: int, x: Txn, queue: seq<Queued>)
    requires TxnExplained(w, t, x) && 0 <= t <= INT64_MAX
    requires (forall q :: q in queue ==> Queueable(q)) && QueueKeepsTime(x, queue)
    ensures TxnExplained(w, t, ExecQueue(x, queue))
    decreases |queue|
  {
    if queue != [] {
      hide Queueable, SetsRelativeTime, ExecOne;
      ExecOneExplained(w, t, x, queue[0]);
      QueueExplained(w, t, ExecOne(x, queue[0]), queue[1..]);
    }
  }

  /** A whole transaction, with SELECTs in it or not, is rebuilt by the records it feeds, and they
      leave the loader outside MULTI. */
  lemma TransactionReplays(w: World, d: nat, queue: seq<Queued>, exec: Argv, t: int)
    requires WorldOk(w) && d < |w| && 0 <= t <= INT64_MAX && Runnable(exec) && Lookup(exec[0]).value == Exec
    requires (forall q :: q in queue ==> Queueable(q)) && QueueKeepsTime(Txn(w, d, [], false), queue)
    ensures var r := Transaction(w, d, queue, exec);
      WorldOk(r.w) && |r.w| == |w| && Apply(w, false, r.fed, t) == Some(Fake(r.w, 0, false))
  {
    hide Lookup, RunOne, WorldOk, ExecQueue, QueueKeepsTime, Queueable;
    QueueExplained(w, t, Txn(w, d, [], false), queue);
    var x := ExecQueue(Txn(w, d, [], false), queue);
    if x.open {
      var last := [Record(x.db, [exec])];
      var f := Fake(x.w, x.db, true);
      RunSingle(f, exec, t);
      ExecRuns(f, exec, t);
      assert |last[1..]| == 0;
      ApplyAppend(w, false, x.fed, last, t);
    } else {
      var nil: seq<Record> := [];
      assert x.fed + nil == x.fed;
    }
  }
}
