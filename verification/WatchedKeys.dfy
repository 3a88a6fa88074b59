/** What WATCH is for: db.c, t_*.c and bitops.c signal the keys they change, and multi.c keeps a transaction from
    running over a change to a key it watched. */
module WatchedKeys {
  import opened Bytes
  import opened Wire
  import opened Strtol
  import opened Commands
  import opened Keyspace
  import opened BitString
  import opened Effects
  import opened Propagation
  import opened CallReplay
  import opened WatchModel

  /** A key's value and expire time, or its absence. */
  datatype Sight = Sight(value: Option<Value>, expire: int)

  function See(db: Db, k: Bytestring): Sight
  {
    Sight(if k in db.dict then Some(db.dict[k]) else None, GetExpire(db, k))
  }

  function Look(w: World, t: Target): Sight
  {
    if t.db < |w| then See(w[t.db], t.key) else Sight(None, -1)
  }

  // ----- what each command signals -----

  /** delCommand: a key that is there when its turn comes. */
  function Deleted(db: Db, keys: Argv): seq<Bytestring>
    decreases |keys|
  {
    if keys == [] then []
    else (if keys[0] in db.dict then [keys[0]] else []) + Deleted(DbDelete(db, keys[0]), keys[1..])
  }

  function BitOpSignals(db: Db, argv: Argv): seq<Bytestring>
    requires |argv| >= 4
  {
    if BitOpOf(argv) == None then []
    else
      match Sources(db, argv[3..])
      case None => []
      case Some(srcs) => if MaxLen(srcs) > 0 || argv[2] in db.dict then [argv[2]] else []
  }

  /** The calls of signalModifiedKey, in order, of a command that stays inside its database. */
  function Signals(db: Db, c: Command, argv: Argv, clock: Clock): seq<Bytestring>
    requires ArityOk(c, |argv|)
  {
    match c
    case Del => Deleted(db, argv[1..])
    case BitOp => BitOpSignals(db, argv)
    case Rename | RenameNx => if InDb(db, c, argv, clock).1 then [argv[1], argv[2]] else []
    case Move | Persist | FlushDb | FlushAll => []
    case Get | Exists | Type | GetBit | Select | Multi | Exec => []
    case _ => if InDb(db, c, argv, clock).1 then [argv[1]] else []
  }

  lemma {:induction false} DeletedAre(db: Db, keys: Argv, k: Bytestring)
    ensures k in Deleted(db, keys) <==> k in keys && k in db.dict
    decreases |keys|
  {
    if keys != [] {
      var next := DbDelete(db, keys[0]);
      DeletedAre(next, keys[1..], k);
      assert k in keys <==> k == keys[0] || k in keys[1..];
      assert k in next.dict <==> k != keys[0] && k in db.dict;
    }
  }

  lemma {:induction false} DeletionCounts(db: Db, keys: Argv, k: Bytestring)
    requires k in keys && k in db.dict
    ensures DeleteAll(db, keys).1
    decreases |keys|
  {
    if keys[0] != k { DeletionCounts(DbDelete(db, keys[0]), keys[1..], k); }
  }

  lemma TargetSignalled(db: Db, argv: Argv, k: Bytestring)
    requires |argv| >= 4
    ensures var r := BitOpKeys(db, argv);
      k in BitOpSignals(db, argv) <==> r.1 && k == argv[2] && (k in db.dict || k in r.0.dict)
  {
    hide BitOpOf, Sources, MaxLen, Result, FromBits;
  }

  lemma KeySignalled(db: Db, c: Command, argv: Argv, clock: Clock, k: Bytestring)
    requires ArityOk(c, |argv|) && c !in {Del, Rename, RenameNx, BitOp}
    ensures k in Signals(db, c, argv, clock) <==>
      InDb(db, c, argv, clock).1 && !Unsignalled(c) && !Empties(c) && k == argv[1]
  {
    hide AsSet, SetGeneric, ExpireGeneric, AddMembers, SetBitAt, PushTail, SetHash, StringOf, BitOffset, BitValue;
  }

  lemma KeysSignalled(db: Db, c: Command, argv: Argv, clock: Clock, k: Bytestring)
    requires ArityOk(c, |argv|) && c in {Del, Rename, RenameNx}
    ensures k in Signals(db, c, argv, clock) <==>
      InDb(db, c, argv, clock).1
      && if c == Del then k in argv[1..] && k in db.dict else k == argv[1] || k == argv[2]
  {
    hide RenameGeneric, Deleted, DeleteAll;
    if c == Del {
      DeletedAre(db, argv[1..], k);
      if k in argv[1..] && k in db.dict { DeletionCounts(db, argv[1..], k); }
    }
  }

  /** Nothing is signalled but by a command that counts as a change: DEL signals the keys that were there, RENAME both
      of its keys, BITOP its target unless that was not there and is not there, MOVE, PERSIST and the commands that
      empty databases nothing, and all others their key. */
  lemma SignalledAre(db: Db, c: Command, argv: Argv, clock: Clock, k: Bytestring)
    requires ArityOk(c, |argv|)
    ensures k in Signals(db, c, argv, clock) <==>
      var r := InDb(db, c, argv, clock);
      && r.1
      && (if c == Del then k in argv[1..] && k in db.dict
          else if c == Rename || c == RenameNx then k == argv[1] || k == argv[2]
          else if c == BitOp then k == argv[2] && (k in db.dict || k in r.0.dict)
          else !Unsignalled(c) && !Empties(c) && k == argv[1])
  {
    if c == BitOp {
      TargetSignalled(db, argv, k);
      hide BitOpKeys, BitOpSignals;
    } else if c in {Del, Rename, RenameNx} {
      hide InDb, Signals;
      KeysSignalled(db, c, argv, clock, k);
    } else {
      hide InDb, Signals;
      KeySignalled(db, c, argv, clock, k);
    }
  }

  /** MOVE and PERSIST change keys and signal nothing. */
  predicate Unsignalled(c: Command) { c == Move || c == Persist }

  predicate Empties(c: Command) { c == FlushDb || c == FlushAll }

  lemma {:induction false} DeletedSignals(db: Db, keys: Argv, k: Bytestring)
    requires DbOk(db) && See(DeleteAll(db, keys).0, k) != See(db, k)
    ensures k in Deleted(db, keys)
    decreases |keys|
  {
    if keys != [] {
      var next := DbDelete(db, keys[0]);
      if k != keys[0] || k !in db.dict {
        assert See(next, k) == See(db, k);
        DeletedSignals(next, keys[1..], k);
      }
    }
  }

  lemma SetSignals(db: Db, r: SetRequest, now: int, k: Bytestring)
    requires See(SetGeneric(db, r, now).0, k) != See(db, k)
    ensures k == r.key && SetGeneric(db, r, now).1
  {
    hide Milliseconds, Wrap;
  }

  lemma RenameSignals(db: Db, from: Bytestring, to: Bytestring, nx: bool, k: Bytestring)
    requires See(RenameGeneric(db, from, to, nx).0, k) != See(db, k)
    ensures (k == from || k == to) && RenameGeneric(db, from, to, nx).1
  {
  }

  lemma ExpireSignals(db: Db, c: Command, argv: Argv, clock: Clock, k: Bytestring)
    requires |argv| == 3 && See(ExpireGeneric(db, c, argv, clock).0, k) != See(db, k)
    ensures k == argv[1] && ExpireGeneric(db, c, argv, clock).1
  {
    hide When;
  }

  lemma BitOpChanges(db: Db, argv: Argv, k: Bytestring)
    requires DbOk(db) && |argv| >= 4 && See(BitOpKeys(db, argv).0, k) != See(db, k)
    ensures k in BitOpSignals(db, argv)
  {
    hide BitOpOf, Sources, MaxLen, Result, FromBits;
  }

  lemma AddSignals(db: Db, key: Bytestring, items: Argv, k: Bytestring)
    ensures See(AddMembers(db, key, items).0, k) == See(db, k) || (k == key && AddMembers(db, key, items).1)
  {
    hide Members;
    if key in db.dict && db.dict[key].Set? && Members(items) <= db.dict[key].members {
      assert db.dict[key].members + Members(items) == db.dict[key].members;
    }
  }

  lemma StringSignals(db: Db, c: Command, argv: Argv, clock: Clock, k: Bytestring)
    requires ArityOk(c, |argv|) && c in {GetSet, SetBit, RPush, HMSet}
      && See(InDb(db, c, argv, clock).0, k) != See(db, k)
    ensures k == argv[1] && InDb(db, c, argv, clock).1
  {
    hide BitOffset, BitValue, WithBit, SetFields;
  }

  lemma WritesAreSignalled(db: Db, c: Command, argv: Argv, clock: Clock, k: Bytestring)
    requires c in {Command.Set, SetNx, SetEx, PSetEx, SAdd, BitOp}
    requires DbOk(db) && ArityOk(c, |argv|) && See(InDb(db, c, argv, clock).0, k) != See(db, k)
    ensures k in Signals(db, c, argv, clock)
  {
    hide AsSet, SetGeneric, RenameGeneric, ExpireGeneric, BitOpKeys, BitOpSignals, AddMembers, DeleteAll, Deleted,
      SetBitAt,
      PushTail, SetHash, StringOf, BitOffset, BitValue, See;
    if c == BitOp {
      BitOpChanges(db, argv, k);
    } else if c == SAdd {
      AddSignals(db, argv[1], argv[2..], k);
    } else if AsSet(c, argv).Some? {
      RequestKey(c, argv);
      SetSignals(db, AsSet(c, argv).value, clock.now, k);
    }
  }

  lemma KeyChangesAreSignalled(db: Db, c: Command, argv: Argv, clock: Clock, k: Bytestring)
    requires c in {Del, Rename, RenameNx, Expire, PExpire, ExpireAt, PExpireAt}
    requires DbOk(db) && ArityOk(c, |argv|) && See(InDb(db, c, argv, clock).0, k) != See(db, k)
    ensures k in Signals(db, c, argv, clock)
  {
    hide AsSet, SetGeneric, RenameGeneric, ExpireGeneric, BitOpKeys, BitOpSignals, AddMembers, DeleteAll, Deleted,
      SetBitAt,
      PushTail, SetHash, StringOf, BitOffset, BitValue, See;
    if c == Del {
      DeletedSignals(db, argv[1..], k);
    } else if c == Rename || c == RenameNx {
      RenameSignals(db, argv[1], argv[2], c == RenameNx, k);
    } else {
      ExpireSignals(db, c, argv, clock, k);
    }
  }

  /** Whatever such a command changes, it signals. */
  lemma ChangesAreSignalled(db: Db, c: Command, argv: Argv, clock: Clock, k: Bytestring)
    requires DbOk(db) && ArityOk(c, |argv|) && !Unsignalled(c) && !Empties(c)
    requires See(InDb(db, c, argv, clock).0, k) != See(db, k)
    ensures k in Signals(db, c, argv, clock)
  {
    if c in {GetSet, SetBit, RPush, HMSet} {
      StringSignals(db, c, argv, clock, k);
      hide InDb;
    } else if c in {Command.Set, SetNx, SetEx, PSetEx, SAdd, BitOp} {
      WritesAreSignalled(db, c, argv, clock, k);
    } else if c in {Del, Rename, RenameNx, Expire, PExpire, ExpireAt, PExpireAt} {
      KeyChangesAreSignalled(db, c, argv, clock, k);
    }
  }

  // ----- lookups, which signal nothing -----

  const NOTHING := Sight(None, -1)

  /** The lookups have changed nothing but the keys they expired, each of which was there. */
  ghost predicate OnlyGone(w: World, s: Lazy)
  {
    && WorldOk(s.w) && |s.w| == |w|
    && (forall t :: t !in s.gone ==> Look(s.w, t) == Look(w, t))
    && (forall t :: t in s.gone ==> Look(s.w, t) == NOTHING && Look(w, t).expire >= 0)
  }

  lemma TouchOnly(w: World, s: Lazy, d: nat, key: Bytestring, now: int)
    requires OnlyGone(w, s) && d < |s.w|
    ensures OnlyGone(w, Keyspace.Touch(s, d, key, now))
  {
    if Expired(s.w[d], key, now) {
      var u := Keyspace.Touch(s, d, key, now);
      forall t | t !in u.gone ensures Look(u.w, t) == Look(w, t) {
        assert t !in s.gone && t != Target(d, key) by { assert u.gone[|s.gone|] == Target(d, key); }
      }
      forall t | t in u.gone ensures Look(u.w, t) == NOTHING && Look(w, t).expire >= 0 {
        assert t in s.gone || t == Target(d, key);
      }
    }
  }

  lemma {:induction false} TouchSourcesOnly(w: World, s: Lazy, d: nat, keys: Argv, now: int)
    requires OnlyGone(w, s) && d < |s.w|
    ensures OnlyGone(w, TouchSources(s, d, keys, now))
    decreases |keys|
  {
    hide OnlyGone, Keyspace.Touch, StringOf;
    if keys != [] {
      TouchOnly(w, s, d, keys[0], now);
      TouchSourcesOnly(w, Keyspace.Touch(s, d, keys[0], now), d, keys[1..], now);
    }
  }

  lemma TouchBothOnly(w: World, s: Lazy, d: nat, key: Bytestring, e: nat, other: Bytestring, now: int)
    requires OnlyGone(w, s) && d < |s.w| && e < |s.w|
    ensures OnlyGone(w, TouchBoth(s, d, key, e, other, now))
  {
    hide OnlyGone, Keyspace.Touch;
    TouchOnly(w, s, d, key, now);
    TouchOnly(w, Keyspace.Touch(s, d, key, now), e, other, now);
  }

  lemma TouchBitOpOnly(w: World, s: Lazy, d: nat, argv: Argv, now: int)
    requires OnlyGone(w, s) && d < |s.w| && |argv| >= 4
    ensures OnlyGone(w, TouchBitOp(s, d, argv, now))
  {
    hide OnlyGone, Keyspace.Touch, TouchSources, Sources, MaxLen, BitOpOf;
    TouchSourcesOnly(w, s, d, argv[3..], now);
    TouchOnly(w, TouchSources(s, d, argv[3..], now), d, argv[2], now);
  }

  lemma NothingGone(w: World)
    requires WorldOk(w)
    ensures OnlyGone(w, Lazy(w, []))
  {
  }

  lemma LookedOnly(w: World, d: nat, c: Command, argv: Argv, now: int)
    requires WorldOk(w) && d < |w| && ArityOk(c, |argv|)
    ensures OnlyGone(w, Looked(Lazy(w, []), d, c, argv, now))
  {
    var s := Lazy(w, []);
    NothingGone(w);
    hide OnlyGone, Keyspace.Touch, TouchBoth, TouchBitOp, Atoi, AsSet, BitOffset, BitValue, When;
    match c
    case Rename | RenameNx => TouchBothOnly(w, s, d, argv[1], d, argv[2], now);
    case Move =>
      var id := Atoi(argv[2]);
      if 0 <= id < |w| { TouchBothOnly(w, s, d, argv[1], id, argv[1], now); }
    case BitOp => TouchBitOpOnly(w, s, d, argv, now);
    case Multi | Exec | FlushDb | FlushAll | Select | Del | Persist =>
    case _ => if LooksUp(c, argv, now) { TouchOnly(w, s, d, argv[1], now); }
  }

  // ----- the server, its keys and one client -----

  /** A command that is called, an active expiry or eviction, or something that concerns transactions only. */
  datatype Happening = Called(db: nat, argv: Argv, now: int) | Dropped(db: nat, key: Bytestring) | Told(e: Event)

  ghost predicate CanHappen(w: World, h: Happening)
  {
    match h
    case Called(d, argv, now) => d < |w| && Runnable(argv)
    case Dropped(d, key) => d < |w|
    case Told(e) => !e.Touch? && !e.Flush?
  }

  function Looks(w: World, d: nat, argv: Argv, now: int): Lazy
    requires d < |w| && Runnable(argv)
  {
    Looked(Lazy(w, []), d, Lookup(argv[0]).value, argv, now)
  }

  function AfterHappening(w: World, h: Happening): (v: World)
    requires CanHappen(w, h)
    ensures |v| == |w|
  {
    match h
    case Called(d, argv, now) => Call(w, d, argv, now).w
    case Dropped(d, key) => w[d := DbDelete(w[d], key)]
    case Told(_) => w
  }

  function Present(w: World): set<Target>
  {
    set d: nat, k | d < |w| && k in w[d].dict :: Target(d, k)
  }

  function Touches(d: nat, keys: seq<Bytestring>): (es: seq<Event>)
    ensures |es| == |keys|
  {
    seq(|keys|, i requires 0 <= i < |keys| => Event.Touch(Target(d, keys[i])))
  }

  /** What the transactions see of it. */
  function Seen(w: World, h: Happening): seq<Event>
    requires CanHappen(w, h)
  {
    match h
    case Called(d, argv, now) =>
      var c, v := Lookup(argv[0]).value, Looks(w, d, argv, now).w;
      if c == FlushDb then [Flush(d, Present(v))]
      else if c == FlushAll then [Flush(-1, Present(v))]
      else Touches(d, Signals(v[d], c, argv, Clock(now, false)))
    case Dropped(_, _) => []
    case Told(e) => [e]
  }

  /** MOVE, when its lookups have left the databases so, goes through. */
  predicate Moves(w: World, d: nat, key: Bytestring, id: int)
    requires d < |w|
  {
    0 <= id < |w| && id != d && key in w[d].dict && key !in w[id].dict
  }

  /** The call changes the key and tells nobody: it takes its expire time by PERSIST, moves it away or hither, or
      expires it on a lookup and then does not signal it for another reason. */
  ghost predicate CallUntold(w: World, d: nat, argv: Argv, now: int, t: Target)
    requires d < |w| && Runnable(argv)
  {
    var c, s := Lookup(argv[0]).value, Looks(w, d, argv, now);
    || (c == Persist && t == Target(d, argv[1]) && GetExpire(w[d], argv[1]) != -1)
    || (c == Move && Moves(s.w, d, argv[1], Atoi(argv[2]))
        && (t == Target(d, argv[1]) || t == Target(Atoi(argv[2]), argv[1])))
    || (t in s.gone && !(t.db == d && t.key in Signals(s.w[d], c, argv, Clock(now, false))))
  }

  /** The same of all that can happen; a Dropped key is an expiry or an eviction. */
  ghost predicate Untold(w: World, h: Happening, t: Target)
    requires CanHappen(w, h)
  {
    match h
    case Called(d, argv, now) => CallUntold(w, d, argv, now, t)
    case Dropped(d, key) => t == Target(d, key) && key in w[d].dict
    case Told(_) => false
  }

  lemma HappeningOk(w: World, h: Happening)
    requires WorldOk(w) && CanHappen(w, h)
    ensures WorldOk(AfterHappening(w, h))
  {
    match h
    case Called(d, argv, now) =>
      hide Lookup, Looked, Effect, WorldOk;
      var c := Lookup(argv[0]).value;
      LookedOnly(w, d, c, argv, now);
      EffectOk(Looks(w, d, argv, now).w, d, c, argv, Clock(now, false));
    case _ =>
  }

  /** Among these events is one that hits the key. */
  ghost predicate Tells(es: seq<Event>, t: Target)
  {
    exists i :: 0 <= i < |es| && (es[i] == Event.Touch(t) || (es[i].Flush? && Flushes(es[i].dbid, es[i].present, t)))
  }

  /** Exactly when a watched key changes behind the backs of its watchers: a key's value or expire time changes
      without a signal for it, or a flush of a database that it is in, if and only if it loses its expire time to
      PERSIST, is moved, is evicted, or expires and is not signalled for another reason. */
  lemma ChangeIsUntold(w: World, h: Happening, t: Target)
    requires WorldOk(w) && CanHappen(w, h)
    ensures Look(AfterHappening(w, h), t) != Look(w, t) && !Tells(Seen(w, h), t) <==> Untold(w, h, t)
  {
    match h
    case Called(d, argv, now) => CallIsUntold(w, d, argv, now, t);
    case Dropped(d, key) =>
    case Told(e) =>
  }

  lemma CallIsUntold(w: World, d: nat, argv: Argv, now: int, t: Target)
    requires WorldOk(w) && d < |w| && Runnable(argv)
    ensures Look(Call(w, d, argv, now).w, t) != Look(w, t) && !Tells(Seen(w, Happening.Called(d, argv, now)), t)
      <==> CallUntold(w, d, argv, now, t)
  {
    hide Lookup, Looked, Effect, Signals, WorldOk, Look, Tells, Present, Touches, Flushes, Moves, Atoi;
    var c, s := Lookup(argv[0]).value, Looks(w, d, argv, now);
    LookedOnly(w, d, c, argv, now);
    if Empties(c) {
      EmptyingGone(w, d, c, argv, now);
      if Look(Call(w, d, argv, now).w, t) != Look(w, t) {
        FlushTold(s.w, d, c, argv, Clock(now, false), t);
        FlushTells(if c == FlushDb then d else -1, Present(s.w), t);
      }
    } else {
      TouchTells(d, Signals(s.w[d], c, argv, Clock(now, false)), t);
      if c == Persist {
        PersistUntold(w, d, argv, now, t);
      } else if c == Move {
        MoveUntold(w, s, d, argv, now, t);
      } else if Look(Effect(s.w, d, c, argv, Clock(now, false)).w, t) != Look(s.w, t) {
        SignalTold(s.w, d, c, argv, Clock(now, false), t);
      }
    }
  }

  lemma EmptyingGone(w: World, d: nat, c: Command, argv: Argv, now: int)
    requires d < |w| && ArityOk(c, |argv|) && (Empties(c) || c == Persist)
    ensures Looked(Lazy(w, []), d, c, argv, now) == Lazy(w, [])
  {
  }

  /** PERSIST looks nothing up and signals nothing. */
  lemma PersistUntold(w: World, d: nat, argv: Argv, now: int, t: Target)
    requires WorldOk(w) && d < |w| && Runnable(argv) && Lookup(argv[0]).value == Persist
    ensures Look(Call(w, d, argv, now).w, t) != Look(w, t)
      <==> t == Target(d, argv[1]) && GetExpire(w[d], argv[1]) != -1
    ensures Looks(w, d, argv, now) == Lazy(w, []) && Signals(w[d], Persist, argv, Clock(now, false)) == []
  {
    hide Lookup;
    EmptyingGone(w, d, Persist, argv, now);
  }

  /** MOVE signals nothing either. */
  lemma MoveUntold(w: World, s: Lazy, d: nat, argv: Argv, now: int, t: Target)
    requires d < |w| && Runnable(argv) && Lookup(argv[0]).value == Move && OnlyGone(w, s) && WorldOk(w)
    ensures Look(Effect(s.w, d, Move, argv, Clock(now, false)).w, t) != Look(w, t) <==>
      (t in s.gone ||
       (Moves(s.w, d, argv[1], Atoi(argv[2])) && (t == Target(d, argv[1]) || t == Target(Atoi(argv[2]), argv[1]))))
    ensures Signals(s.w[d], Move, argv, Clock(now, false)) == []
  {
    hide Lookup, Atoi;
  }

  lemma FlushTells(dbid: int, present: set<Target>, t: Target)
    requires Flushes(dbid, present, t)
    ensures Tells([Flush(dbid, present)], t)
  {
    var es := [Flush(dbid, present)];
    assert es[0].Flush? && Flushes(es[0].dbid, es[0].present, t);
  }

  lemma TouchTells(d: nat, keys: seq<Bytestring>, t: Target)
    ensures Tells(Touches(d, keys), t) <==> t.db == d && t.key in keys
  {
    if t.db == d && t.key in keys {
      var i :| 0 <= i < |keys| && keys[i] == t.key;
      assert Touches(d, keys)[i] == Event.Touch(t);
    }
  }

  lemma SignalTold(w: World, d: nat, c: Command, argv: Argv, clock: Clock, t: Target)
    requires WorldOk(w) && d < |w| && ArityOk(c, |argv|) && !Unsignalled(c) && !Empties(c)
    requires Look(Effect(w, d, c, argv, clock).w, t) != Look(w, t)
    ensures t.db == d && t.key in Signals(w[d], c, argv, clock)
  {
    hide InDb, Signals, Atoi, See;
    assert Effect(w, d, c, argv, clock).w == w[d := InDb(w[d], c, argv, clock).0];
    assert DbOk(w[d]);
    hide WorldOk, DbOk, Effect;
    ChangesAreSignalled(w[d], c, argv, clock, t.key);
  }

  lemma FlushTold(w: World, d: nat, c: Command, argv: Argv, clock: Clock, t: Target)
    requires WorldOk(w) && d < |w| && ArityOk(c, |argv|) && Empties(c)
    requires Look(Effect(w, d, c, argv, clock).w, t) != Look(w, t)
    ensures Flushes(if c == FlushDb then d else -1, Present(w), t)
  {
  }

  // ----- runs -----

  /** One client through some events. */
  function Goes(x: Client, es: seq<Event>, c: ClientId): Client
    decreases |es|
  {
    if es == [] then x else Goes(if Concerns(es[0], c) then Next(x, es[0]) else x, es[1..], c)
  }

  /** The keyspace and one client after a run. */
  ghost function Play(w: World, x: Client, run: seq<Happening>, c: ClientId): (World, Client)
    requires Happens(w, run)
    decreases |run|
  {
    if run == [] then (w, x) else Play(AfterHappening(w, run[0]), Goes(x, Seen(w, run[0]), c), run[1..], c)
  }

  ghost predicate Happens(w: World, run: seq<Happening>)
    decreases |run|
  {
    run != [] ==> CanHappen(w, run[0]) && Happens(AfterHappening(w, run[0]), run[1..])
  }

  ghost predicate UntoldIn(w: World, run: seq<Happening>, t: Target)
    requires Happens(w, run)
    decreases |run|
  {
    run != [] && (Untold(w, run[0], t) || UntoldIn(AfterHappening(w, run[0]), run[1..], t))
  }

  /** The client gives up what it watches. */
  predicate GivesUp(x: Client, e: Event, c: ClientId)
  {
    ((e.Unwatch? || e.Connect? || e.Disconnect?) && e.c == c) || ((e.Discard? || e.Exec?) && e.c == c && x.multi)
  }

  /** It never does during the run. */
  ghost predicate HoldsOn(w: World, x: Client, run: seq<Happening>, c: ClientId)
    requires Happens(w, run)
    decreases |run|
  {
    run != [] ==>
      && (run[0].Told? ==> !GivesUp(x, run[0].e, c))
      && HoldsOn(AfterHappening(w, run[0]), Goes(x, Seen(w, run[0]), c), run[1..], c)
  }

  lemma StaysWatched(x: Client, e: Event, c: ClientId, t: Target)
    requires t in x.watched && !GivesUp(x, e, c) && Concerns(e, c)
    ensures t in Next(x, e).watched && (x.dirtyCas ==> Next(x, e).dirtyCas)
  {
  }

  lemma HitsAreNoticed(x: Client, e: Event, t: Target)
    requires t in x.watched && (e == Event.Touch(t) || (e.Flush? && Flushes(e.dbid, e.present, t)))
    ensures Next(x, e).dirtyCas
  {
  }

  /** Signals leave the list of keys alone, and mark the client if one of them is for a key that it watches. */
  lemma {:induction false} SignalsAreNoticed(x: Client, es: seq<Event>, c: ClientId, t: Target)
    requires t in x.watched && forall e :: e in es ==> e.Touch? || e.Flush?
    ensures var y := Goes(x, es, c); t in y.watched && (x.dirtyCas || Tells(es, t) ==> y.dirtyCas)
    decreases |es|
  {
    if es != [] {
      var y := Next(x, es[0]);
      assert es[0] in es;
      StaysWatched(x, es[0], c, t);
      SignalsAreNoticed(y, es[1..], c, t);
      if Tells(es, t) {
        var i :| 0 <= i < |es| && (es[i] == Event.Touch(t) || (es[i].Flush? && Flushes(es[i].dbid, es[i].present, t)));
        if i == 0 { HitsAreNoticed(x, es[0], t); } else { assert es[1..][i - 1] == es[i]; }
      }
    }
  }

  lemma StepIsNoticed(w: World, x: Client, h: Happening, c: ClientId, t: Target)
    requires CanHappen(w, h) && t in x.watched && (h.Told? ==> !GivesUp(x, h.e, c))
    ensures var y := Goes(x, Seen(w, h), c); t in y.watched && (x.dirtyCas || Tells(Seen(w, h), t) ==> y.dirtyCas)
  {
    var es := Seen(w, h);
    if h.Told? {
      assert es == [h.e] && |es[1..]| == 0;
      if Concerns(h.e, c) { StaysWatched(x, h.e, c, t); }
    } else {
      hide Lookup, Signals, Looked, Next;
      SignalsAreNoticed(x, es, c, t);
    }
  }

  /** While a client holds on to a key it watches, a change to the key marks it, unless somebody changed the key
      silently. */
  lemma {:induction false} ChangeMarks(w: World, x: Client, run: seq<Happening>, c: ClientId, t: Target)
    requires WorldOk(w) && Happens(w, run) && HoldsOn(w, x, run, c) && t in x.watched && !UntoldIn(w, run, t)
    ensures var (v, y) := Play(w, x, run, c);
      t in y.watched && (x.dirtyCas || Look(v, t) != Look(w, t) ==> y.dirtyCas)
    decreases |run|
  {
    if run != [] {
      hide WorldOk, CanHappen, AfterHappening, Seen, Untold, Goes, GivesUp, Look, Tells;
      var h := run[0];
      var w', x' := AfterHappening(w, h), Goes(x, Seen(w, h), c);
      HappeningOk(w, h);
      StepIsNoticed(w, x, h, c, t);
      if Look(w', t) != Look(w, t) { ChangeIsUntold(w, h, t); }
      ChangeMarks(w', x', run[1..], c, t);
    }
  }

  /** What WATCH is for. A client outside MULTI watches a key, and afterwards whatever happens, while it does not
      give up: if then its EXEC is to run a transaction, the key's value and expire time are what they were,
      unless at some step this key was moved away or hither, lost its expire time to PERSIST, expired or was
      evicted, and nobody was told. */
  lemma WatchProtects(w: World, x: Client, run: seq<Happening>, c: ClientId, t: Target)
    requires WorldOk(w) && !x.multi
    requires var y := Next(x, Watch(c, t)); Happens(w, run) && HoldsOn(w, y, run, c)
    ensures var (v, z) := Play(w, Next(x, Watch(c, t)), run, c);
      Judge(z).Runs? ==> Look(v, t) == Look(w, t) || UntoldIn(w, run, t)
  {
    hide WorldOk, Happens, HoldsOn, UntoldIn, Play, Look;
    if !UntoldIn(w, run, t) { ChangeMarks(w, Next(x, Watch(c, t)), run, c, t); }
  }

  lemma GoesSnoc(x: Client, es: seq<Event>, e: Event, c: ClientId)
    ensures Goes(x, es + [e], c) == (var y := Goes(x, es, c); if Concerns(e, c) then Next(y, e) else y)
    decreases |es|
  {
    if es == [] {
      assert |([] + [e])[1..]| == 0;
    } else {
      assert (es + [e])[1..] == es[1..] + [e];
      GoesSnoc(if Concerns(es[0], c) then Next(x, es[0]) else x, es[1..], e, c);
    }
  }

  /** The client so followed is the one of WatchModel, whose flags are history. */
  lemma {:induction false} GoesIsClientAfter(es: seq<Event>, c: ClientId)
    ensures Goes(NEW_CLIENT, es, c) == ClientAfter(es, c)
    decreases |es|
  {
    if es != [] {
      var front, e := es[..|es| - 1], es[|es| - 1];
      assert es == front + [e];
      GoesIsClientAfter(front, c);
      GoesSnoc(NEW_CLIENT, front, e, c);
    }
  }

  // ----- where WATCH does not protect -----

  /** Signals mark a client exactly if one of them is for the one key that it watches. */
  lemma {:induction false} SignalsMark(x: Client, es: seq<Event>, c: ClientId, t: Target)
    requires x.watched == [t] && forall e :: e in es ==> e.Touch? || e.Flush?
    ensures Goes(x, es, c) == x.(dirtyCas := x.dirtyCas || Tells(es, t))
    decreases |es|
  {
    if es != [] {
      var e, rest := es[0], es[1..];
      var hit := e == Event.Touch(t) || (e.Flush? && Flushes(e.dbid, e.present, t));
      assert e in es && es == [e] + rest;
      TellsFirst(e, rest, t);
      assert Next(x, e) == x.(dirtyCas := x.dirtyCas || hit);
      SignalsMark(Next(x, e), rest, c, t);
    } else {
      assert !Tells(es, t);
    }
  }

  lemma TellsFirst(e: Event, rest: seq<Event>, t: Target)
    ensures Tells([e] + rest, t) <==>
      e == Event.Touch(t) || (e.Flush? && Flushes(e.dbid, e.present, t)) || Tells(rest, t)
  {
    var es := [e] + rest;
    assert es[0] == e;
    if Tells(rest, t) {
      var i :| 0 <= i < |rest| &&
        (rest[i] == Event.Touch(t) || (rest[i].Flush? && Flushes(rest[i].dbid, rest[i].present, t)));
      assert es[i + 1] == rest[i];
    }
  }

  /** The shortest run that can go wrong, exactly. A new client watches a key and sends MULTI, and then one thing
      happens to the keys: EXEC runs over a changed key if and only if that is one of the untold changes. */
  lemma UntoldIsMissed(w: World, h: Happening, c: ClientId, t: Target)
    requires WorldOk(w) && CanHappen(w, h) && !h.Told?
    ensures var x, run := Next(NEW_CLIENT, Watch(c, t)), [Told(Event.Multi(c)), h];
      && Happens(w, run) && HoldsOn(w, x, run, c)
      && var (v, z) := Play(w, x, run, c);
         v == AfterHappening(w, h) && z.queue == [] && (Judge(z).Runs? && Look(v, t) != Look(w, t) <==> Untold(w, h, t))
  {
    hide Untold, Look, Tells, Seen, AfterHappening, WorldOk, Happens, HoldsOn, Play, CanHappen;
    var x := Next(NEW_CLIENT, Watch(c, t));
    var y := x.(multi := true);
    assert Goes(x, [Event.Multi(c)], c) == y by { GoesOne(x, Event.Multi(c), c); }
    hide Goes;
    SeenSignals(w, h);
    SignalsMark(y, Seen(w, h), c, t);
    ChangeIsUntold(w, h, t);
    PlayTwo(w, x, h, c);
  }

  lemma GoesOne(x: Client, e: Event, c: ClientId)
    requires Concerns(e, c)
    ensures Goes(x, [e], c) == Next(x, e)
  {
    assert |[e][1..]| == 0;
  }

  lemma SeenSignals(w: World, h: Happening)
    requires CanHappen(w, h) && !h.Told?
    ensures forall e :: e in Seen(w, h) ==> e.Touch? || e.Flush?
  {
    hide Lookup, Looked, Signals, Present;
  }

  lemma PlayOn(w: World, x: Client, h: Happening, rest: seq<Happening>, c: ClientId)
    requires CanHappen(w, h) && Happens(AfterHappening(w, h), rest)
    ensures Happens(w, [h] + rest)
    ensures Play(w, x, [h] + rest, c) == Play(AfterHappening(w, h), Goes(x, Seen(w, h), c), rest, c)
    ensures (h.Told? ==> !GivesUp(x, h.e, c)) && HoldsOn(AfterHappening(w, h), Goes(x, Seen(w, h), c), rest, c)
      ==> HoldsOn(w, x, [h] + rest, c)
  {
    hide CanHappen, AfterHappening, Goes, Seen, GivesUp;
    assert ([h] + rest)[1..] == rest;
  }

  lemma PlayTwo(w: World, x: Client, h: Happening, c: ClientId)
    requires CanHappen(w, h) && !h.Told?
    ensures var run := [Told(Event.Multi(c)), h];
      && Happens(w, run) && HoldsOn(w, x, run, c)
      && Play(w, x, run, c) == (AfterHappening(w, h), Goes(Goes(x, [Event.Multi(c)], c), Seen(w, h), c))
  {
    hide CanHappen, Goes, Play, HoldsOn, Happens;
    var none: seq<Happening> := [];
    var multi := Told(Event.Multi(c));
    assert CanHappen(w, multi) && AfterHappening(w, multi) == w && Seen(w, multi) == [Event.Multi(c)] by {
      ToldOnly(w, Event.Multi(c));
    }
    hide AfterHappening, Seen;
    var y, v := Goes(x, [Event.Multi(c)], c), AfterHappening(w, h);
    var z := Goes(y, Seen(w, h), c);
    PlayNothing(v, z, c);
    PlayOn(w, y, h, none, c);
    assert [h] + none == [h];
    PlayOn(w, x, multi, [h], c);
    assert [multi] + [h] == [multi, h];
  }

  lemma ToldOnly(w: World, e: Event)
    requires !e.Touch? && !e.Flush?
    ensures CanHappen(w, Told(e)) && AfterHappening(w, Told(e)) == w && Seen(w, Told(e)) == [e]
  {
  }

  lemma PlayNothing(w: World, x: Client, c: ClientId)
    ensures Happens(w, []) && HoldsOn(w, x, [], c) && Play(w, x, [], c) == (w, x)
  {
  }

  const PERSIST: Bytestring := [80, 69, 82, 83, 73, 83, 84]

  lemma PersistName()
    ensures Lookup(PERSIST) == Some(Persist)
  {
    assert Named(PERSIST, "persist");
    OtherName(PERSIST, "pexpire", 2);
    hide Named;
  }

  lemma PersistChanges(w: World, d: nat, key: Bytestring, now: int)
    requires d < |w| && key in w[d].expires
    ensures var h := Happening.Called(d, [PERSIST, key], now);
      && CanHappen(w, h) && AfterHappening(w, h) == w[d := w[d].(expires := w[d].expires - {key})]
      && (w[d].expires[key] != -1 ==> Untold(w, h, Target(d, key)))
  {
    hide Lookup, Signals;
    PersistName();
    EmptyingGone(w, d, Persist, [PERSIST, key], now);
  }

  /** Such a run: a client watches a key that has an expire time, another client makes it permanent, and EXEC runs. */
  lemma PersistIsMissed(c: ClientId, key: Bytestring, val: Value, when: nat)
    requires NotEmpty(val) && when <= INT64_MAX
    ensures var w: World := [Db(map[key := val], map[key := when])];
      var h := Happening.Called(0, [PERSIST, key], 0);
      var x, run := Next(NEW_CLIENT, Watch(c, Target(0, key))), [Told(Event.Multi(c)), h];
      && Happens(w, run)
      && var (v, z) := Play(w, x, run, c);
         Judge(z) == Runs([]) && v == [Db(map[key := val], map[])]
  {
    hide NotEmpty, AfterHappening, Play, HoldsOn, Happens, CanHappen, Untold;
    var w: World := [Db(map[key := val], map[key := when])];
    var h := Happening.Called(0, [PERSIST, key], 0);
    assert key in w[0].expires && WorldOk(w);
    PersistChanges(w, 0, key, 0);
    UntoldIsMissed(w, h, c, Target(0, key));
    assert w[0].expires - {key} == map[];
  }
}
