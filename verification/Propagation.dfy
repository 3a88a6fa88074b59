/** redis.c call and propagate, aof.c feedAppendOnlyFile, on values: what a command looks up, what
    it then does, and what is written to the log; and what the log does when it is loaded. */
module Propagation {
  import opened Bytes
  import opened Decimal
  import opened Wire
  import opened Strtol
  import opened Commands
  import opened Keyspace
  import opened BitString
  import opened Effects

  // ----- lookups, each of which may expire a key -----

  /** The source keys of BITOP, up to the first that holds no string. */
  function TouchSources(s: Lazy, d: nat, keys: Argv, now: int): (t: Lazy)
    requires d < |s.w|
    ensures |t.w| == |s.w|
    decreases |keys|
  {
    if keys == [] then s
    else
      var t := Touch(s, d, keys[0], now);
      if StringOf(t.w[d], keys[0]) == None then t else TouchSources(t, d, keys[1..], now)
  }

  function TouchBitOp(s: Lazy, d: nat, argv: Argv, now: int): (t: Lazy)
    requires d < |s.w| && |argv| >= 4
    ensures |t.w| == |s.w|
  {
    if BitOpOf(argv) == None then s
    else
      var t := TouchSources(s, d, argv[3..], now);
      match Sources(t.w[d], argv[3..])
      case None => t
      case Some(srcs) => if MaxLen(srcs) > 0 then Touch(t, d, argv[2], now) else t
  }

  /** Two keys, the second only if the first is there. */
  function TouchBoth(s: Lazy, d: nat, key: Bytestring, e: nat, other: Bytestring, now: int): (t: Lazy)
    requires d < |s.w| && e < |s.w|
    ensures |t.w| == |s.w|
  {
    var t := Touch(s, d, key, now);
    if key in t.w[d].dict then Touch(t, e, other, now) else t
  }

  /** Whether the arguments are good enough for the key to be looked up at all. */
  predicate LooksUp(c: Command, argv: Argv, now: int)
    requires ArityOk(c, |argv|)
  {
    match c
    case Get | Exists | Type | GetSet | RPush | SAdd => true
    case Set | SetNx | SetEx | PSetEx => AsSet(c, argv).Some? && Milliseconds(AsSet(c, argv).value.ttl).Some?
    case Expire | PExpire | ExpireAt | PExpireAt => When(c, argv[2], now).Some?
    case GetBit => BitOffset(argv[2]).Some?
    case SetBit => BitOffset(argv[2]).Some? && BitValue(argv[3]).Some?
    case HMSet => |argv| % 2 == 0
    case _ => false
  }

  function Looked(s: Lazy, d: nat, c: Command, argv: Argv, now: int): (t: Lazy)
    requires d < |s.w| && ArityOk(c, |argv|)
    ensures |t.w| == |s.w|
  {
    match c
    case Rename | RenameNx => if argv[1] == argv[2] then s else TouchBoth(s, d, argv[1], d, argv[2], now)
    case Move =>
      var id := Atoi(argv[2]);
      if id < 0 || id >= |s.w| || id == d then s else TouchBoth(s, d, argv[1], id, argv[1], now)
    case BitOp => TouchBitOp(s, d, argv, now)
    case _ => if LooksUp(c, argv, now) then Touch(s, d, argv[1], now) else s
  }

  // ----- what is fed -----

  /** Commands fed together, to be run in one database. */
  datatype Record = Record(db: nat, cmds: seq<Argv>)

  /** catAppendOnlyExpireAtCommand's expire time. */
  function FedWhen(c: Command, text: Bytestring, now: int): (v: int)
    ensures Int64(v)
  {
    var v := Strtoll(text);
    var ms := if c == Expire || c == SetEx || c == ExpireAt then Wrap(v * 1000) else v;
    if c == Expire || c == PExpire || c == SetEx || c == PSetEx then Wrap(ms + now) else ms
  }

  function ExpireAtCommand(c: Command, key: Bytestring, text: Bytestring, now: int): Argv
  {
    [PEXPIREAT, key, Print(FedWhen(c, text, now))]
  }

  /** Relative expire times are made absolute. */
  function Translate(argv: Argv, now: int): seq<Argv>
    requires Runnable(argv)
  {
    match Lookup(argv[0]).value
    case Expire | PExpire | ExpireAt => [ExpireAtCommand(Lookup(argv[0]).value, argv[1], argv[2], now)]
    case SetEx | PSetEx =>
      [[SET, argv[1], argv[3]], ExpireAtCommand(Lookup(argv[0]).value, argv[1], argv[2], now)]
    case _ => [argv]
  }

  function Deletions(gone: seq<Target>): seq<Record>
  {
    if gone == [] then [] else [Record(gone[0].db, [[DEL, gone[0].key]])] + Deletions(gone[1..])
  }

  /** The only rewritten argument vector is a DEL. */
  lemma RewrittenRunnable(w: World, d: nat, argv: Argv, clock: Clock)
    requires d < |w| && Runnable(argv)
    ensures var o := Effect(w, d, Lookup(argv[0]).value, argv, clock);
      Runnable(o.argv) && (o.argv == argv || (|argv| == 3 && o.argv == [DEL, argv[1]] && !clock.loading))
  {
    Names();
    hide Lookup, SetKey, StringOf, DeleteAll, RenameGeneric, PersistKey, SetBitAt, BitOpKeys, PushTail, AddMembers,
      SetHash, MoveKey, BitOffset, BitValue, GetLongLong, EmptyWorld, Atoi, AsSet, SetGeneric;
  }

  datatype Called = Called(w: World, fed: seq<Record>)

  /** call: lookups, effect, propagation if it counted as a change. */
  function Call(w: World, d: nat, argv: Argv, now: int): (r: Called)
    requires d < |w| && Runnable(argv)
    ensures |r.w| == |w|
  {
    var c := Lookup(argv[0]).value;
    var s := Looked(Lazy(w, []), d, c, argv, now);
    var o := Effect(s.w, d, c, argv, Clock(now, false));
    RewrittenRunnable(s.w, d, argv, Clock(now, false));
    Called(o.w, Deletions(s.gone) + (if o.dirty then [Record(d, Translate(o.argv, now))] else []))
  }

  // ----- feeding -----

  function SelectCommand(d: nat): Argv { [SELECT, Print(d)] }

  /** The commands written: a SELECT comes first when the database changes. */
  function Feed(selected: int, fed: seq<Record>): seq<Argv>
    decreases |fed|
  {
    if fed == [] then []
    else
      (if fed[0].db != selected then [SelectCommand(fed[0].db)] else []) + fed[0].cmds + Feed(fed[0].db, fed[1..])
  }

  function LastDb(selected: int, fed: seq<Record>): int
  {
    if fed == [] then selected else fed[|fed| - 1].db
  }

  // ----- loading -----

  /** The fake client and the databases it works on. */
  datatype Fake = Fake(w: World, db: nat, multi: bool)

  /** selectCommand. */
  function SelectedDb(text: Bytestring, d: nat, n: nat): (e: nat)
    ensures d < n ==> e < n
  {
    match GetLongLong(text)
    case None => d
    case Some(v) => if 0 <= AsInt(v) < n then AsInt(v) else d
  }

  /** One command of the log, run as it stands: inside MULTI nothing is queued. None is a fatal
      error: a command that does not exist, or has the wrong number of arguments. */
  function RunOne(f: Fake, argv: Argv, t: int): (r: Option<Fake>)
    requires f.db < |f.w|
    ensures r.Some? ==> |r.value.w| == |f.w| && r.value.db < |f.w|
  {
    if !Runnable(argv) then None
    else
      var c := Lookup(argv[0]).value;
      match c
      case Select => Some(f.(db := SelectedDb(argv[1], f.db, |f.w|)))
      case Multi => Some(f.(multi := true))
      case Exec => Some(f.(multi := false))
      case _ => Some(f.(w := Effect(f.w, f.db, c, argv, Clock(t, true)).w))
  }

  function RunAll(f: Fake, cmds: seq<Argv>, t: int): (r: Option<Fake>)
    requires f.db < |f.w|
    ensures r.Some? ==> |r.value.w| == |f.w| && r.value.db < |f.w|
    decreases |cmds|
  {
    if cmds == [] then Some(f)
    else match RunOne(f, cmds[0], t) case None => None case Some(g) => RunAll(g, cmds[1..], t)
  }

  /** Records run one after the other, each in its own database. */
  function Apply(w: World, multi: bool, fed: seq<Record>, t: int): (r: Option<Fake>)
    requires |w| > 0
    ensures r.Some? ==> |r.value.w| == |w|
    decreases |fed|
  {
    if fed == [] then Some(Fake(w, 0, multi))
    else if fed[0].db >= |w| then None
    else
      match RunAll(Fake(w, fed[0].db, multi), fed[0].cmds, t)
      case None => None
      case Some(f) => if f.db != fed[0].db then None else Apply(f.w, f.multi, fed[1..], t)
  }

  lemma {:induction false} RunAllAppend(f: Fake, a: seq<Argv>, b: seq<Argv>, t: int)
    requires f.db < |f.w|
    ensures RunAll(f, a + b, t) == (match RunAll(f, a, t) case None => None case Some(g) => RunAll(g, b, t))
    decreases |a|
  {
    hide RunOne;
    if a == [] {
      assert a + b == b;
    } else {
      assert (a + b)[1..] == a[1..] + b;
      match RunOne(f, a[0], t)
      case None =>
      case Some(g) => RunAllAppend(g, a[1..], b, t);
    }
  }

  lemma {:induction false} ApplyAppend(w: World, multi: bool, a: seq<Record>, b: seq<Record>, t: int)
    requires |w| > 0
    ensures Apply(w, multi, a + b, t)
         == (match Apply(w, multi, a, t) case None => None case Some(f) => Apply(f.w, f.multi, b, t))
    decreases |a|
  {
    hide RunAll;
    if a == [] {
      assert a + b == b;
    } else {
      assert (a + b)[1..] == a[1..] + b;
      if a[0].db < |w| {
        match RunAll(Fake(w, a[0].db, multi), a[0].cmds, t)
        case None =>
        case Some(f) => if f.db == a[0].db { ApplyAppend(f.w, f.multi, a[1..], b, t); }
      }
    }
  }

  lemma SmallIsInt(v: nat)
    requires v <= 0x7FFF_FFFF
    ensures AsInt(v) == v
  {
  }

  lemma PrintedSelects(d: nat, e: nat, n: nat)
    requires d < n <= 0x7FFF_FFFF
    ensures SelectedDb(Print(d), e, n) == d
  {
    hide GetLongLong, Print, AsInt;
    GetLongLongOfPrint(d);
    SmallIsInt(d);
  }

  lemma SelectRuns(f: Fake, d: nat, t: int)
    requires f.db < |f.w| && d < |f.w| <= 0x7FFF_FFFF
    ensures RunOne(f, SelectCommand(d), t) == Some(f.(db := d))
  {
    hide Lookup, SelectedDb, Effect, Print;
    Names();
    PrintedSelects(d, f.db, |f.w|);
  }

  /** What is fed runs in the right databases, however the log and the server's idea of the
      selected database stand, as long as they agree or a SELECT is forced. */
  lemma {:induction false} FeedRuns(f: Fake, selected: int, fed: seq<Record>, t: int)
    requires f.db < |f.w| <= 0x7FFF_FFFF && (selected == -1 || selected == f.db)
    requires Apply(f.w, f.multi, fed, t).Some?
    ensures var g := Apply(f.w, f.multi, fed, t).value; var h := RunAll(f, Feed(selected, fed), t);
      h.Some? && h.value.w == g.w && h.value.multi == g.multi && LastDb(f.db, fed) == h.value.db
    decreases |fed|
  {
    hide RunOne;
    if fed != [] {
      var d, cmds, more := fed[0].db, fed[0].cmds, Feed(fed[0].db, fed[1..]);
      var sel := if d != selected then [SelectCommand(d)] else [];
      assert Feed(selected, fed) == sel + (cmds + more);
      SelectRuns(f, d, t);
      RunAllAppend(f, sel, cmds + more, t);
      var e := f.(db := d);
      assert RunAll(f, sel, t) == Some(e) by {
        assert d == selected ==> sel == [] && e == f;
        assert d != selected ==> |sel[1..]| == 0;
      }
      RunAllAppend(e, cmds, more, t);
      FeedRuns(RunAll(e, cmds, t).value, d, fed[1..], t);
    }
  }
}
