/** The append only file over whole runs: feeding, flushing, background rewrites, and switching it
    on and off (aof.c), driven by calls, transactions and deletions (redis.c, multi.c). */
module LogMachine {
  import opened Bytes
  import opened Decimal
  import opened Wire
  import opened Strtol
  import opened Commands
  import opened Keyspace
  import opened BitString
  import opened Effects
  import opened Propagation
  import opened CallReplay
  import opened LogFile
  import opened Rewrite

  datatype Mode = Off | On | Waiting

  /** The databases, and the server's aof_ fields: the file on disk, what is to be written to it,
      the database last selected in what was fed (-1 when not known), the file a rewrite child is
      producing, and what has been fed since that child was forked. */
  datatype Server = Server(w: World, mode: Mode, file: Bytestring, buf: Bytestring, selected: int,
                           child: Option<Bytestring>, diff: Bytestring)

  /** A new server with an empty log. */
  function Initial(n: nat): Server { Server(EmptyWorld(n), On, [], [], -1, None, []) }

  /** propagate and feedAppendOnlyFile. */
  function Fed(s: Server, fed: seq<Record>): Server
  {
    if s.mode == Off then s
    else
      var bytes := CatAll(Feed(s.selected, fed));
      s.(buf := if s.mode == On then s.buf + bytes else s.buf,
         diff := if s.child.Some? then s.diff + bytes else s.diff,
         selected := LastDb(s.selected, fed))
  }

  datatype Event = Command(db: nat, argv: Argv, now: int)
                 | Transact(db: nat, queue: seq<Queued>, exec: Argv)
                 | Drop(db: nat, key: Bytestring)
                 | Flush
                 | Rewrite(layout: seq<seq<Entry>>, now: int)
                 | Finish(ok: bool)
                 | Start(layout: seq<seq<Entry>>, now: int)
                 | Stop

  /** rewriteAppendOnlyFileBackground: the child's file is settled at the fork. */
  function Fork(s: Server, layout: seq<seq<Entry>>, now: int): Server
  {
    s.(child := Some(CatAll(Dump(layout, 0, now))), selected := -1)
  }

  /** backgroundRewriteDoneHandler; failure is a child that failed or was killed, or a file that
      could not be opened, written or renamed. */
  function Done(s: Server, ok: bool): Server
    requires s.child.Some?
  {
    var t := s.(child := None, diff := []);
    if !ok then t
    else if s.mode == Off then t.(file := s.child.value + s.diff)
    else t.(file := s.child.value + s.diff, buf := [], selected := -1, mode := On)
  }

  function Step(s: Server, e: Event): Server
    requires Possible(s, e)
  {
    match e
    case Command(d, argv, now) => var r := Call(s.w, d, argv, now); Fed(s.(w := r.w), r.fed)
    case Transact(d, queue, exec) => var r := Transaction(s.w, d, queue, exec); Fed(s.(w := r.w), r.fed)
    case Drop(d, key) => Fed(s.(w := s.w[d := DbDelete(s.w[d], key)]), [Record(d, [[DEL, key]])])
    case Flush => s.(file := s.file + s.buf, buf := [])
    case Rewrite(layout, now) => if s.child.Some? then s else Fork(s, layout, now)
    case Finish(ok) => Done(s, ok)
    case Start(layout, now) => if s.child.Some? then s else Fork(s.(mode := Waiting), layout, now)
    case Stop => s.(file := s.file + s.buf, buf := [], selected := -1, mode := Off, child := None, diff := [])
  }

  /** What can happen. A Drop is an active expiry or an eviction. */
  ghost predicate Possible(s: Server, e: Event)
  {
    match e
    case Command(d, argv, now) => d < |s.w| && Runnable(argv) && Lookup(argv[0]).value != Exec && 0 <= now <= INT64_MAX
    case Transact(d, queue, exec) =>
      d < |s.w| && (forall q :: q in queue ==> Queueable(q)) && Runnable(exec) && Lookup(exec[0]).value == Exec
    case Drop(d, key) => d < |s.w|
    case Rewrite(layout, now) => DepictsAll(layout, s.w) && now >= 0
    case Start(layout, now) => s.mode == Off && DepictsAll(layout, s.w) && now >= 0
    case Finish(_) => s.child.Some?
    case Stop => s.mode != Off
    case Flush => true
  }

  // ----- sizes: everything in memory is shorter than 2^63 bytes -----

  ghost predicate LayoutFits(layout: seq<seq<Entry>>, now: int)
  {
    forall argv :: argv in Dump(layout, 0, now) ==> Fits(argv)
  }

  ghost predicate FedFits(fed: seq<Record>)
  {
    forall r, argv :: r in fed && argv in r.cmds ==> Fits(argv)
  }

  ghost predicate GoneFits(gone: seq<Target>)
  {
    forall x :: x in gone ==> |x.key| <= INT64_MAX
  }

  lemma SelectFits(d: nat)
    requires d <= INT64_MAX
    ensures Fits(SelectCommand(d))
  {
    NumberFits(d);
  }

  lemma NumberFits(v: int)
    requires Int64(v)
    ensures |Print(v)| <= 21
  {
    TenNineteen();
    assert Ten(20) == 10 * Ten(19);
    PrintShort(if v < 0 then -v else v, 20);
  }

  lemma {:induction false} FeedFits(selected: int, fed: seq<Record>)
    requires FedFits(fed) && forall r :: r in fed ==> r.db <= INT64_MAX
    ensures forall argv :: argv in Feed(selected, fed) ==> Fits(argv)
    decreases |fed|
  {
    if fed != [] {
      hide Fits, SelectCommand;
      assert fed[0] in fed;
      SelectFits(fed[0].db);
      FeedFits(fed[0].db, fed[1..]);
    }
  }

  lemma {:induction false} DeletionsFit(gone: seq<Target>)
    requires GoneFits(gone)
    ensures FedFits(Deletions(gone))
    decreases |gone|
  {
    if gone != [] {
      assert gone[0] in gone;
      DeletionsFit(gone[1..]);
    }
  }

  lemma TouchFits(s: Lazy, d: nat, key: Bytestring, now: int)
    requires d < |s.w| && GoneFits(s.gone) && |key| <= INT64_MAX
    ensures GoneFits(Touch(s, d, key, now).gone)
  {
  }

  lemma {:induction false} TouchSourcesFits(s: Lazy, d: nat, keys: Argv, now: int)
    requires d < |s.w| && GoneFits(s.gone) && forall k :: k in keys ==> |k| <= INT64_MAX
    ensures GoneFits(TouchSources(s, d, keys, now).gone)
    decreases |keys|
  {
    hide Touch, GoneFits, StringOf;
    if keys != [] {
      assert keys[0] in keys;
      TouchFits(s, d, keys[0], now);
      TouchSourcesFits(Touch(s, d, keys[0], now), d, keys[1..], now);
    }
  }

  lemma LookedFits(s: Lazy, d: nat, c: Command, argv: Argv, now: int)
    requires d < |s.w| && ArityOk(c, |argv|) && GoneFits(s.gone) && Fits(argv)
    ensures GoneFits(Looked(s, d, c, argv, now).gone)
  {
    hide Touch, GoneFits, TouchSources, Atoi, Sources, MaxLen, BitOpOf, AsSet, Milliseconds, BitOffset, BitValue, When;
    if |argv| > 1 {
      assert argv[1] in argv;
      TouchFits(s, d, argv[1], now);
      if |argv| > 2 {
        assert argv[2] in argv;
        TouchFits(Touch(s, d, argv[1], now), d, argv[2], now);
        if c == Move && 0 <= Atoi(argv[2]) < |s.w| {
          TouchFits(Touch(s, d, argv[1], now), Atoi(argv[2]), argv[1], now);
        }
        if c == BitOp {
          TouchSourcesFits(s, d, argv[3..], now);
          TouchFits(TouchSources(s, d, argv[3..], now), d, argv[2], now);
        }
      }
    }
  }

  lemma TranslateFits(argv: Argv, now: int)
    requires Runnable(argv) && Fits(argv)
    ensures forall a :: a in Translate(argv, now) ==> Fits(a)
  {
    hide Lookup, FedWhen, Print;
    var c := Lookup(argv[0]).value;
    if c in {Expire, PExpire, ExpireAt, SetEx, PSetEx} {
      assert argv[1] in argv;
      NumberFits(FedWhen(c, argv[2], now));
      if c in {SetEx, PSetEx} { assert argv[3] in argv; }
    }
  }

  lemma CallFits(w: World, d: nat, argv: Argv, now: int)
    requires d < |w| && Runnable(argv) && Fits(argv)
    ensures FedFits(Call(w, d, argv, now).fed)
  {
    hide Lookup, Looked, Effect, Translate, Fits;
    var c := Lookup(argv[0]).value;
    var s := Looked(Lazy(w, []), d, c, argv, now);
    LookedFits(Lazy(w, []), d, c, argv, now);
    DeletionsFit(s.gone);
    var o := Effect(s.w, d, c, argv, Clock(now, false));
    RewrittenRunnable(s.w, d, argv, Clock(now, false));
    RewrittenFits(argv);
    if o.argv == argv { TranslateFits(argv, now); } else { TranslateFits(o.argv, now); }
  }

  lemma RewrittenFits(argv: Argv)
    requires Fits(argv)
    ensures |argv| > 1 ==> Fits([DEL, argv[1]])
  {
    if |argv| > 1 { assert argv[1] in argv; }
  }

  lemma {:induction false} QueueFits(x: Txn, queue: seq<Queued>)
    requires x.db < |x.w| && (forall q :: q in queue ==> Queueable(q)) && (forall q :: q in queue ==> Fits(q.argv))
    requires FedFits(x.fed)
    ensures FedFits(ExecQueue(x, queue).fed)
    decreases |queue|
  {
    if queue != [] {
      hide Call, Lookup, SelectedDb;
      var q := queue[0];
      assert q in queue && Fits(q.argv);
      CallFits(x.w, x.db, q.argv, q.now);
      QueueFits(ExecOne(x, q), queue[1..]);
    }
  }

  lemma TransactionFits(w: World, d: nat, queue: seq<Queued>, exec: Argv)
    requires d < |w| && (forall q :: q in queue ==> Queueable(q)) && (forall q :: q in queue ==> Fits(q.argv))
    requires Fits(exec)
    ensures FedFits(Transaction(w, d, queue, exec).fed)
  {
    hide ExecQueue, Queueable, Fits;
    QueueFits(Txn(w, d, [], false), queue);
  }

  // ----- the invariant -----

  const MAX_DBS := 0x7FFF_FFFF

  predicate IsTime(t: int) { 0 <= t <= INT64_MAX }

  ghost predicate Replays(cmds: seq<Argv>, w: World, selected: int, t: int)
    requires |w| > 0
  {
    var r := RunAll(Fake(EmptyWorld(|w|), 0, false), cmds, t);
    r.Some? && r.value.w == w && !r.value.multi && (selected != -1 ==> r.value.db == selected)
  }

  /** These bytes are a log which, loaded at any time, rebuilds the databases and ends with the
      database selected that the server believes to be. */
  ghost predicate Rebuilds(bytes: Bytestring, w: World, selected: int)
    requires |w| > 0
  {
    exists cmds :: CatAll(cmds) == bytes && (forall argv :: argv in cmds ==> Fits(argv))
      && (forall t :: IsTime(t) ==> Replays(cmds, w, selected, t))
  }

  ghost predicate Inv(s: Server)
  {
    && WorldOk(s.w) && 0 < |s.w| <= MAX_DBS
    && (s.mode == On ==> Rebuilds(s.file + s.buf, s.w, s.selected))
    && (s.child.Some? && s.mode != Off ==> Rebuilds(s.child.value + s.diff, s.w, s.selected))
    && (s.child == None ==> s.diff == [])
    && (s.mode != On ==> s.buf == [])
  }

  /** What the event asks of its caller: clock readings that are times, objects that fit in memory,
      no relative time to live set by SET, and no key past its expire time when a rewrite starts. */
  ghost predicate Sound(s: Server, e: Event)
    requires Possible(s, e)
  {
    match e
    case Command(d, argv, now) => Fits(argv) && !SetsRelativeTime(s.w, d, argv, now)
    case Transact(d, queue, exec) =>
      (forall q :: q in queue ==> Fits(q.argv)) && Fits(exec) && QueueKeepsTime(Txn(s.w, d, [], false), queue)
    case Drop(d, key) => |key| <= INT64_MAX
    case Rewrite(layout, now) => LayoutFits(layout, now) && Fresh(s.w, now)
    case Start(layout, now) => LayoutFits(layout, now) && Fresh(s.w, now)
    case _ => true
  }

  // ----- feeding keeps it -----

  ghost predicate Turns(w: World, fed: seq<Record>, v: World)
  {
    0 < |w| == |v| && forall t :: IsTime(t) ==> Apply(w, false, fed, t) == Some(Fake(v, 0, false))
  }

  lemma {:induction false} ApplyDbs(w: World, multi: bool, fed: seq<Record>, t: int)
    requires |w| > 0 && Apply(w, multi, fed, t).Some?
    ensures forall r :: r in fed ==> r.db < |w|
    decreases |fed|
  {
    if fed != [] {
      hide RunAll;
      var g := RunAll(Fake(w, fed[0].db, multi), fed[0].cmds, t).value;
      ApplyDbs(g.w, g.multi, fed[1..], t);
      assert forall r :: r in fed ==> r == fed[0] || r in fed[1..];
    }
  }

  lemma ReplaysFeed(cmds: seq<Argv>, w: World, selected: int, fed: seq<Record>, v: World, t: int)
    requires 0 < |w| <= MAX_DBS && Replays(cmds, w, selected, t) && IsTime(t) && Turns(w, fed, v)
    ensures Replays(cmds + Feed(selected, fed), v, LastDb(selected, fed), t)
  {
    hide RunAll, Apply, Feed;
    var f := Fake(EmptyWorld(|w|), 0, false);
    var g := RunAll(f, cmds, t).value;
    assert Apply(w, false, fed, t) == Some(Fake(v, 0, false));
    RunAllAppend(f, cmds, Feed(selected, fed), t);
    FeedRuns(g, selected, fed, t);
  }

  lemma RebuildsFeed(bytes: Bytestring, w: World, selected: int, fed: seq<Record>, v: World)
    requires 0 < |w| <= MAX_DBS && Rebuilds(bytes, w, selected) && FedFits(fed) && Turns(w, fed, v)
    ensures Rebuilds(bytes + CatAll(Feed(selected, fed)), v, LastDb(selected, fed))
  {
    hide RunAll, Apply, Feed, Replays, CatAll, Fits, FedFits, LastDb;
    var cmds :| CatAll(cmds) == bytes && (forall argv :: argv in cmds ==> Fits(argv))
      && (forall t :: IsTime(t) ==> Replays(cmds, w, selected, t));
    var all := cmds + Feed(selected, fed);
    CatAllAppend(cmds, Feed(selected, fed));
    assert IsTime(0) && Apply(w, false, fed, 0).Some?;
    ApplyDbs(w, false, fed, 0);
    FeedFits(selected, fed);
    forall t | IsTime(t) ensures Replays(all, v, LastDb(selected, fed), t) {
      ReplaysFeed(cmds, w, selected, fed, v, t);
    }
    assert CatAll(all) == bytes + CatAll(Feed(selected, fed));
  }

  lemma FedKeeps(s: Server, fed: seq<Record>, v: World)
    requires Inv(s) && WorldOk(v) && FedFits(fed) && Turns(s.w, fed, v)
    ensures Inv(Fed(s.(w := v), fed))
  {
    hide Rebuilds, Turns, FedFits, CatAll, Feed, LastDb, WorldOk;
    assert |v| == |s.w| by { TurnsSame(s.w, fed, v); }
    if s.mode != Off {
      var bytes := CatAll(Feed(s.selected, fed));
      if s.mode == On {
        RebuildsFeed(s.file + s.buf, s.w, s.selected, fed, v);
        Assoc(s.file, s.buf, bytes);
      }
      if s.child.Some? {
        RebuildsFeed(s.child.value + s.diff, s.w, s.selected, fed, v);
        Assoc(s.child.value, s.diff, bytes);
      }
    }
  }

  lemma TurnsSame(w: World, fed: seq<Record>, v: World)
    requires Turns(w, fed, v)
    ensures |v| == |w|
  {
  }

  lemma CommandTurns(w: World, d: nat, argv: Argv, now: int)
    requires WorldOk(w) && d < |w| && Runnable(argv) && IsTime(now) && !SetsRelativeTime(w, d, argv, now)
    ensures var r := Call(w, d, argv, now); WorldOk(r.w) && Turns(w, r.fed, r.w)
  {
    hide Call, SetsRelativeTime, Runnable, WorldOk, Apply;
    var r := Call(w, d, argv, now);
    CallReplays(w, d, argv, now, false, 0);
    forall t | IsTime(t) ensures Apply(w, false, r.fed, t) == Some(Fake(r.w, 0, false)) {
      CallReplays(w, d, argv, now, false, t);
    }
  }

  lemma TransactionTurns(w: World, d: nat, queue: seq<Queued>, exec: Argv)
    requires WorldOk(w) && d < |w| && Runnable(exec) && Lookup(exec[0]).value == Exec
    requires (forall q :: q in queue ==> Queueable(q)) && QueueKeepsTime(Txn(w, d, [], false), queue)
    ensures var r := Transaction(w, d, queue, exec); WorldOk(r.w) && Turns(w, r.fed, r.w)
  {
    hide Transaction, Lookup, WorldOk, Apply, Queueable, QueueKeepsTime;
    var r := Transaction(w, d, queue, exec);
    TransactionReplays(w, d, queue, exec, 0);
    forall t | IsTime(t) ensures Apply(w, false, r.fed, t) == Some(Fake(r.w, 0, false)) {
      TransactionReplays(w, d, queue, exec, t);
    }
  }

  lemma DropTurns(w: World, d: nat, key: Bytestring)
    requires WorldOk(w) && d < |w| && |key| <= INT64_MAX
    ensures var v := w[d := DbDelete(w[d], key)]; var fed := [Record(d, [[DEL, key]])];
      WorldOk(v) && Turns(w, fed, v) && FedFits(fed)
  {
    hide RunAll;
    var v, fed := w[d := DbDelete(w[d], key)], [Record(d, [[DEL, key]])];
    forall t | IsTime(t) ensures Apply(w, false, fed, t) == Some(Fake(v, 0, false)) {
      DeleteRuns(w, d, false, key, t);
      assert |fed[1..]| == 0;
    }
  }

  // ----- rewriting keeps it -----

  lemma ForkRebuilds(w: World, layout: seq<seq<Entry>>, now: int)
    requires WorldOk(w) && 0 < |w| <= MAX_DBS && DepictsAll(layout, w) && now >= 0
    requires LayoutFits(layout, now) && Fresh(w, now)
    ensures Rebuilds(CatAll(Dump(layout, 0, now)), w, -1)
  {
    hide RunAll, Dump, DepictsAll, WorldOk, Fresh, AllUnexpired, CatAll, Fits;
    var cmds := Dump(layout, 0, now);
    NothingSkipped(w, now);
    forall t | IsTime(t) ensures Replays(cmds, w, -1, t) {
      DumpRestores(w, layout, now, t);
    }
    assert CatAll(cmds) == CatAll(Dump(layout, 0, now));
  }

  lemma Forgets(bytes: Bytestring, w: World, selected: int)
    requires |w| > 0 && Rebuilds(bytes, w, selected)
    ensures Rebuilds(bytes, w, -1)
  {
    hide RunAll, CatAll, Fits;
    var cmds :| CatAll(cmds) == bytes && (forall argv :: argv in cmds ==> Fits(argv))
      && (forall t :: IsTime(t) ==> Replays(cmds, w, selected, t));
    assert forall t :: IsTime(t) ==> Replays(cmds, w, selected, t) && Replays(cmds, w, -1, t);
  }

  /** Every event keeps the invariant. */
  lemma StepKeeps(s: Server, e: Event)
    requires Inv(s) && Possible(s, e) && Sound(s, e)
    ensures Inv(Step(s, e))
  {
    hide Rebuilds, WorldOk, Turns, FedFits, Call, Transaction, Lookup, LayoutFits, Fresh, DepictsAll, CatAll, Fits;
    hide SetsRelativeTime, QueueKeepsTime, Queueable, Fed;
    match e
    case Command(d, argv, now) =>
      CommandTurns(s.w, d, argv, now);
      CallFits(s.w, d, argv, now);
      FedKeeps(s, Call(s.w, d, argv, now).fed, Call(s.w, d, argv, now).w);
    case Transact(d, queue, exec) =>
      TransactionTurns(s.w, d, queue, exec);
      TransactionFits(s.w, d, queue, exec);
      FedKeeps(s, Transaction(s.w, d, queue, exec).fed, Transaction(s.w, d, queue, exec).w);
    case Drop(d, key) =>
      DropTurns(s.w, d, key);
      FedKeeps(s, [Record(d, [[DEL, key]])], s.w[d := DbDelete(s.w[d], key)]);
    case Rewrite(layout, now) => if s.child == None { ForkKeeps(s, layout, now); }
    case Start(layout, now) => if s.child == None { ForkKeeps(s.(mode := Waiting), layout, now); }
    case Finish(ok) => DoneKeeps(s, ok);
    case _ => assert s.file + s.buf + [] == s.file + s.buf;
  }

  lemma ForkKeeps(s: Server, layout: seq<seq<Entry>>, now: int)
    requires Inv(s) && s.child == None && DepictsAll(layout, s.w) && now >= 0
    requires LayoutFits(layout, now) && Fresh(s.w, now)
    ensures Inv(Fork(s, layout, now))
  {
    hide Rebuilds, WorldOk, LayoutFits, Fresh, DepictsAll, CatAll;
    ForkRebuilds(s.w, layout, now);
    if s.mode == On { Forgets(s.file + s.buf, s.w, s.selected); }
    var child := Fork(s, layout, now).child.value;
    assert child + [] == child;
  }

  lemma DoneKeeps(s: Server, ok: bool)
    requires Inv(s) && s.child.Some?
    ensures Inv(Done(s, ok))
  {
    hide Rebuilds, WorldOk;
    var file := s.child.value + s.diff;
    if s.mode != Off { Forgets(file, s.w, s.selected); }
    assert file + [] == file;
  }

  // ----- runs -----

  function After(s: Server, run: seq<Event>): Server
    requires Runs(s, run)
    decreases |run|
  {
    if run == [] then s else After(Step(s, run[0]), run[1..])
  }

  ghost predicate Runs(s: Server, run: seq<Event>)
    decreases |run|
  {
    run != [] ==> Possible(s, run[0]) && Runs(Step(s, run[0]), run[1..])
  }

  ghost predicate AllSound(s: Server, run: seq<Event>)
    requires Runs(s, run)
    decreases |run|
  {
    run != [] ==> Sound(s, run[0]) && AllSound(Step(s, run[0]), run[1..])
  }

  lemma {:induction false} RunKeeps(s: Server, run: seq<Event>)
    requires Inv(s) && Runs(s, run) && AllSound(s, run)
    ensures Inv(After(s, run))
    decreases |run|
  {
    if run != [] {
      hide Inv, Step, Possible, Sound;
      StepKeeps(s, run[0]);
      RunKeeps(Step(s, run[0]), run[1..]);
    }
  }

  lemma InitialInv(n: nat)
    requires 0 < n <= MAX_DBS
    ensures Inv(Initial(n))
  {
    var cmds: seq<Argv> := [];
    var w := EmptyWorld(n);
    assert EmptyWorld(|w|) == w;
    forall t | IsTime(t) ensures Replays(cmds, w, -1, t) { RunNothing(Fake(w, 0, false), t); }
    assert CatAll(cmds) == [];
  }

  lemma RebuildsLoads(bytes: Bytestring, w: World, selected: int, t: int)
    requires |w| > 0 && Rebuilds(bytes, w, selected) && IsTime(t)
    ensures LoadFile(|w|, bytes, t) == Some(w)
  {
    hide RunAll, CatAll, Fits, ParseAll;
    var cmds :| CatAll(cmds) == bytes && (forall argv :: argv in cmds ==> Fits(argv))
      && (forall t :: IsTime(t) ==> Replays(cmds, w, selected, t));
    LogParses(cmds);
    assert Replays(cmds, w, selected, t);
  }

  /** The log is the dataset. From a new server, after any run of commands, transactions, expiries,
      evictions, flushes, rewrites that succeed or fail, and switches of the log, whenever the log
      is on: the bytes of the file and of the buffer, loaded at any time, are exactly the live
      databases with their expire times. */
  lemma LogRebuilds(n: nat, run: seq<Event>, t: int)
    requires 0 < n <= MAX_DBS && IsTime(t) && Runs(Initial(n), run) && AllSound(Initial(n), run)
    ensures var s := After(Initial(n), run);
      s.mode == On ==> |s.w| > 0 && LoadFile(|s.w|, s.file + s.buf, t) == Some(s.w)
  {
    hide Runs, AllSound, After, Rebuilds, LoadFile, WorldOk;
    InitialInv(n);
    RunKeeps(Initial(n), run);
    var s := After(Initial(n), run);
    if s.mode == On { RebuildsLoads(s.file + s.buf, s.w, s.selected, t); }
  }

  /** The handover of a background rewrite, after any run. If it succeeds with the log on or waiting
      to be on, the log is on afterwards, and the new file alone is the dataset; if it fails with
      the log on, the old file and the buffer still are. */
  lemma RewriteHandsOver(n: nat, run: seq<Event>, ok: bool, t: int)
    requires 0 < n <= MAX_DBS && IsTime(t) && Runs(Initial(n), run) && AllSound(Initial(n), run)
    requires After(Initial(n), run).child.Some?
    ensures var s := After(Initial(n), run); var u := Done(s, ok);
      && u.w == s.w && |s.w| > 0 && u.child == None && u.diff == []
      && (ok && s.mode != Off ==> u.mode == On && u.buf == [] && LoadFile(|s.w|, u.file, t) == Some(s.w))
      && (!ok && s.mode == On ==> u.mode == On && LoadFile(|s.w|, u.file + u.buf, t) == Some(s.w))
  {
    hide Runs, AllSound, After, Rebuilds, LoadFile, WorldOk;
    InitialInv(n);
    RunKeeps(Initial(n), run);
    var s := After(Initial(n), run);
    DoneKeeps(s, ok);
    var u := Done(s, ok);
    if u.mode == On {
      RebuildsLoads(u.file + u.buf, u.w, u.selected, t);
      assert u.file + [] == u.file;
    }
  }
}
