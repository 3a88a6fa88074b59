/** A crash at any byte of the log, after any run of the server: what redis-check-aof makes of the file can be
    loaded. Beside what LogMachine keeps, this needs MULTI and EXEC to come in pairs in every log. */
module CrashRecovery {
  import opened Bytes
  import opened Decimal
  import opened Wire
  import opened Strtol
  import opened Commands
  import opened Keyspace
  import opened Effects
  import opened Propagation
  import opened CallReplay
  import opened LogFile
  import opened Rewrite
  import opened LogMachine
  import opened LogDrift
  import opened LogRuns
  import opened CheckAofModel
  import opened CheckAofTheorem

  // ----- MULTI and EXEC in pairs -----

  /** Whether a transaction is open after one more command; None where the command does not fit. */
  function Nested(argv: Argv, open: bool): Option<bool>
  {
    if !Runnable(argv) then None
    else
      match Lookup(argv[0]).value
      case Multi => if open then None else Some(true)
      case Exec => if open then Some(false) else None
      case _ => Some(open)
  }

  function Nest(cmds: seq<Argv>, open: bool): Option<bool>
    decreases |cmds|
  {
    if cmds == [] then Some(open)
    else match Nested(cmds[0], open) case None => None case Some(o) => Nest(cmds[1..], o)
  }

  /** The same over what is fed, before SELECTs are put in. */
  function NestFed(fed: seq<Record>, open: bool): Option<bool>
    decreases |fed|
  {
    if fed == [] then Some(open)
    else match Nest(fed[0].cmds, open) case None => None case Some(o) => NestFed(fed[1..], o)
  }

  lemma {:induction false} NestAppend(a: seq<Argv>, b: seq<Argv>, open: bool)
    ensures Nest(a + b, open) == (match Nest(a, open) case None => None case Some(o) => Nest(b, o))
    decreases |a|
  {
    hide Nested;
    if a == [] {
      assert a + b == b;
    } else {
      assert (a + b)[1..] == a[1..] + b;
      match Nested(a[0], open)
      case None =>
      case Some(o) => NestAppend(a[1..], b, o);
    }
  }

  lemma {:induction false} NestFedAppend(a: seq<Record>, b: seq<Record>, open: bool)
    ensures NestFed(a + b, open) == (match NestFed(a, open) case None => None case Some(o) => NestFed(b, o))
    decreases |a|
  {
    hide Nest;
    if a == [] {
      assert a + b == b;
    } else {
      assert (a + b)[1..] == a[1..] + b;
      match Nest(a[0].cmds, open)
      case None =>
      case Some(o) => NestFedAppend(a[1..], b, o);
    }
  }

  lemma SelectNests(d: nat, open: bool)
    ensures Nest([SelectCommand(d)], open) == Some(open)
  {
    Names();
    hide Lookup, Print;
    assert |[SelectCommand(d)][1..]| == 0;
  }

  lemma {:induction false} FeedNests(selected: int, fed: seq<Record>, open: bool)
    ensures Nest(Feed(selected, fed), open) == NestFed(fed, open)
    decreases |fed|
  {
    hide Nested, SelectCommand;
    if fed != [] {
      var sel := if fed[0].db != selected then [SelectCommand(fed[0].db)] else [];
      var more := Feed(fed[0].db, fed[1..]);
      assert Feed(selected, fed) == sel + (fed[0].cmds + more);
      SelectNests(fed[0].db, open);
      NestAppend(sel, fed[0].cmds + more, open);
      NestAppend(fed[0].cmds, more, open);
      match Nest(fed[0].cmds, open)
      case None =>
      case Some(o) => FeedNests(fed[0].db, fed[1..], o);
    }
  }

  // ----- commands that are neither -----

  predicate PlainOne(argv: Argv)
  {
    Runnable(argv) && Lookup(argv[0]).value != Multi && Lookup(argv[0]).value != Exec
  }

  predicate Plain(cmds: seq<Argv>) { forall argv :: argv in cmds ==> PlainOne(argv) }

  predicate PlainFed(fed: seq<Record>) { forall r :: r in fed ==> Plain(r.cmds) }

  lemma {:induction false} PlainNests(cmds: seq<Argv>, open: bool)
    requires Plain(cmds)
    ensures Nest(cmds, open) == Some(open)
    decreases |cmds|
  {
    hide Lookup, Runnable;
    if cmds != [] {
      assert PlainOne(cmds[0]);
      PlainNests(cmds[1..], open);
    }
  }

  lemma {:induction false} PlainFedNests(fed: seq<Record>, open: bool)
    requires PlainFed(fed)
    ensures NestFed(fed, open) == Some(open)
    decreases |fed|
  {
    hide Plain;
    if fed != [] {
      assert fed[0] in fed;
      PlainNests(fed[0].cmds, open);
      PlainFedNests(fed[1..], open);
    }
  }

  lemma DelIsPlain(key: Bytestring)
    ensures PlainOne([DEL, key])
  {
    Names();
    hide Lookup;
  }

  lemma {:induction false} DeletionsPlain(gone: seq<Target>)
    ensures PlainFed(Deletions(gone))
    decreases |gone|
  {
    hide PlainOne;
    if gone != [] {
      DelIsPlain(gone[0].key);
      DeletionsPlain(gone[1..]);
    }
  }

  lemma TranslatePlain(argv: Argv, now: int)
    requires PlainOne(argv)
    ensures Plain(Translate(argv, now))
  {
    Names();
    hide Lookup, FedWhen, Print;
  }

  lemma MultiChangesNothing(w: World, d: nat, argv: Argv, clock: Clock)
    requires d < |w| && Runnable(argv) && Lookup(argv[0]).value == Multi
    ensures !Effect(w, d, Multi, argv, clock).dirty
  {
    hide Lookup;
  }

  /** What a call feeds has no MULTI or EXEC in it. */
  lemma CallPlain(w: World, d: nat, argv: Argv, now: int)
    requires d < |w| && Runnable(argv) && Lookup(argv[0]).value != Exec
    ensures PlainFed(Call(w, d, argv, now).fed)
  {
    hide Lookup, Looked, Effect, Translate, PlainOne;
    var c := Lookup(argv[0]).value;
    var s := Looked(Lazy(w, []), d, c, argv, now);
    DeletionsPlain(s.gone);
    var o := Effect(s.w, d, c, argv, Clock(now, false));
    RewrittenRunnable(s.w, d, argv, Clock(now, false));
    if o.dirty {
      if c == Multi { MultiChangesNothing(s.w, d, argv, Clock(now, false)); }
      if |argv| > 1 { DelIsPlain(argv[1]); }
      assert PlainOne(o.argv) by { NotNesting(argv); }
      TranslatePlain(o.argv, now);
    }
  }

  lemma NotNesting(argv: Argv)
    ensures Runnable(argv) && Lookup(argv[0]).value != Multi && Lookup(argv[0]).value != Exec ==> PlainOne(argv)
  {
    hide Lookup;
  }

  // ----- transactions -----

  lemma MultiNests()
    ensures Nest([[MULTI]], false) == Some(true)
  {
    Names();
    hide Lookup;
    assert |[[MULTI]][1..]| == 0;
  }

  lemma ExecNests(exec: Argv)
    requires Runnable(exec) && Lookup(exec[0]).value == Exec
    ensures Nest([exec], true) == Some(false)
  {
    hide Lookup;
    assert |[exec][1..]| == 0;
  }

  lemma OneRecord(r: Record, open: bool)
    ensures NestFed([r], open) == Nest(r.cmds, open)
  {
    hide Nest;
    assert |[r][1..]| == 0;
  }

  lemma ExecOneNests(x: Txn, q: Queued)
    requires x.db < |x.w| && Queueable(q) && NestFed(x.fed, false) == Some(x.open)
    ensures NestFed(ExecOne(x, q).fed, false) == Some(ExecOne(x, q).open)
  {
    hide Lookup, Call, SelectedDb, NestFed, Nest, ReadOnly;
    var c := Lookup(q.argv[0]).value;
    var opening, r := Opening(x, c), Call(x.w, x.db, q.argv, q.now);
    MultiNests();
    OneRecord(Record(x.db, [[MULTI]]), false);
    NestFedAppend(x.fed, opening, false);
    if opening == [] { assert x.fed + opening == x.fed; }
    CallPlain(x.w, x.db, q.argv, q.now);
    PlainFedNests(r.fed, ExecOne(x, q).open);
    NestFedAppend(x.fed + opening, r.fed, false);
  }

  lemma {:induction false} QueueNests(x: Txn, queue: seq<Queued>)
    requires x.db < |x.w| && (forall q :: q in queue ==> Queueable(q)) && NestFed(x.fed, false) == Some(x.open)
    ensures NestFed(ExecQueue(x, queue).fed, false) == Some(ExecQueue(x, queue).open)
    decreases |queue|
  {
    if queue != [] {
      hide Queueable, ExecOne, NestFed;
      assert queue[0] in queue;
      ExecOneNests(x, queue[0]);
      QueueNests(ExecOne(x, queue[0]), queue[1..]);
    }
  }

  lemma TransactionNests(w: World, d: nat, queue: seq<Queued>, exec: Argv)
    requires d < |w| && (forall q :: q in queue ==> Queueable(q)) && Runnable(exec) && Lookup(exec[0]).value == Exec
    ensures NestFed(Transaction(w, d, queue, exec).fed, false) == Some(false)
  {
    hide Lookup, ExecQueue, Queueable, Nest, Runnable;
    var x := ExecQueue(Txn(w, d, [], false), queue);
    QueueNests(Txn(w, d, [], false), queue);
    hide NestFed;
    if x.open {
      ExecNests(exec);
      OneRecord(Record(x.db, [exec]), true);
      NestFedAppend(x.fed, [Record(x.db, [exec])], false);
    } else {
      var nil: seq<Record> := [];
      assert x.fed + nil == x.fed;
    }
  }

  // ----- rewritten logs -----

  lemma {:induction false} ChunkedPlain(name: Bytestring, key: Bytestring, items: Argv, per: nat)
    requires per > 0 && ((per % 2 == 0 && |items| % 2 == 0) || name != HMSET)
    requires name == RPUSH || name == SADD || name == HMSET
    ensures Plain(Chunked(name, key, items, per))
    decreases |items|
  {
    Names();
    hide Lookup;
    if |items| > per {
      ChunkedPlain(name, key, items[per..], per);
    }
  }

  lemma EntryPlain(e: Entry, now: int)
    requires WholePairs(e.value)
    ensures Plain(EntryCommands(e, now))
  {
    Names();
    hide Lookup, Print, Chunked;
    match e.value
    case StoredString(b) =>
    case StoredList(items) => ChunkedPlain(RPUSH, e.key, items, ITEMS_PER_CMD);
    case StoredSet(members) => ChunkedPlain(SADD, e.key, members, ITEMS_PER_CMD);
    case StoredHash(pairs) => ChunkedPlain(HMSET, e.key, pairs, 2 * ITEMS_PER_CMD);
  }

  lemma {:induction false} EntriesPlain(entries: seq<Entry>, now: int)
    requires forall e :: e in entries ==> WholePairs(e.value)
    ensures Plain(EntriesCommands(entries, now))
    decreases |entries|
  {
    hide PlainOne, EntryCommands, WholePairs;
    if entries != [] {
      assert entries[0] in entries;
      EntryPlain(entries[0], now);
      EntriesPlain(entries[1..], now);
    }
  }

  lemma SelectIsPlain(d: nat)
    ensures PlainOne(SelectCommand(d))
  {
    Names();
    hide Lookup, Print;
  }

  lemma {:induction false} DumpPlain(layout: seq<seq<Entry>>, d: nat, now: int)
    requires forall entries, e :: entries in layout && e in entries ==> WholePairs(e.value)
    ensures Plain(Dump(layout, d, now))
    decreases |layout|
  {
    hide PlainOne, EntriesCommands, WholePairs, SelectCommand;
    if layout != [] {
      assert layout[0] in layout;
      SelectIsPlain(d);
      EntriesPlain(layout[0], now);
      DumpPlain(layout[1..], d + 1, now);
    }
  }

  lemma LayoutWhole(layout: seq<seq<Entry>>, w: World)
    requires DepictsAll(layout, w)
    ensures forall entries, e :: entries in layout && e in entries ==> WholePairs(e.value)
  {
    forall entries, e | entries in layout && e in entries ensures WholePairs(e.value) {
      var d :| 0 <= d < |layout| && layout[d] == entries;
      assert Depicts(layout[d], w[d]);
      var i :| 0 <= i < |entries| && entries[i] == e;
    }
  }

  // ----- in every run -----

  /** These bytes are whole commands with every transaction closed. */
  ghost predicate Closed(bytes: Bytestring)
  {
    exists cmds :: CatAll(cmds) == bytes && (forall argv :: argv in cmds ==> Fits(argv))
      && Nest(cmds, false) == Some(false)
  }

  ghost predicate LogsClosed(s: Server)
  {
    && |s.w| <= MAX_DBS
    && (s.mode == On ==> Closed(s.file + s.buf))
    && (s.child.Some? ==> Closed(s.child.value + s.diff))
    && (s.child == None ==> s.diff == [])
    && (s.mode != On ==> s.buf == [])
  }

  lemma ClosedFeed(bytes: Bytestring, selected: int, fed: seq<Record>)
    requires Closed(bytes) && FedFits(fed) && (forall r :: r in fed ==> r.db <= INT64_MAX)
      && NestFed(fed, false) == Some(false)
    ensures Closed(bytes + CatAll(Feed(selected, fed)))
  {
    hide CatAll, Fits, Nest, NestFed, Feed, FedFits;
    var cmds :| CatAll(cmds) == bytes && (forall argv :: argv in cmds ==> Fits(argv))
      && Nest(cmds, false) == Some(false);
    FeedFits(selected, fed);
    FeedNests(selected, fed, false);
    NestAppend(cmds, Feed(selected, fed), false);
    CatAllAppend(cmds, Feed(selected, fed));
    assert CatAll(cmds + Feed(selected, fed)) == bytes + CatAll(Feed(selected, fed));
  }

  lemma FedCloses(s: Server, fed: seq<Record>, v: World)
    requires LogsClosed(s) && |v| == |s.w| && FedFits(fed) && (forall r :: r in fed ==> r.db <= INT64_MAX)
    requires NestFed(fed, false) == Some(false)
    ensures LogsClosed(Fed(s.(w := v), fed))
  {
    hide Closed, FedFits, NestFed, CatAll, Feed, LastDb;
    if s.mode != Off {
      var bytes := CatAll(Feed(s.selected, fed));
      if s.mode == On {
        ClosedFeed(s.file + s.buf, s.selected, fed);
        Assoc(s.file, s.buf, bytes);
      }
      if s.child.Some? {
        ClosedFeed(s.child.value + s.diff, s.selected, fed);
        Assoc(s.child.value, s.diff, bytes);
      }
    }
  }

  lemma ForkCloses(s: Server, layout: seq<seq<Entry>>, now: int)
    requires LogsClosed(s) && s.child == None && DepictsAll(layout, s.w) && LayoutFits(layout, now)
    ensures LogsClosed(Fork(s, layout, now))
  {
    hide CatAll, Fits, Nest, Dump, DepictsAll, WholePairs, Plain;
    var cmds := Dump(layout, 0, now);
    LayoutWhole(layout, s.w);
    DumpPlain(layout, 0, now);
    PlainNests(cmds, false);
    var child := Fork(s, layout, now).child.value;
    assert CatAll(cmds) == child;
    assert child + [] == child;
  }

  lemma DoneCloses(s: Server, ok: bool)
    requires LogsClosed(s) && s.child.Some?
    ensures LogsClosed(Done(s, ok))
  {
    hide Closed;
    var file := s.child.value + s.diff;
    assert file + [] == file;
  }

  /** Clock readings that are times, and objects that fit in memory. */
  ghost predicate EventFits(e: Event)
  {
    match e
    case Command(_, argv, now) => Fits(argv) && IsTime(now)
    case Transact(_, queue, exec) => (forall q :: q in queue ==> Fits(q.argv) && IsTime(q.now)) && Fits(exec)
    case Drop(_, key) => |key| <= INT64_MAX
    case Rewrite(layout, now) => LayoutFits(layout, now)
    case Start(layout, now) => LayoutFits(layout, now)
    case _ => true
  }

  /** Every event leaves whole commands and closed transactions. */
  lemma StepCloses(s: Server, e: Event)
    requires WorldOk(s.w) && LogsClosed(s) && Possible(s, e) && EventFits(e)
    ensures LogsClosed(Step(s, e))
  {
    hide Closed, WorldOk, Turns, FedFits, Call, Transaction, Lookup, LayoutFits, DepictsAll, CatAll, Fits, Queueable;
    hide Fed, PlainFed, NestFed, Runnable;
    match e
    case Command(d, argv, now) =>
      var r := Call(s.w, d, argv, now);
      CallFits(s.w, d, argv, now);
      CallPlain(s.w, d, argv, now);
      PlainFedNests(r.fed, false);
      CommandDbs(s.w, d, argv, now);
      FedCloses(s, r.fed, r.w);
    case Transact(d, queue, exec) =>
      var r := Transaction(s.w, d, queue, exec);
      TransactionFits(s.w, d, queue, exec);
      TransactionNests(s.w, d, queue, exec);
      TransactionDbs(s.w, d, queue, exec);
      FedCloses(s, r.fed, r.w);
    case Drop(d, key) =>
      DropTurns(s.w, d, key);
      DropNests(d, key);
      FedCloses(s, [Record(d, [[DEL, key]])], s.w[d := DbDelete(s.w[d], key)]);
    case Rewrite(layout, now) => if s.child == None { ForkCloses(s, layout, now); }
    case Start(layout, now) => if s.child == None { ForkCloses(s.(mode := Waiting), layout, now); }
    case Finish(ok) => DoneCloses(s, ok);
    case _ => assert s.file + s.buf + [] == s.file + s.buf;
  }

  lemma DropNests(d: nat, key: Bytestring)
    ensures NestFed([Record(d, [[DEL, key]])], false) == Some(false)
  {
    hide NestFed, PlainOne;
    DelIsPlain(key);
    assert Plain([[DEL, key]]);
    PlainNests([[DEL, key]], false);
    OneRecord(Record(d, [[DEL, key]]), false);
  }

  ghost predicate DbsIn(fed: seq<Record>, n: nat) { forall r :: r in fed ==> r.db < n }

  lemma CommandDbs(w: World, d: nat, argv: Argv, now: int)
    requires WorldOk(w) && d < |w| && Runnable(argv) && IsTime(now)
    ensures DbsIn(Call(w, d, argv, now).fed, |w|) && |Call(w, d, argv, now).w| == |w|
  {
    hide Call, SetsRelativeTime, Runnable, WorldOk, Apply;
    CallReplays(w, d, argv, now, false, now);
    ApplyDbs(w, false, Call(w, d, argv, now).fed, now);
  }

  lemma {:induction false} QueueDbs(x: Txn, queue: seq<Queued>)
    requires WorldOk(x.w) && x.db < |x.w| && DbsIn(x.fed, |x.w|)
    requires forall q :: q in queue ==> Queueable(q) && IsTime(q.now)
    ensures var y := ExecQueue(x, queue); |y.w| == |x.w| && DbsIn(y.fed, |y.w|)
    decreases |queue|
  {
    if queue != [] {
      hide Lookup, Call, WorldOk, SelectedDb;
      var q := queue[0];
      assert q in queue && Queueable(q);
      CommandDbs(x.w, x.db, q.argv, q.now);
      CallOk(x.w, x.db, q.argv, q.now);
      QueueDbs(ExecOne(x, q), queue[1..]);
    }
  }

  lemma TransactionDbs(w: World, d: nat, queue: seq<Queued>, exec: Argv)
    requires WorldOk(w) && d < |w| && forall q :: q in queue ==> Queueable(q) && IsTime(q.now)
    ensures DbsIn(Transaction(w, d, queue, exec).fed, |w|) && |Transaction(w, d, queue, exec).w| == |w|
  {
    hide WorldOk, ExecQueue, Queueable;
    QueueDbs(Txn(w, d, [], false), queue);
  }

  lemma FairFits(s: Server, g: Drifts, e: Event, t: int)
    requires |s.w| > 0 && Possible(s, e) && EventFair(s, g, e, t)
    ensures EventFits(e)
  {
    hide Spares, CallInTime, Fits, LayoutFits, NoneNegative, Lookup, DepictsAll;
  }

  lemma {:induction false} RunCloses(s: Server, g: Drifts, run: seq<Event>, t: int)
    requires TrailInv(s, g, t) && LogsClosed(s) && Runs(s, run) && AllFair(s, g, run, t)
    ensures LogsClosed(After(s, run))
    decreases |run|
  {
    if run != [] {
      assert WorldOk(s.w) && |s.w| > 0;
      hide TrailInv, Step, Possible, EventFair, LogsClosed, DriftsAfter, WorldOk;
      StepTrails(s, g, run[0], t);
      FairFits(s, g, run[0], t);
      StepCloses(s, run[0]);
      RunCloses(Step(s, run[0]), DriftsAfter(s, g, run[0]), run[1..], t);
    }
  }

  lemma InitialCloses(n: nat)
    requires 0 < n <= MAX_DBS
    ensures LogsClosed(Initial(n))
  {
    var cmds: seq<Argv> := [];
    assert CatAll(cmds) == [] && Nest(cmds, false) == Some(false);
  }

  // ----- after a crash -----

  /** Both readings of MULTI and EXEC agree. */
  lemma {:induction false} NestIsMultiAfter(cmds: seq<Argv>, open: bool)
    requires Nest(cmds, open).Some?
    ensures MultiAfter(cmds, if open then 1 else 0) == Some(if Nest(cmds, open).value then 1 else 0)
    ensures forall argv :: argv in cmds ==> Runnable(argv)
    decreases |cmds|
  {
    if cmds != [] {
      NestedEnters(cmds[0], open);
      hide Nested, Enter, Runnable;
      NestIsMultiAfter(cmds[1..], Nested(cmds[0], open).value);
    }
  }

  lemma NestedEnters(argv: Argv, open: bool)
    requires Nested(argv, open).Some?
    ensures Runnable(argv) && argv != []
      && Enter(argv[0], if open then 1 else 0) == Some(if Nested(argv, open).value then 1 else 0)
  {
    hide IsWord, Lookup;
    WordsAreNames(argv[0]);
  }

  lemma ClosedLog(bytes: Bytestring) returns (cmds: seq<Argv>)
    requires Closed(bytes)
    ensures CatAll(cmds) == bytes && WellFormed(cmds, 0) && (forall argv :: argv in cmds ==> Runnable(argv))
    ensures ParseAll(bytes) == Some(cmds) && MultiAfter(cmds, 0) == Some(0)
  {
    hide CatAll, Fits, Nest, Runnable, MultiAfter, ParseAll;
    cmds :| CatAll(cmds) == bytes && (forall argv :: argv in cmds ==> Fits(argv)) && Nest(cmds, false) == Some(false);
    NestIsMultiAfter(cmds, false);
    LogParses(cmds);
  }

  lemma WholeIsLast(cmds: seq<Argv>, j: nat)
    requires LastClosed(cmds, |CatAll(cmds)|, 0, j) && MultiAfter(cmds, 0) == Some(0)
    ensures Boundary(cmds, j) == |CatAll(cmds)|
  {
    hide CatAll, MultiAfter;
    assert cmds[..|cmds|] == cmds;
  }

  /** After any fair run with the log on, let a crash leave the first k bytes of what was to be in the file. The tool
      keeps a length that can be loaded; nothing longer of what is left could be; and if all was written, all is kept,
      and it gives the databases of the server but for the drift of the log. */
  lemma CrashIsRepaired(n: nat, run: seq<Event>, k: nat, t: int)
    requires 0 < n <= MAX_DBS && IsTime(t) && Runs(Initial(n), run) && AllFair(Initial(n), NoDrifts(n), run, t)
    requires var s := After(Initial(n), run); s.mode == On && k <= |s.file + s.buf|
    ensures var s, g := After(Initial(n), run), DriftsOf(Initial(n), NoDrifts(n), run);
      var left := (s.file + s.buf)[..k]; var r := SafeLength(left);
      && |s.w| > 0 && r <= k && LoadFile(|s.w|, left[..r], t).Some?
      && (forall p :: r < p <= k ==> LoadFile(|s.w|, left[..p], t) == None)
      && (k == |s.file + s.buf| ==> r == k && LoadsBehind(left[..r], s.w, g.log, t))
  {
    hide Runs, AllFair, After, DriftsOf, LoadFile, WorldOk, SafeLength, Closed, WellFormed, Runnable, MultiAfter;
    hide CatAll, NoDrifts, Trails, LoadsBehind;
    InitialTrails(n, t);
    InitialCloses(n);
    RunTrails(Initial(n), NoDrifts(n), run, t);
    RunCloses(Initial(n), NoDrifts(n), run, t);
    var s := After(Initial(n), run);
    var log := s.file + s.buf;
    var cmds := ClosedLog(log);
    assert |s.w| > 0;
    var j := RepairedLoads(cmds, k, |s.w|, t);
    if k == |log| {
      var i := KeepsTheMost(cmds, k);
      WholeIsLast(cmds, i);
      assert log[..k] == log && log[..k][..k] == log;
      LogTrails(n, run, t);
    }
  }
}
