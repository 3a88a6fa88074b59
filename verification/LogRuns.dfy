/** The log after any run of the server, whatever was past its expire time when a rewrite started, and with SET EX and
    PX: what it rebuilds when it is loaded, exactly. */
module LogRuns {
  import opened Bytes
  import opened Wire
  import opened Strtol
  import opened Commands
  import opened Keyspace
  import opened Effects
  import opened Propagation
  import opened CallReplay
  import opened LogFile
  import opened Rewrite
  import opened LogMachine
  import opened LogDrift

  // ----- transactions -----

  /** A queue, when EXEC comes to it: the clock does not go back before `past`, and no time to live set by SET
      overflows. */
  ghost predicate QueueFair(x: Txn, queue: seq<Queued>, past: int, t: int)
    requires x.db < |x.w| && forall q :: q in queue ==> Queueable(q)
    decreases |queue|
  {
    if queue == [] then true
    else
      var q := queue[0];
      assert q in queue && Queueable(q);
      && past <= q.now && IsTime(q.now) && CallInTime(x.w, x.db, q.argv, q.now, t)
      && QueueFair(ExecOne(x, q), queue[1..], past, t)
  }

  /** The log's databases after the queue. */
  function QueueBehind(x: Txn, u: World, queue: seq<Queued>, t: int): (z: World)
    requires x.db < |x.w| == |u| && forall q :: q in queue ==> Queueable(q)
    ensures |z| == |u|
    decreases |queue|
  {
    if queue == [] then u
    else
      var q := queue[0];
      assert q in queue && Queueable(q);
      QueueBehind(ExecOne(x, q), CallBehind(x.w, u, x.db, q.argv, q.now, t), queue[1..], t)
  }

  function QueueMarks(ms: seq<Marks>, x: Txn, queue: seq<Queued>, past: int): (r: seq<Marks>)
    requires x.db < |x.w| == |ms| && forall q :: q in queue ==> Queueable(q)
    ensures |r| == |ms|
    decreases |queue|
  {
    if queue == [] then ms
    else
      var q := queue[0];
      assert q in queue && Queueable(q);
      QueueMarks(MarksAfterCall(ms, x.w, x.db, q.argv, q.now, past), ExecOne(x, q), queue[1..], past)
  }

  /** The records fed so far, loaded, take v to u, which lags behind the transaction. */
  ghost predicate TxnBehind(v: World, x: Txn, u: World, ms: seq<Marks>, past: int, t: int)
  {
    && WorldOk(x.w) && x.db < |x.w| == |v| == |u| == |ms| && IsTime(t)
    && Apply(v, false, x.fed, t) == Some(Fake(u, 0, x.open)) && Behind(x.w, u, ms, t, past)
  }

  lemma OpeningBehind(u: World, x: Txn, c: Command, t: int)
    requires x.db < |x.w| == |u|
    ensures Apply(u, x.open, Opening(x, c), t) == Some(Fake(u, 0, x.open || !ReadOnly(c)))
  {
    hide Apply, ReadOnly;
    OpeningApplies(x.(w := u), c, t);
    assert Opening(x, c) == Opening(x.(w := u), c);
  }

  lemma ExecOneBehind(v: World, x: Txn, u: World, ms: seq<Marks>, q: Queued, past: int, t: int)
    requires TxnBehind(v, x, u, ms, past, t) && Queueable(q) && past <= q.now && IsTime(q.now)
    requires CallInTime(x.w, x.db, q.argv, q.now, t)
    ensures TxnBehind(v, ExecOne(x, q), CallBehind(x.w, u, x.db, q.argv, q.now, t),
                      MarksAfterCall(ms, x.w, x.db, q.argv, q.now, past), past, t)
  {
    hide Lookup, Call, CallBehind, Apply, CallInTime, SelectedDb, Opening, WorldOk, Behind, MarksAfterCall;
    var c := Lookup(q.argv[0]).value;
    var open := x.open || !ReadOnly(c);
    var fed := Call(x.w, x.db, q.argv, q.now).fed;
    OpeningBehind(u, x, c, t);
    CallOk(x.w, x.db, q.argv, q.now);
    CallKeepsBehind(x.w, u, ms, x.db, q.argv, past, q.now, open, t);
    ApplyAppend(v, false, x.fed, Opening(x, c), t);
    ApplyAppend(v, false, x.fed + Opening(x, c), fed, t);
  }

  lemma QueueFairHead(x: Txn, queue: seq<Queued>, past: int, t: int)
    requires x.db < |x.w| && queue != [] && (forall q :: q in queue ==> Queueable(q)) && QueueFair(x, queue, past, t)
    ensures var q := queue[0];
      && Queueable(q) && past <= q.now && IsTime(q.now) && CallInTime(x.w, x.db, q.argv, q.now, t)
      && (forall p :: p in queue[1..] ==> Queueable(p)) && QueueFair(ExecOne(x, q), queue[1..], past, t)
  {
    hide Queueable, CallInTime, ExecOne;
  }

  lemma {:induction false} QueueStaysBehind(v: World, x: Txn, u: World, ms: seq<Marks>, queue: seq<Queued>, past: int,
                                            t: int)
    requires TxnBehind(v, x, u, ms, past, t)
    requires (forall q :: q in queue ==> Queueable(q)) && QueueFair(x, queue, past, t)
    ensures TxnBehind(v, ExecQueue(x, queue), QueueBehind(x, u, queue, t), QueueMarks(ms, x, queue, past), past, t)
    decreases |queue|
  {
    if queue != [] {
      hide Queueable, QueueFair, ExecOne, CallBehind, MarksAfterCall, Apply, WorldOk, Behind, CallInTime;
      var q := queue[0];
      QueueFairHead(x, queue, past, t);
      ExecOneBehind(v, x, u, ms, q, past, t);
      QueueStaysBehind(v, ExecOne(x, q), CallBehind(x.w, u, x.db, q.argv, q.now, t),
                       MarksAfterCall(ms, x.w, x.db, q.argv, q.now, past), queue[1..], past, t);
    }
  }

  /** What a whole transaction feeds, loaded into databases that lag, keeps them lagging behind what it leaves. */
  lemma TransactionKeepsBehind(w: World, v: World, ms: seq<Marks>, d: nat, queue: seq<Queued>, exec: Argv, past: int,
                               t: int)
    requires WorldOk(w) && Behind(w, v, ms, t, past) && d < |w| && IsTime(t)
    requires Runnable(exec) && Lookup(exec[0]).value == Exec && forall q :: q in queue ==> Queueable(q)
    requires QueueFair(Txn(w, d, [], false), queue, past, t)
    ensures var x, r := Txn(w, d, [], false), Transaction(w, d, queue, exec); var z := QueueBehind(x, v, queue, t);
      && WorldOk(r.w) && Apply(v, false, r.fed, t) == Some(Fake(z, 0, false))
      && Behind(r.w, z, QueueMarks(ms, x, queue, past), t, past)
  {
    hide Lookup, WorldOk, ExecQueue, QueueFair, Queueable, BehindDb, RunOne, QueueBehind, QueueMarks;
    var nil: seq<Record> := [];
    var x := Txn(w, d, nil, false);
    QueueStaysBehind(v, x, v, ms, queue, past, t);
    var y, z := ExecQueue(x, queue), QueueBehind(x, v, queue, t);
    if y.open {
      var last, f := [Record(y.db, [exec])], Fake(z, y.db, true);
      RunSingle(f, exec, t);
      ExecRuns(f, exec, t);
      assert |last[1..]| == 0;
      ApplyAppend(v, false, y.fed, last, t);
    } else {
      assert y.fed + nil == y.fed;
    }
  }

  // ----- one log -----

  /** How far a log may be behind: its marks, and the time before which keys must have expired for it to lack them. */
  datatype Drift = Drift(marks: seq<Marks>, past: int)

  ghost predicate AllFit(cmds: seq<Argv>) { forall argv :: argv in cmds ==> Fits(argv) }

  ghost predicate Yields(cmds: seq<Argv>, w: World, g: Drift, selected: int, t: int)
    requires |w| > 0
  {
    var r := RunAll(Fake(EmptyWorld(|w|), 0, false), cmds, t);
    && r.Some? && !r.value.multi && (selected != -1 ==> r.value.db == selected)
    && Behind(w, r.value.w, g.marks, t, g.past)
  }

  /** These bytes are a log which, loaded at time t, gives databases that lag no further than this. */
  ghost predicate Trails(bytes: Bytestring, w: World, g: Drift, selected: int, t: int)
    requires |w| > 0
  {
    exists cmds :: CatAll(cmds) == bytes && AllFit(cmds) && Yields(cmds, w, g, selected, t)
  }

  lemma TrailsLoads(bytes: Bytestring, w: World, g: Drift, selected: int, t: int)
    requires |w| > 0 && Trails(bytes, w, g, selected, t)
    ensures LoadFile(|w|, bytes, t).Some? && Behind(w, LoadFile(|w|, bytes, t).value, g.marks, t, g.past)
  {
    hide RunAll, CatAll, Fits, ParseAll, Behind;
    var cmds :| CatAll(cmds) == bytes && AllFit(cmds) && Yields(cmds, w, g, selected, t);
    LogParses(cmds);
  }

  lemma TrailsForgets(bytes: Bytestring, w: World, g: Drift, selected: int, t: int)
    requires |w| > 0 && Trails(bytes, w, g, selected, t)
    ensures Trails(bytes, w, g, -1, t)
  {
    hide RunAll, CatAll, Fits, Behind;
    var cmds :| CatAll(cmds) == bytes && AllFit(cmds) && Yields(cmds, w, g, selected, t);
    assert Yields(cmds, w, g, -1, t);
  }

  lemma YieldsFeed(cmds: seq<Argv>, w: World, g: Drift, selected: int, fed: seq<Record>, x: World, h: Drift, t: int)
    requires 0 < |w| == |x| <= MAX_DBS && Yields(cmds, w, g, selected, t)
    requires var v := RunAll(Fake(EmptyWorld(|w|), 0, false), cmds, t).value.w; var r := Apply(v, false, fed, t);
      r.Some? && !r.value.multi && Behind(x, r.value.w, h.marks, t, h.past)
    ensures Yields(cmds + Feed(selected, fed), x, h, LastDb(selected, fed), t)
  {
    hide RunAll, Apply, Feed, Behind;
    var f := Fake(EmptyWorld(|w|), 0, false);
    RunAllAppend(f, cmds, Feed(selected, fed), t);
    FeedRuns(RunAll(f, cmds, t).value, selected, fed, t);
  }

  /** A log that is fed records which take its databases where they should be. */
  lemma TrailsFeed(bytes: Bytestring, w: World, g: Drift, selected: int, fed: seq<Record>, x: World, h: Drift, t: int)
    requires 0 < |w| == |x| <= MAX_DBS && Trails(bytes, w, g, selected, t) && FedFits(fed)
    requires LoadFile(|w|, bytes, t).Some?
    requires var r := Apply(LoadFile(|w|, bytes, t).value, false, fed, t);
      r.Some? && !r.value.multi && Behind(x, r.value.w, h.marks, t, h.past)
    ensures Trails(bytes + CatAll(Feed(selected, fed)), x, h, LastDb(selected, fed), t)
  {
    hide RunAll, Apply, Feed, Behind, CatAll, Fits, FedFits, LastDb, ParseAll, Yields;
    var cmds :| CatAll(cmds) == bytes && AllFit(cmds) && Yields(cmds, w, g, selected, t);
    var all := cmds + Feed(selected, fed);
    LogParses(cmds);
    assert Load(|w|, cmds, t) == LoadFile(|w|, bytes, t);
    var v := LoadFile(|w|, bytes, t).value;
    CatAllAppend(cmds, Feed(selected, fed));
    ApplyDbs(v, false, fed, t);
    FeedFits(selected, fed);
    YieldsFeed(cmds, w, g, selected, fed, x, h, t);
    assert CatAll(all) == bytes + CatAll(Feed(selected, fed));
  }

  // ----- the server -----

  /** The log, and the one that a rewrite is making. */
  datatype Drifts = Drifts(log: Drift, child: Drift)

  ghost predicate TrailInv(s: Server, g: Drifts, t: int)
  {
    && WorldOk(s.w) && 0 < |s.w| <= MAX_DBS && IsTime(t)
    && (s.mode == On ==> Trails(s.file + s.buf, s.w, g.log, s.selected, t))
    && (s.child.Some? && s.mode != Off ==> Trails(s.child.value + s.diff, s.w, g.child, s.selected, t))
    && (s.child == None ==> s.diff == [])
    && (s.mode != On ==> s.buf == [])
  }

  /** An expire time is negative only after an overflow; such a key is never looked upon as expired. */
  ghost predicate NoneNegative(w: World)
  {
    forall d :: 0 <= d < |w| ==> forall k :: k in w[d].expires ==> w[d].expires[k] >= 0
  }

  /** What the event asks for the sake of one log: the clock does not go back behind a rewrite that skipped keys. */
  ghost predicate Spares(w: World, past: int, e: Event, t: int)
  {
    match e
    case Command(d, argv, now) => past <= now
    case Transact(d, queue, exec) =>
      d < |w| && (forall q :: q in queue ==> Queueable(q)) && QueueFair(Txn(w, d, [], false), queue, past, t)
    case _ => true
  }

  /** What the event asks of its caller: clock readings that are times, objects that fit in memory, no overflow of a
      time to live, and no negative expire time when a rewrite starts. */
  ghost predicate EventFair(s: Server, g: Drifts, e: Event, t: int)
    requires Possible(s, e) && |s.w| > 0
  {
    && (match e
        case Command(d, argv, now) => Fits(argv) && CallInTime(s.w, d, argv, now, t)
        case Transact(d, queue, exec) => (forall q :: q in queue ==> Fits(q.argv) && IsTime(q.now)) && Fits(exec)
        case Drop(d, key) => |key| <= INT64_MAX
        case Rewrite(layout, now) => LayoutFits(layout, now) && NoneNegative(s.w)
        case Start(layout, now) => LayoutFits(layout, now) && NoneNegative(s.w)
        case _ => true)
    && (s.mode == On ==> Spares(s.w, g.log.past, e, t))
    && (s.mode != Off && s.child.Some? ==> Spares(s.w, g.child.past, e, t))
  }

  /** What a rewrite starts with: it marks nothing, and lacks what has expired by now. */
  function ForkDrift(w: World, now: int): Drift { Drift(NoMarks(|w|), if Fresh(w, now) then 0 else now) }

  function EventMarks(ms: seq<Marks>, w: World, e: Event, past: int): (r: seq<Marks>)
    requires |ms| == |w|
  {
    match e
    case Command(d, argv, now) => if d < |w| && Runnable(argv) then MarksAfterCall(ms, w, d, argv, now, past) else ms
    case Transact(d, queue, exec) =>
      if d < |w| && forall q :: q in queue ==> Queueable(q) then QueueMarks(ms, Txn(w, d, [], false), queue, past)
      else ms
    case _ => ms
  }

  function DriftAfter(g: Drift, w: World, e: Event): Drift
  {
    if |g.marks| == |w| then g.(marks := EventMarks(g.marks, w, e, g.past)) else g
  }

  function DriftsAfter(s: Server, g: Drifts, e: Event): Drifts
  {
    match e
    case Command(_, _, _) | Transact(_, _, _) | Drop(_, _) =>
      Drifts(DriftAfter(g.log, s.w, e), DriftAfter(g.child, s.w, e))
    case Rewrite(_, now) => if s.child.Some? then g else g.(child := ForkDrift(s.w, now))
    case Start(_, now) => if s.child.Some? then g else g.(child := ForkDrift(s.w, now))
    case Finish(ok) => if ok && s.mode != Off then g.(log := g.child) else g
    case _ => g
  }

  // ----- every event keeps it -----

  /** What an event that feeds writes, and the databases after it. */
  ghost predicate Makes(w: World, e: Event, fed: seq<Record>, x: World, t: int)
  {
    match e
    case Command(d, argv, now) =>
      && d < |w| && Runnable(argv) && IsTime(now) && CallInTime(w, d, argv, now, t)
      && fed == Call(w, d, argv, now).fed && x == Call(w, d, argv, now).w
    case Transact(d, queue, exec) =>
      && d < |w| && (forall q :: q in queue ==> Queueable(q)) && Runnable(exec) && Lookup(exec[0]).value == Exec
      && fed == Transaction(w, d, queue, exec).fed && x == Transaction(w, d, queue, exec).w
    case Drop(d, key) => d < |w| && fed == [Record(d, [[DEL, key]])] && x == w[d := DbDelete(w[d], key)]
    case _ => false
  }

  /** Loaded into databases that lag no further than this, it makes databases that lag no further than that. */
  ghost predicate FedLags(v: World, fed: seq<Record>, x: World, h: Drift, t: int)
    requires |v| > 0
  {
    var r := Apply(v, false, fed, t);
    r.Some? && !r.value.multi && Behind(x, r.value.w, h.marks, t, h.past)
  }

  lemma EventKeepsBehind(w: World, v: World, g: Drift, e: Event, fed: seq<Record>, x: World, t: int)
    requires |w| > 0 && WorldOk(w) && IsTime(t) && Behind(w, v, g.marks, t, g.past)
    requires Spares(w, g.past, e, t) && Makes(w, e, fed, x, t)
    ensures WorldOk(x) && |x| == |w| && FedLags(v, fed, x, DriftAfter(g, w, e), t)
  {
    hide RunAll, Apply, BehindDb, WorldOk, Call, Transaction, Lookup;
    hide CallInTime, QueueFair, MarksAfterCall, QueueMarks, CallBehind, QueueBehind, Queueable;
    match e {
      case Command(d, argv, now) =>
        CallOk(w, d, argv, now);
        CallKeepsBehind(w, v, g.marks, d, argv, g.past, now, false, t);
      case Transact(d, queue, exec) =>
        TransactionKeepsBehind(w, v, g.marks, d, queue, exec, g.past, t);
      case Drop(d, key) =>
        DropKeepsBehind(w, v, g.marks, d, key, g.past, t);
    }
  }

  /** One log through an event that feeds. */
  lemma TrailsOn(bytes: Bytestring, w: World, g: Drift, selected: int, e: Event, fed: seq<Record>, x: World, t: int)
    requires 0 < |w| <= MAX_DBS && WorldOk(w) && IsTime(t) && Trails(bytes, w, g, selected, t) && FedFits(fed)
    requires Spares(w, g.past, e, t) && Makes(w, e, fed, x, t)
    ensures WorldOk(x) && |x| == |w|
    ensures Trails(bytes + CatAll(Feed(selected, fed)), x, DriftAfter(g, w, e), LastDb(selected, fed), t)
  {
    hide RunAll, Apply, Feed, Behind, CatAll, FedFits, LastDb, Trails, WorldOk, LoadFile, Makes, Spares;
    TrailsLoads(bytes, w, g, selected, t);
    EventKeepsBehind(w, LoadFile(|w|, bytes, t).value, g, e, fed, x, t);
    TrailsFeed(bytes, w, g, selected, fed, x, DriftAfter(g, w, e), t);
  }

  lemma DropKeepsBehind(w: World, v: World, ms: seq<Marks>, d: nat, key: Bytestring, past: int, t: int)
    requires WorldOk(w) && Behind(w, v, ms, t, past) && d < |w|
    ensures var x, z := w[d := DbDelete(w[d], key)], v[d := DbDelete(v[d], key)];
      && WorldOk(x) && Behind(x, z, ms, t, past)
      && Apply(v, false, [Record(d, [[DEL, key]])], t) == Some(Fake(z, 0, false))
  {
    hide RunAll, BehindDb;
    var fed := [Record(d, [[DEL, key]])];
    BehindDelete(w, v, ms, t, past, d, key);
    DeleteRuns(v, d, false, key, t);
    assert |fed[1..]| == 0;
  }

  lemma {:induction false} QueueOk(x: Txn, queue: seq<Queued>)
    requires WorldOk(x.w) && x.db < |x.w| && forall q :: q in queue ==> Queueable(q) && IsTime(q.now)
    ensures WorldOk(ExecQueue(x, queue).w)
    decreases |queue|
  {
    if queue != [] {
      hide Queueable, Call, WorldOk, SelectedDb, Opening;
      var q := queue[0];
      assert q in queue && Queueable(q);
      CallOk(x.w, x.db, q.argv, q.now);
      QueueOk(ExecOne(x, q), queue[1..]);
    }
  }

  /** What an event feeds, and the databases after it. */
  ghost function FedBy(s: Server, e: Event): (seq<Record>, World)
    requires Possible(s, e)
  {
    match e
    case Command(d, argv, now) => (Call(s.w, d, argv, now).fed, Call(s.w, d, argv, now).w)
    case Transact(d, queue, exec) => (Transaction(s.w, d, queue, exec).fed, Transaction(s.w, d, queue, exec).w)
    case Drop(d, key) => ([Record(d, [[DEL, key]])], s.w[d := DbDelete(s.w[d], key)])
    case _ => ([], s.w)
  }

  predicate Feeds(e: Event) { e.Command? || e.Transact? || e.Drop? }

  lemma FeedingFits(s: Server, g: Drifts, e: Event, t: int)
    requires |s.w| > 0 && WorldOk(s.w) && Possible(s, e) && EventFair(s, g, e, t) && Feeds(e)
    ensures FedFits(FedBy(s, e).0) && WorldOk(FedBy(s, e).1) && |FedBy(s, e).1| == |s.w|
    ensures Step(s, e) == Fed(s.(w := FedBy(s, e).1), FedBy(s, e).0)
  {
    hide Call, Transaction, WorldOk, Lookup, Fits, FedFits, Fed, Spares, CallInTime, Queueable;
    match e {
      case Command(d, argv, now) =>
        CallFits(s.w, d, argv, now);
        CallOk(s.w, d, argv, now);
      case Transact(d, queue, exec) =>
        TransactionFits(s.w, d, queue, exec);
        TransactionOk(s.w, d, queue, exec);
      case Drop(d, key) =>
        DropTurns(s.w, d, key);
    }
  }

  lemma TransactionOk(w: World, d: nat, queue: seq<Queued>, exec: Argv)
    requires WorldOk(w) && d < |w| && forall q :: q in queue ==> Queueable(q) && IsTime(q.now)
    ensures WorldOk(Transaction(w, d, queue, exec).w) && |Transaction(w, d, queue, exec).w| == |w|
  {
    hide WorldOk, ExecQueue, Queueable;
    QueueOk(Txn(w, d, [], false), queue);
  }

  lemma FedTrails(s: Server, g: Drifts, e: Event, t: int)
    requires TrailInv(s, g, t) && Possible(s, e) && EventFair(s, g, e, t) && Feeds(e)
    ensures TrailInv(Step(s, e), DriftsAfter(s, g, e), t)
  {
    hide Trails, FedFits, CatAll, Feed, LastDb, WorldOk, Call, Transaction, Lookup, Spares, Fits, DriftAfter, Queueable;
    hide CallInTime;
    FeedingFits(s, g, e, t);
    var (fed, x) := FedBy(s, e);
    if s.mode != Off {
      var bytes := CatAll(Feed(s.selected, fed));
      if s.mode == On {
        TrailsOn(s.file + s.buf, s.w, g.log, s.selected, e, fed, x, t);
        Assoc(s.file, s.buf, bytes);
      }
      if s.child.Some? {
        TrailsOn(s.child.value + s.diff, s.w, g.child, s.selected, e, fed, x, t);
        Assoc(s.child.value, s.diff, bytes);
      }
    }
  }

  /** What a rewrite rebuilds lacks nothing but keys past their expire time, if and only if no expire time is
      negative. */
  lemma RewriteIsBehind(w: World, t: int, now: int)
    requires WorldOk(w) && now >= 0
    ensures Behind(w, AllUnexpired(w, now), NoMarks(|w|), t, now) <==> NoneNegative(w)
  {
    var v, ms := AllUnexpired(w, now), NoMarks(|w|);
    if NoneNegative(w) {
      forall d | 0 <= d < |w| ensures BehindDb(w[d], v[d], ms[d], t, now) {
        assert v[d] == Unexpired(w[d], now);
        forall k ensures Like(w[d], v[d], ms[d], k, t, now) { }
      }
    }
    if Behind(w, v, ms, t, now) {
      forall d | 0 <= d < |w| ensures forall k :: k in w[d].expires ==> w[d].expires[k] >= 0 {
        assert v[d] == Unexpired(w[d], now) && BehindDb(w[d], v[d], ms[d], t, now);
        forall k | k in w[d].expires ensures w[d].expires[k] >= 0 {
          assert Like(w[d], v[d], ms[d], k, t, now);
        }
      }
    }
  }

  /** PSETEX makes an expire time negative exactly when the sum with the clock overflows. */
  lemma OverflowIsNegative(w: World, d: nat, argv: Argv, now: int)
    requires d < |w| && ArityOk(PSetEx, |argv|) && IsTime(now)
    requires GetLongLong(argv[2]).Some? && GetLongLong(argv[2]).value > 0
    ensures var v := Effect(w, d, PSetEx, argv, Clock(now, false)).w[d];
      argv[1] in v.expires && (v.expires[argv[1]] < 0 <==> now + GetLongLong(argv[2]).value > INT64_MAX)
  {
    hide GetLongLong, SetKey;
  }

  lemma ForkYields(w: World, layout: seq<seq<Entry>>, now: int, t: int)
    requires WorldOk(w) && 0 < |w| <= MAX_DBS && DepictsAll(layout, w) && now >= 0 && NoneNegative(w)
    ensures Yields(Dump(layout, 0, now), w, ForkDrift(w, now), -1, t)
  {
    hide RunAll, Dump, DepictsAll, WorldOk, NoneNegative, AllUnexpired, BehindDb, Fresh;
    RewriteIsBehind(w, t, now);
    NothingSkipped(w, now);
    SelfBehind(w, t, 0);
    DumpRestores(w, layout, now, t);
  }

  lemma ForkTrails(w: World, layout: seq<seq<Entry>>, now: int, t: int)
    requires WorldOk(w) && 0 < |w| <= MAX_DBS && DepictsAll(layout, w) && now >= 0
    requires LayoutFits(layout, now) && NoneNegative(w)
    ensures Trails(CatAll(Dump(layout, 0, now)), w, ForkDrift(w, now), -1, t)
  {
    hide Dump, DepictsAll, WorldOk, NoneNegative, CatAll, Fits, Yields, ForkDrift;
    var cmds := Dump(layout, 0, now);
    ForkYields(w, layout, now, t);
    assert AllFit(cmds) && CatAll(cmds) == CatAll(Dump(layout, 0, now));
  }

  lemma ForkKeepsTrails(s: Server, g: Drifts, layout: seq<seq<Entry>>, now: int, t: int)
    requires TrailInv(s, g, t) && s.child == None && DepictsAll(layout, s.w) && now >= 0
    requires LayoutFits(layout, now) && NoneNegative(s.w)
    ensures TrailInv(Fork(s, layout, now), g.(child := ForkDrift(s.w, now)), t)
  {
    hide Trails, WorldOk, LayoutFits, NoneNegative, DepictsAll, CatAll, ForkDrift;
    ForkTrails(s.w, layout, now, t);
    if s.mode == On { TrailsForgets(s.file + s.buf, s.w, g.log, s.selected, t); }
    var child := Fork(s, layout, now).child.value;
    assert child + [] == child;
  }

  lemma DoneTrails(s: Server, g: Drifts, ok: bool, t: int)
    requires TrailInv(s, g, t) && s.child.Some?
    ensures TrailInv(Done(s, ok), if ok && s.mode != Off then g.(log := g.child) else g, t)
  {
    hide Trails, WorldOk;
    var file := s.child.value + s.diff;
    if s.mode != Off { TrailsForgets(file, s.w, g.child, s.selected, t); }
    assert file + [] == file;
  }

  /** Every event keeps both logs no further from the databases than their drifts say. */
  lemma StepTrails(s: Server, g: Drifts, e: Event, t: int)
    requires TrailInv(s, g, t) && Possible(s, e) && EventFair(s, g, e, t)
    ensures TrailInv(Step(s, e), DriftsAfter(s, g, e), t)
  {
    if Feeds(e) {
      hide *;
      FedTrails(s, g, e, t);
    } else {
      hide Trails, WorldOk, LayoutFits, NoneNegative, DepictsAll, CatAll, Spares, ForkDrift, Fork, Done;
      match e
      case Rewrite(layout, now) => if s.child == None { ForkKeepsTrails(s, g, layout, now, t); }
      case Start(layout, now) => if s.child == None { ForkKeepsTrails(s.(mode := Waiting), g, layout, now, t); }
      case Finish(ok) => DoneTrails(s, g, ok, t);
      case Flush => assert s.file + s.buf + [] == s.file + s.buf;
      case Stop =>
    }
  }

  // ----- whole runs -----

  ghost predicate AllFair(s: Server, g: Drifts, run: seq<Event>, t: int)
    requires Runs(s, run)
    decreases |run|
  {
    run != [] ==>
      |s.w| > 0 && EventFair(s, g, run[0], t) && AllFair(Step(s, run[0]), DriftsAfter(s, g, run[0]), run[1..], t)
  }

  function DriftsOf(s: Server, g: Drifts, run: seq<Event>): Drifts
    requires Runs(s, run)
    decreases |run|
  {
    if run == [] then g else DriftsOf(Step(s, run[0]), DriftsAfter(s, g, run[0]), run[1..])
  }

  lemma {:induction false} RunTrails(s: Server, g: Drifts, run: seq<Event>, t: int)
    requires TrailInv(s, g, t) && Runs(s, run) && AllFair(s, g, run, t)
    ensures TrailInv(After(s, run), DriftsOf(s, g, run), t)
    decreases |run|
  {
    if run != [] {
      hide TrailInv, Step, Possible, EventFair, DriftsAfter;
      StepTrails(s, g, run[0], t);
      RunTrails(Step(s, run[0]), DriftsAfter(s, g, run[0]), run[1..], t);
    }
  }

  /** A new log marks nothing and lacks nothing. */
  function NoDrifts(n: nat): Drifts { Drifts(Drift(NoMarks(n), 0), Drift(NoMarks(n), 0)) }

  lemma InitialTrails(n: nat, t: int)
    requires 0 < n <= MAX_DBS && IsTime(t)
    ensures TrailInv(Initial(n), NoDrifts(n), t)
  {
    hide Behind;
    var cmds: seq<Argv> := [];
    var w := EmptyWorld(n);
    assert EmptyWorld(|w|) == w;
    RunNothing(Fake(w, 0, false), t);
    SelfBehind(w, t, 0);
    assert AllFit(cmds) && CatAll(cmds) == [] && Yields(cmds, w, NoDrifts(n).log, -1, t);
  }

  /** The bytes, loaded at time t, give databases that differ from these only as the drift says, and not at all where
      it says so. */
  ghost predicate LoadsBehind(bytes: Bytestring, w: World, g: Drift, t: int)
  {
    |w| > 0 &&
    match LoadFile(|w|, bytes, t)
    case None => false
    case Some(v) => Behind(w, v, g.marks, t, g.past) && (g == Drift(NoMarks(|w|), 0) ==> v == w)
  }

  lemma TrailsLoadBehind(bytes: Bytestring, w: World, g: Drift, selected: int, t: int)
    requires |w| > 0 && Trails(bytes, w, g, selected, t)
    ensures LoadsBehind(bytes, w, g, t)
  {
    hide Trails, LoadFile, BehindDb;
    TrailsLoads(bytes, w, g, selected, t);
    if g == Drift(NoMarks(|w|), 0) { BehindIsEqual(w, LoadFile(|w|, bytes, t).value, g.marks, t, g.past); }
  }

  /** The log after any run. From a new server, after any run in which the clock does not go back behind a rewrite that
      skipped keys and no time to live overflows: the log, loaded at time t, gives the live databases, except that it
      lacks keys the server holds although their expire time was before that rewrite, or, where PERSIST has kept such a
      key since, holds anything under it and under keys made from it; and that an expire time last set by SET with EX
      or PX, or taken from such a key by RENAME, is as much later as t is after that SET. */
  lemma LogTrails(n: nat, run: seq<Event>, t: int)
    requires 0 < n <= MAX_DBS && IsTime(t) && Runs(Initial(n), run) && AllFair(Initial(n), NoDrifts(n), run, t)
    ensures var s, g := After(Initial(n), run), DriftsOf(Initial(n), NoDrifts(n), run);
      s.mode == On ==> LoadsBehind(s.file + s.buf, s.w, g.log, t)
  {
    hide Runs, AllFair, After, DriftsOf, Trails, LoadsBehind, WorldOk, NoDrifts;
    InitialTrails(n, t);
    RunTrails(Initial(n), NoDrifts(n), run, t);
    var s, g := After(Initial(n), run), DriftsOf(Initial(n), NoDrifts(n), run);
    if s.mode == On { TrailsLoadBehind(s.file + s.buf, s.w, g.log, s.selected, t); }
  }

  /** The same of the file that a successful rewrite hands over, with the marks that have come since it started. */
  lemma HandoverTrails(n: nat, run: seq<Event>, t: int)
    requires 0 < n <= MAX_DBS && IsTime(t) && Runs(Initial(n), run) && AllFair(Initial(n), NoDrifts(n), run, t)
    requires var s := After(Initial(n), run); s.child.Some? && s.mode != Off
    ensures var s, g := After(Initial(n), run), DriftsOf(Initial(n), NoDrifts(n), run); var u := Done(s, true);
      u.w == s.w && u.mode == On && u.buf == [] && LoadsBehind(u.file, u.w, g.child, t)
  {
    hide Runs, AllFair, After, DriftsOf, Trails, LoadsBehind, WorldOk, NoDrifts;
    InitialTrails(n, t);
    RunTrails(Initial(n), NoDrifts(n), run, t);
    var s, g := After(Initial(n), run), DriftsOf(Initial(n), NoDrifts(n), run);
    TrailsLoadBehind(s.child.value + s.diff, s.w, g.child, s.selected, t);
  }

  // ----- runs without drift -----

  lemma NoMarksAfterCall(w: World, d: nat, argv: Argv, now: int)
    requires d < |w| && Runnable(argv) && !SetsRelativeTime(w, d, argv, now)
    ensures MarksAfterCall(NoMarks(|w|), w, d, argv, now, 0) == NoMarks(|w|)
  {
    hide Lookup, Looked, Effect, RelativeSet, Relative, SetsAnyway, Atoi;
    RelativeIs(argv);
    var c := Lookup(argv[0]).value;
    if Effect(Looked(Lazy(w, []), d, c, argv, now).w, d, c, argv, Clock(now, false)).dirty {
      assert MarksAfter(NO_MARKS, c, argv, now, false) == NO_MARKS;
      assert NoMarks(|w|)[d := NO_MARKS] == NoMarks(|w|);
      assert NO_MARKS.(revived := {}) == NO_MARKS;
    }
  }

  /** A queue that keeps time is fair to a log that lacks nothing, and marks nothing. */
  lemma {:induction false} QueueIsFair(x: Txn, queue: seq<Queued>, t: int)
    requires WorldOk(x.w) && x.db < |x.w| && (forall q :: q in queue ==> Queueable(q)) && QueueKeepsTime(x, queue)
    ensures QueueFair(x, queue, 0, t) && QueueMarks(NoMarks(|x.w|), x, queue, 0) == NoMarks(|x.w|)
    decreases |queue|
  {
    if queue != [] {
      hide Call, WorldOk, SetsRelativeTime, MarksAfterCall, SelectedDb, Opening, Lookup;
      var q := queue[0];
      assert q in queue && Queueable(q);
      CallOk(x.w, x.db, q.argv, q.now);
      CallWidth(x.w, x.db, q.argv, q.now);
      NoMarksAfterCall(x.w, x.db, q.argv, q.now);
      QueueIsFair(ExecOne(x, q), queue[1..], t);
    }
  }

  lemma CallWidth(w: World, d: nat, argv: Argv, now: int)
    requires d < |w| && Runnable(argv)
    ensures |Call(w, d, argv, now).w| == |w|
  {
    hide Lookup, Looked, Effect;
  }

  lemma {:induction false} QueueTimes(x: Txn, queue: seq<Queued>)
    requires x.db < |x.w| && (forall q :: q in queue ==> Queueable(q)) && QueueKeepsTime(x, queue)
    ensures forall q :: q in queue ==> IsTime(q.now)
    decreases |queue|
  {
    if queue != [] {
      hide Queueable, SetsRelativeTime, ExecOne;
      assert queue[0] in queue && Queueable(queue[0]);
      QueueTimes(ExecOne(x, queue[0]), queue[1..]);
      assert forall q :: q in queue ==> q == queue[0] || q in queue[1..];
    }
  }

  lemma SoundMarks(s: Server, e: Event, t: int)
    requires WorldOk(s.w) && Possible(s, e) && Sound(s, e)
    ensures EventMarks(NoMarks(|s.w|), s.w, e, 0) == NoMarks(|s.w|) && Spares(s.w, 0, e, t)
  {
    hide WorldOk, QueueFair, QueueKeepsTime, Queueable, SetsRelativeTime, Lookup, MarksAfterCall, QueueMarks;
    match e
    case Command(d, argv, now) => NoMarksAfterCall(s.w, d, argv, now);
    case Transact(d, queue, exec) => QueueIsFair(Txn(s.w, d, [], false), queue, t);
    case _ =>
  }

  lemma SoundFits(s: Server, e: Event, t: int)
    requires WorldOk(s.w) && Possible(s, e) && Sound(s, e)
    ensures match e
      case Command(d, argv, now) => Fits(argv) && CallInTime(s.w, d, argv, now, t)
      case Transact(d, queue, exec) => (forall q :: q in queue ==> Fits(q.argv) && IsTime(q.now)) && Fits(exec)
      case Drop(d, key) => |key| <= INT64_MAX
      case Rewrite(layout, now) => LayoutFits(layout, now) && NoneNegative(s.w) && Fresh(s.w, now)
      case Start(layout, now) => LayoutFits(layout, now) && NoneNegative(s.w) && Fresh(s.w, now)
      case _ => true
  {
    hide Fits, LayoutFits, QueueKeepsTime, Queueable, Lookup, DepictsAll, SetsRelativeTime;
    match e
    case Transact(d, queue, exec) => QueueTimes(Txn(s.w, d, [], false), queue);
    case _ =>
  }

  /** A sound event is fair to logs without drift, and leaves them so. */
  lemma SoundIsFair(s: Server, e: Event, t: int)
    requires TrailInv(s, NoDrifts(|s.w|), t) && Possible(s, e) && Sound(s, e)
    ensures EventFair(s, NoDrifts(|s.w|), e, t) && DriftsAfter(s, NoDrifts(|s.w|), e) == NoDrifts(|s.w|)
  {
    hide Trails, WorldOk, Possible, Sound, Spares, Fits, LayoutFits, NoneNegative, Fresh, Lookup, CallInTime;
    hide EventMarks;
    SoundMarks(s, e, t);
    SoundFits(s, e, t);
  }

  lemma {:induction false} SoundRunIsFair(s: Server, run: seq<Event>, t: int)
    requires TrailInv(s, NoDrifts(|s.w|), t) && Runs(s, run) && AllSound(s, run)
    ensures AllFair(s, NoDrifts(|s.w|), run, t) && DriftsOf(s, NoDrifts(|s.w|), run) == NoDrifts(|s.w|)
    decreases |run|
  {
    if run != [] {
      assert |s.w| > 0;
      hide TrailInv, Step, Possible, Sound, EventFair, DriftsAfter;
      SoundIsFair(s, run[0], t);
      StepTrails(s, NoDrifts(|s.w|), run[0], t);
      SameSize(s, run[0]);
      SoundRunIsFair(Step(s, run[0]), run[1..], t);
    }
  }

  lemma SameSize(s: Server, e: Event)
    requires Possible(s, e)
    ensures |Step(s, e).w| == |s.w|
  {
    hide Call, ExecQueue, Lookup, Queueable;
  }
}
