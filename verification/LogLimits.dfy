/** Where the log falls short of the dataset, and exactly when. */
module LogLimits {
  import opened Bytes
  import opened Wire
  import opened Commands
  import opened Keyspace
  import opened Propagation
  import opened CallReplay
  import opened LogFile
  import opened Rewrite
  import opened LogMachine

  lemma DumpLoads(w: World, layout: seq<seq<Entry>>, now: int, t: int)
    requires WorldOk(w) && 0 < |w| <= MAX_DBS && DepictsAll(layout, w) && LayoutFits(layout, now) && now >= 0
    ensures LoadFile(|w|, CatAll(Dump(layout, 0, now)), t) == Some(AllUnexpired(w, now))
  {
    hide RunAll, ParseAll, CatAll, Fits, Dump, DepictsAll, AllUnexpired, WorldOk;
    LogParses(Dump(layout, 0, now));
    DumpRestores(w, layout, now, t);
  }

  /** What a rewrite child writes is the dataset as of the fork if and only if no key is past its
      expire time when the child starts. */
  lemma ForkIsExact(w: World, layout: seq<seq<Entry>>, now: int, t: int)
    requires WorldOk(w) && 0 < |w| <= MAX_DBS && DepictsAll(layout, w) && LayoutFits(layout, now) && now >= 0
    ensures LoadFile(|w|, CatAll(Dump(layout, 0, now)), t) == Some(w) <==> Fresh(w, now)
  {
    hide LoadFile, Dump, CatAll, DepictsAll, AllUnexpired, Fresh, WorldOk, LayoutFits;
    DumpLoads(w, layout, now, t);
    NothingSkipped(w, now);
  }

  ghost predicate IsPersist(argv: Argv, key: Bytestring)
  {
    Runnable(argv) && Lookup(argv[0]) == Some(Persist) && argv[1] == key
  }

  lemma PersistCalls(w: World, d: nat, argv: Argv, key: Bytestring, now: int)
    requires d < |w| && IsPersist(argv, key) && key in w[d].expires
    ensures Runnable(argv)
    ensures Call(w, d, argv, now) == Called(w[d := w[d].(expires := w[d].expires - {key})], [Record(d, [argv])])
  {
    hide Lookup;
    var nil: seq<Record> := [];
    assert Looked(Lazy(w, []), d, Persist, argv, now) == Lazy(w, []);
    assert Deletions([]) == nil;
    assert nil + [Record(d, [argv])] == [Record(d, [argv])];
  }

  lemma PersistApplies(w: World, d: nat, argv: Argv, key: Bytestring, t: int)
    requires d < |w| && IsPersist(argv, key)
    ensures var r := Apply(w, false, [Record(d, [argv])], t);
      r.Some? && !r.value.multi && r.value.w == w[d := w[d].(expires := w[d].expires - {key})]
  {
    hide Lookup, RunAll, RunOne;
    var fed := [Record(d, [argv])];
    RunSingle(Fake(w, d, false), argv, t);
    PlainRuns(w, d, false, argv, t);
    assert |fed[1..]| == 0;
  }

  /** The server holds the key; the file, loaded, does not. */
  ghost predicate Lost(u: Server, d: nat, key: Bytestring, t: int)
  {
    && d < |u.w| && key in u.w[d].dict
    && (match LoadFile(|u.w|, u.file, t) case None => false case Some(v) => key !in v[d].dict)
  }

  /** A key skipped by the rewrite can survive in memory, for PERSIST does not look whether it has
      expired: after a rewrite, a PERSIST of such a key, and a successful handover, the server holds
      the key for good and the log does not. */
  lemma SkippedKeyIsLost(s: Server, layout: seq<seq<Entry>>, now: int, d: nat, argv: Argv, key: Bytestring, later: int,
                         t: int)
    requires Inv(s) && s.mode == On && s.child == None && DepictsAll(layout, s.w) && LayoutFits(layout, now) && now >= 0
    requires d < |s.w| && IsPersist(argv, key) && Fits(argv)
    requires key in s.w[d].expires && s.w[d].expires[key] < now && s.w[d].expires[key] != -1
    ensures Runnable(argv) && Lost(AfterCall(s, layout, now, Call(s.w, d, argv, later)), d, key, t)
  {
    hide *;
    InvWorld(s);
    PersistCalls(s.w, d, argv, key, later);
    var fed, r, v := [Record(d, [argv])], Call(s.w, d, argv, later), AllUnexpired(s.w, now);
    HandsOver(s, layout, now, r);
    KeyOfExpire(s.w, d, key);
    SkippedIsGone(s.w, d, key, now);
    PersistApplies(v, d, argv, key, t);
    DumpThenFeed(s.w, layout, now, fed, t);
    DumpAndFedFit(s, layout, now, d, argv);
    FileLoads(|s.w|, Dump(layout, 0, now) + Feed(-1, fed), t);
    IsLost(AfterCall(s, layout, now, r), d, key, t, v[d := v[d].(expires := v[d].expires - {key})]);
  }

  lemma IsLost(u: Server, d: nat, key: Bytestring, t: int, v: World)
    requires d < |u.w| && key in u.w[d].dict && LoadFile(|u.w|, u.file, t) == Some(v) && key !in v[d].dict
    ensures Lost(u, d, key, t)
  {
  }

  lemma SkippedIsGone(w: World, d: nat, key: Bytestring, now: int)
    requires d < |w| && key in w[d].expires && w[d].expires[key] < now && w[d].expires[key] != -1
    ensures key !in AllUnexpired(w, now)[d].dict
  {
    assert AllUnexpired(w, now)[d] == Unexpired(w[d], now);
  }

  lemma DumpAndFedFit(s: Server, layout: seq<seq<Entry>>, now: int, d: nat, argv: Argv)
    requires Inv(s) && d < |s.w| && LayoutFits(layout, now) && Fits(argv)
    ensures forall a :: a in Dump(layout, 0, now) + Feed(-1, [Record(d, [argv])]) ==> Fits(a)
  {
    hide Fits, Dump, Rebuilds, Feed, WorldOk;
    FeedFits(-1, [Record(d, [argv])]);
  }

  lemma HandsOver(s: Server, layout: seq<seq<Entry>>, now: int, r: Called)
    requires Inv(s) && s.mode == On && s.child == None
    ensures AfterCall(s, layout, now, r).w == r.w
    ensures AfterCall(s, layout, now, r).file == CatAll(Dump(layout, 0, now) + Feed(-1, r.fed))
  {
    hide Dump, CatAll, Rebuilds, WorldOk, Feed;
    var dump, more := Dump(layout, 0, now), Feed(-1, r.fed);
    CatAllAppend(dump, more);
    var nil: Bytestring := [];
    assert nil + CatAll(more) == CatAll(more);
  }

  /** A rewrite, a call meanwhile, and the rewrite's success. */
  function AfterCall(s: Server, layout: seq<seq<Entry>>, now: int, r: Called): Server
  {
    Done(Fed(Fork(s, layout, now).(w := r.w), r.fed), true)
  }

  lemma InvWorld(s: Server)
    requires Inv(s)
    ensures WorldOk(s.w) && 0 < |s.w| <= MAX_DBS
  {
  }

  lemma KeyOfExpire(w: World, d: nat, key: Bytestring)
    requires WorldOk(w) && d < |w| && key in w[d].expires
    ensures key in w[d].dict
  {
  }

  lemma FileLoads(n: nat, cmds: seq<Argv>, t: int)
    requires n > 0 && forall argv :: argv in cmds ==> Fits(argv)
    ensures LoadFile(n, CatAll(cmds), t) == Load(n, cmds, t)
  {
    hide Load, ParseAll, CatAll, Fits;
    LogParses(cmds);
  }

  lemma DumpThenFeed(w: World, layout: seq<seq<Entry>>, now: int, fed: seq<Record>, t: int)
    requires WorldOk(w) && 0 < |w| <= MAX_DBS && DepictsAll(layout, w) && now >= 0
    requires Apply(AllUnexpired(w, now), false, fed, t).Some?
    ensures var g := Apply(AllUnexpired(w, now), false, fed, t).value;
      !g.multi ==> Load(|w|, Dump(layout, 0, now) + Feed(-1, fed), t) == Some(g.w)
  {
    hide RunAll, Dump, DepictsAll, Apply, Feed, AllUnexpired, WorldOk;
    var f := Fake(EmptyWorld(|w|), 0, false);
    DumpRestores(w, layout, now, t);
    RunAllAppend(f, Dump(layout, 0, now), Feed(-1, fed), t);
    FeedRuns(RunAll(f, Dump(layout, 0, now), t).value, -1, fed, t);
  }
}
