/** What is on disk, and when: the append only file only grows but for a rewrite, a flush leaves nothing behind, and a
    rewrite is begun whenever none is under way. */
module LogDisk {
  import opened Bytes
  import opened Wire
  import opened Commands
  import opened Keyspace
  import opened Propagation
  import opened CallReplay
  import opened LogFile
  import opened Rewrite
  import opened LogMachine

  /** Nothing but the end of a successful rewrite takes bytes out of the file, and nothing but a flush or a stop adds
      any; what is not on disk yet is kept in order behind what is. */
  lemma FileGrows(s: Server, e: Event)
    requires Possible(s, e) && e != Finish(true)
    ensures var t := Step(s, e);
      && s.file <= t.file && (t.file != s.file ==> e == Flush || e == Stop)
      && s.file + s.buf <= t.file + t.buf
  {
    hide Call, Transaction, Feed, CatAll, Dump, LastDb, DepictsAll, Lookup, Queueable;
    match e
    case Command(d, argv, now) => FedGrows(s.(w := Call(s.w, d, argv, now).w), Call(s.w, d, argv, now).fed);
    case Transact(d, queue, exec) =>
      var r := Transaction(s.w, d, queue, exec);
      FedGrows(s.(w := r.w), r.fed);
    case Drop(d, key) => FedGrows(s.(w := s.w[d := DbDelete(s.w[d], key)]), [Record(d, [[DEL, key]])]);
    case _ =>
  }

  lemma FedGrows(s: Server, fed: seq<Record>)
    ensures Fed(s, fed).file == s.file && s.buf <= Fed(s, fed).buf
    ensures s.file + s.buf <= Fed(s, fed).file + Fed(s, fed).buf
  {
    hide Feed, CatAll, LastDb;
  }

  /** A rewrite is begun whenever none is under way, whether the log is on, off or being switched on: there is a child
      whose file alone is the dataset, and the server goes on with its own. */
  lemma RewriteBegins(s: Server, e: Event, t: int)
    requires Inv(s) && (e.Rewrite? || e.Start?) && Possible(s, e) && Sound(s, e) && s.child == None && IsTime(t)
    ensures Begun(s, Step(s, e), if e.Start? then Waiting else s.mode, t)
  {
    hide Rebuilds, WorldOk, LayoutFits, Fresh, DepictsAll, CatAll, LoadFile;
    ForkRebuilds(s.w, e.layout, e.now);
    RebuildsLoads(CatAll(Dump(e.layout, 0, e.now)), s.w, -1, t);
  }

  /** There is a child, and its file is the dataset. */
  ghost predicate Begun(s: Server, r: Server, mode: Mode, t: int)
  {
    && r.child.Some? && r.diff == [] && |s.w| > 0 && LoadFile(|s.w|, r.child.value, t) == Some(s.w)
    && r.w == s.w && r.mode == mode && r.file == s.file && r.buf == s.buf
  }

  lemma {:induction false} AfterOne(s: Server, run: seq<Event>, e: Event)
    requires Runs(s, run + [e])
    ensures Runs(s, run) && Possible(After(s, run), e) && After(s, run + [e]) == Step(After(s, run), e)
    ensures AllSound(s, run + [e]) ==> AllSound(s, run)
    decreases |run|
  {
    hide Step, Possible, Sound;
    if run == [] {
      assert run + [e] == [e] && [e][1..] == [];
    } else {
      assert (run + [e])[1..] == run[1..] + [e];
      AfterOne(Step(s, run[0]), run[1..], e);
    }
  }

  /** Once flushed, or switched off, the log is on disk: after any run that ends in a flush or a stop and had the log
      on, the file alone loads to exactly the live databases. */
  lemma FlushedIsDurable(n: nat, run: seq<Event>, e: Event, t: int)
    requires 0 < n <= MAX_DBS && IsTime(t) && (e == Flush || e == Stop)
    requires Runs(Initial(n), run + [e]) && AllSound(Initial(n), run + [e])
    ensures Runs(Initial(n), run)
    ensures var s, r := After(Initial(n), run), After(Initial(n), run + [e]);
      && r.buf == [] && r.w == s.w && (e == Flush ==> r.mode == s.mode)
      && (s.mode == On ==> |s.w| > 0 && LoadFile(|s.w|, r.file, t) == Some(s.w))
  {
    hide Runs, AllSound, After, LoadFile;
    AfterOne(Initial(n), run, e);
    LogRebuilds(n, run, t);
  }
}
