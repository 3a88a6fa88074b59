/** What the databases are after a crash: those of an earlier moment of the run, exactly or nearly, but for what the log
    rebuilds differently. */
module CrashStates {
  import opened Bytes
  import opened Decimal
  import opened Wire
  import opened Strtol
  import opened Commands
  import opened Keyspace
  import opened Effects
  import opened Propagation
  import opened CallReplay
  import opened LogFile
  import opened Rewrite
  import opened LogMachine
  import opened LogDrift
  import opened LogRuns
  import opened CheckAofModel
  import opened CheckAofTheorem
  import opened CheckAofKept
  import opened CrashRecovery
  import opened TornFeeds

  // ----- the states of a run -----

  /** The server after the first i events. */
  function At(s: Server, run: seq<Event>, i: nat): Server
    requires Runs(s, run) && i <= |run|
    decreases i
  {
    if i == 0 then s else At(Step(s, run[0]), run[1..], i - 1)
  }

  lemma {:induction false} AtNext(s: Server, run: seq<Event>, i: nat)
    requires Runs(s, run) && i < |run|
    ensures Possible(At(s, run, i), run[i]) && At(s, run, i + 1) == Step(At(s, run, i), run[i])
    decreases i
  {
    hide Step, Possible;
    if i > 0 { AtNext(Step(s, run[0]), run[1..], i - 1); }
  }

  lemma {:induction false} AtEnd(s: Server, run: seq<Event>)
    requires Runs(s, run)
    ensures At(s, run, |run|) == After(s, run)
    decreases |run|
  {
    hide Step, Possible;
    if run != [] { AtEnd(Step(s, run[0]), run[1..]); }
  }

  /** The drifts of both logs after the first i events. */
  function DriftsAt(s: Server, g: Drifts, run: seq<Event>, i: nat): Drifts
    requires Runs(s, run) && i <= |run|
    decreases i
  {
    if i == 0 then g else DriftsAt(Step(s, run[0]), DriftsAfter(s, g, run[0]), run[1..], i - 1)
  }

  lemma {:induction false} DriftsAtNext(s: Server, g: Drifts, run: seq<Event>, i: nat)
    requires Runs(s, run) && i < |run|
    ensures Possible(At(s, run, i), run[i])
    ensures DriftsAt(s, g, run, i + 1) == DriftsAfter(At(s, run, i), DriftsAt(s, g, run, i), run[i])
    decreases i
  {
    hide Step, Possible, DriftsAfter;
    if i > 0 { DriftsAtNext(Step(s, run[0]), DriftsAfter(s, g, run[0]), run[1..], i - 1); }
  }

  /** A fair run from a server whose logs are in order. */
  ghost predicate Going(s: Server, g: Drifts, run: seq<Event>, t: int)
  {
    TrailInv(s, g, t) && LogsClosed(s) && Runs(s, run) && AllFair(s, g, run, t)
  }

  /** What is known of the first event. */
  ghost predicate Fine(s: Server, g: Drifts, e: Event, t: int)
  {
    Possible(s, e) && |s.w| > 0 && EventFair(s, g, e, t) && EventFits(e)
  }

  lemma GoesOn(s: Server, g: Drifts, run: seq<Event>, t: int)
    requires Going(s, g, run, t) && run != []
    ensures Fine(s, g, run[0], t) && Going(Step(s, run[0]), DriftsAfter(s, g, run[0]), run[1..], t)
    ensures |Step(s, run[0]).w| == |s.w|
  {
    assert |s.w| > 0 && WorldOk(s.w);
    hide Step, Possible, EventFair, TrailInv, LogsClosed, WorldOk, EventFits, DriftsAfter;
    FairFits(s, g, run[0], t);
    StepTrails(s, g, run[0], t);
    StepCloses(s, run[0]);
    SameSize(s, run[0]);
  }

  lemma {:induction false} AtFair(s: Server, g: Drifts, run: seq<Event>, t: int, i: nat)
    requires Going(s, g, run, t) && i <= |run|
    ensures TrailInv(At(s, run, i), DriftsAt(s, g, run, i), t) && LogsClosed(At(s, run, i))
      && |At(s, run, i).w| == |s.w|
    ensures i < |run| ==> Fine(At(s, run, i), DriftsAt(s, g, run, i), run[i], t)
    decreases i
  {
    hide Step, Possible, TrailInv, LogsClosed, Fine, DriftsAfter, AllFair;
    if run != [] { GoesOn(s, g, run, t); }
    if i > 0 { AtFair(Step(s, run[0]), DriftsAfter(s, g, run[0]), run[1..], t, i - 1); }
  }

  // ----- what has been written -----

  /** The commands written for an event. */
  ghost function WrittenFor(s: Server, e: Event): seq<Argv>
    requires Possible(s, e)
  {
    Feed(s.selected, FedBy(s, e).0)
  }

  ghost function WrittenAt(s: Server, run: seq<Event>, i: nat): seq<Argv>
    requires Runs(s, run) && i < |run|
  {
    hide *;
    AtNext(s, run, i);
    WrittenFor(At(s, run, i), run[i])
  }

  /** The commands written for the events from number `start` to before number i. */
  ghost function Written(s: Server, run: seq<Event>, start: nat, i: nat): seq<Argv>
    requires Runs(s, run) && start <= i <= |run|
    decreases i
  {
    if i == start then []
    else Written(s, run, start, i - 1) + WrittenAt(s, run, i - 1)
  }

  /** A log began, when `start` events had happened, with the commands of a rewrite, or with nothing, and with what it
      rebuilt differently then. */
  datatype Origin = Origin(base: seq<Argv>, start: nat, drift: Drift)

  ghost function Text(s: Server, run: seq<Event>, o: Origin, i: nat): seq<Argv>
    requires Runs(s, run) && o.start <= i <= |run|
  {
    o.base + Written(s, run, o.start, i)
  }

  /** What the log rebuilt differently after i events. */
  function DriftAt(s: Server, run: seq<Event>, o: Origin, i: nat): Drift
    requires Runs(s, run) && o.start <= i <= |run|
    decreases i
  {
    if i == o.start then o.drift else DriftAfter(DriftAt(s, run, o, i - 1), At(s, run, i - 1).w, run[i - 1])
  }

  /** What had been written at moment k rebuilds the databases of that moment, but for the drift of that moment. */
  ghost predicate Moment(s: Server, run: seq<Event>, o: Origin, k: nat, t: int)
    requires Runs(s, run) && o.start <= k <= |run|
  {
    var u := At(s, run, k);
    |u.w| > 0 && Yields(Text(s, run, o, k), u.w, DriftAt(s, run, o, k), u.selected, t)
  }

  /** The next event is fair to this log. */
  ghost predicate Spared(s: Server, run: seq<Event>, o: Origin, k: nat, t: int)
    requires Runs(s, run) && o.start <= k < |run|
  {
    var u := At(s, run, k);
    |u.w| > 0 && Spares(u.w, DriftAt(s, run, o, k).past, run[k], t)
  }

  /** At every moment since, it did. */
  ghost predicate Records(s: Server, run: seq<Event>, o: Origin, i: nat, t: int)
    requires Runs(s, run) && i <= |run|
  {
    && o.start <= i && AllFit(Text(s, run, o, i))
    && (forall k :: o.start <= k <= i ==> Moment(s, run, o, k, t))
    && (forall k :: o.start <= k < i ==> Spared(s, run, o, k, t))
  }

  ghost predicate IsText(s: Server, run: seq<Event>, o: Origin, i: nat, bytes: Bytestring, g: Drift, t: int)
    requires Runs(s, run) && i <= |run|
  {
    Records(s, run, o, i, t) && CatAll(Text(s, run, o, i)) == bytes && DriftAt(s, run, o, i) == g
  }

  lemma TextNext(s: Server, run: seq<Event>, o: Origin, i: nat)
    requires Runs(s, run) && o.start <= i < |run|
    ensures Possible(At(s, run, i), run[i])
    ensures Text(s, run, o, i + 1) == Text(s, run, o, i) + WrittenFor(At(s, run, i), run[i])
  {
    hide Possible, WrittenFor;
    AtNext(s, run, i);
    assert (o.base + Written(s, run, o.start, i)) + WrittenFor(At(s, run, i), run[i])
        == o.base + (Written(s, run, o.start, i) + WrittenFor(At(s, run, i), run[i]));
  }

  lemma WrittenFits(s: Server, g: Drifts, e: Event, t: int)
    requires TrailInv(s, g, t) && Possible(s, e) && EventFair(s, g, e, t) && EventFits(e)
    ensures AllFit(WrittenFor(s, e))
  {
    hide Trails, FedFits, WorldOk, Feed, Fits, Apply, Call, Transaction, EventFair, Lookup, Queueable, LayoutFits;
    if Feeds(e) {
      FeedingFits(s, g, e, t);
      match e {
        case Command(d, argv, now) => CommandDbs(s.w, d, argv, now);
        case Transact(d, queue, exec) => TransactionDbs(s.w, d, queue, exec);
        case Drop(d, key) =>
      }
      FeedFits(s.selected, FedBy(s, e).0);
    } else {
      NothingWritten(s, e, g.log);
    }
  }

  /** The databases, and the one selected in the log, after an event. */
  lemma StepIs(s: Server, e: Event)
    requires Possible(s, e) && s.mode != Off
    ensures var (fed, x) := FedBy(s, e); var u := Step(s, e);
      && u.w == x && (u.selected == LastDb(s.selected, fed) || u.selected == -1)
      && (Feeds(e) ==> u == Fed(s.(w := x), fed))
  {
    hide Call, Transaction, Lookup, Queueable, Feed, CatAll, Dump, DepictsAll;
  }

  lemma Unselected(cmds: seq<Argv>, w: World, g: Drift, selected: int, t: int)
    requires |w| > 0 && Yields(cmds, w, g, selected, t)
    ensures Yields(cmds, w, g, -1, t)
  {
    hide RunAll, Behind;
  }

  /** What a log gives that yields these databases. */
  lemma YieldsLoads(cmds: seq<Argv>, w: World, g: Drift, selected: int, t: int)
    requires |w| > 0 && AllFit(cmds) && Yields(cmds, w, g, selected, t)
    ensures var f := RunAll(Fake(EmptyWorld(|w|), 0, false), cmds, t);
      && f.Some? && Load(|w|, cmds, t) == Some(f.value.w) && |f.value.w| == |w|
      && LoadFile(|w|, CatAll(cmds), t) == Some(f.value.w) && Behind(w, f.value.w, g.marks, t, g.past)
  {
    hide RunAll, CatAll, Fits, ParseAll, BehindDb;
    LogParses(cmds);
  }

  lemma FairLoads(s: Server, g: Drifts, e: Event, t: int)
    requires Possible(s, e) && |s.w| > 0 && EventFair(s, g, e, t)
    ensures e.Command? ==> CallInTime(s.w, e.db, e.argv, e.now, t)
  {
    hide Spares, CallInTime, Fits, LayoutFits, NoneNegative, Lookup, Queueable, DepictsAll;
  }

  lemma YieldsNext(s: Server, g: Drift, e: Event, cmds: seq<Argv>, t: int)
    requires WorldOk(s.w) && 0 < |s.w| <= MAX_DBS && Possible(s, e) && IsTime(t)
    requires e.Command? ==> CallInTime(s.w, e.db, e.argv, e.now, t)
    requires AllFit(cmds) && Yields(cmds, s.w, g, s.selected, t) && Spares(s.w, g.past, e, t)
    requires |FedBy(s, e).1| == |s.w|
    ensures Yields(cmds + WrittenFor(s, e), FedBy(s, e).1, DriftAfter(g, s.w, e), LastDb(s.selected, FedBy(s, e).0), t)
  {
    hide RunAll, CatAll, ParseAll, Load, LoadFile, BehindDb, WorldOk, Possible, FedBy, Feed, LastDb, DriftAfter, Apply;
    hide Spares, CallInTime, AllFit;
    YieldsLoads(cmds, s.w, g, s.selected, t);
    var v := Load(|s.w|, cmds, t).value;
    EventLags(s, g, e, v, t);
    YieldsFeed(cmds, s.w, g, s.selected, FedBy(s, e).0, FedBy(s, e).1, DriftAfter(g, s.w, e), t);
  }

  /** One more moment. */
  lemma NextMoment(s: Server, g: Drifts, run: seq<Event>, t: int, o: Origin, i: nat)
    requires Going(s, g, run, t) && i < |run| && Records(s, run, o, i, t) && Spared(s, run, o, i, t)
    requires At(s, run, i).mode != Off
    ensures o.start <= i && AllFit(Text(s, run, o, i + 1)) && Moment(s, run, o, i + 1, t)
  {
    AtFair(s, g, run, t, i);
    AtFair(s, g, run, t, i + 1);
    var u, e, v, d := At(s, run, i), run[i], At(s, run, i + 1), DriftsAt(s, g, run, i);
    assert IsTime(t) && WorldOk(u.w) && 0 < |u.w| <= MAX_DBS;
    hide Yields, TrailInv, LogsClosed, AllFair, Written, WrittenFor, Possible, EventFair, Step, Fits, At, Text, Spares;
    hide WorldOk, CatAll, CallInTime, EventFits, DriftAfter, FedBy, LastDb;
    AtNext(s, run, i);
    TextNext(s, run, o, i);
    WrittenFits(u, d, e, t);
    FairLoads(u, d, e, t);
    StepIs(u, e);
    assert Moment(s, run, o, i, t);
    var h := DriftAfter(DriftAt(s, run, o, i), u.w, e);
    YieldsNext(u, DriftAt(s, run, o, i), e, Text(s, run, o, i), t);
    if v.selected == -1 { Unselected(Text(s, run, o, i + 1), v.w, h, LastDb(u.selected, FedBy(u, e).0), t); }
  }

  lemma RecordsNext(s: Server, g: Drifts, run: seq<Event>, t: int, o: Origin, i: nat)
    requires Going(s, g, run, t) && i < |run| && Records(s, run, o, i, t) && Spared(s, run, o, i, t)
    requires At(s, run, i).mode != Off
    ensures Records(s, run, o, i + 1, t)
  {
    hide Moment, Spared, Going, At, Text, AllFit, Runs;
    NextMoment(s, g, run, t, o, i);
  }

  // ----- the two logs -----

  /** Where the log began, and the one that a rewrite is making. */
  datatype Origins = Origins(log: Origin, child: Origin)

  function OriginsAfter(s: Server, g: Origins, e: Event, i: nat): Origins
  {
    match e
    case Rewrite(layout, now) =>
      if s.child.Some? then g else g.(child := Origin(Dump(layout, 0, now), i + 1, ForkDrift(s.w, now)))
    case Start(layout, now) =>
      if s.child.Some? then g else g.(child := Origin(Dump(layout, 0, now), i + 1, ForkDrift(s.w, now)))
    case Finish(ok) => if ok && s.mode != Off then g.(log := g.child) else g
    case _ => g
  }

  /** The empty log of n databases. */
  function Nowhere(n: nat): Origin { Origin([], 0, Drift(NoMarks(n), 0)) }

  /** The origins after the first i events. */
  function OriginsAt(s: Server, run: seq<Event>, i: nat): Origins
    requires Runs(s, run) && i <= |run|
    decreases i
  {
    if i == 0 then Origins(Nowhere(|s.w|), Nowhere(|s.w|))
    else OriginsAfter(At(s, run, i - 1), OriginsAt(s, run, i - 1), run[i - 1], i - 1)
  }

  ghost predicate LogsAre(s: Server, g: Drifts, run: seq<Event>, t: int, i: nat)
    requires Runs(s, run) && i <= |run|
  {
    var u, o, d := At(s, run, i), OriginsAt(s, run, i), DriftsAt(s, g, run, i);
    && (u.mode == On ==> IsText(s, run, o.log, i, u.file + u.buf, d.log, t))
    && (u.child.Some? && u.mode != Off ==> IsText(s, run, o.child, i, u.child.value + u.diff, d.child, t))
  }

  lemma TextFeeds(s: Server, g: Drifts, run: seq<Event>, t: int, o: Origin, i: nat, bytes: Bytestring, d: Drift)
    requires Going(s, g, run, t) && i < |run| && IsText(s, run, o, i, bytes, d, t)
    requires At(s, run, i).mode != Off && |At(s, run, i).w| > 0 && Spares(At(s, run, i).w, d.past, run[i], t)
    ensures Possible(At(s, run, i), run[i])
    ensures IsText(s, run, o, i + 1, bytes + CatAll(WrittenFor(At(s, run, i), run[i])),
                   DriftAfter(d, At(s, run, i).w, run[i]), t)
  {
    assert Runs(s, run);
    hide Going, Runs, Written, WrittenFor, Possible, Step, CatAll, At, Text, Records, Spares, DriftAfter;
    assert o.start <= i by { HasBegun(s, run, o, i, t); }
    RecordsNext(s, g, run, t, o, i);
    TextNext(s, run, o, i);
    CatAllAppend(Text(s, run, o, i), WrittenFor(At(s, run, i), run[i]));
  }

  lemma HasBegun(s: Server, run: seq<Event>, o: Origin, i: nat, t: int)
    requires Runs(s, run) && i <= |run| && Records(s, run, o, i, t)
    ensures o.start <= i
  {
  }

  lemma NothingWritten(s: Server, e: Event, d: Drift)
    requires Possible(s, e) && !Feeds(e)
    ensures WrittenFor(s, e) == [] && CatAll(WrittenFor(s, e)) == [] && DriftAfter(d, s.w, e) == d
  {
  }

  /** A log that begins with what a rewrite dumps. */
  lemma ForkIsText(s: Server, run: seq<Event>, i: nat, layout: seq<seq<Entry>>, now: int, t: int)
    requires Runs(s, run) && i <= |run|
    requires var u := At(s, run, i);
      && WorldOk(u.w) && 0 < |u.w| <= MAX_DBS && u.selected == -1 && DepictsAll(layout, u.w) && NoneNegative(u.w)
    requires LayoutFits(layout, now) && now >= 0
    ensures var d := ForkDrift(At(s, run, i).w, now);
      IsText(s, run, Origin(Dump(layout, 0, now), i, d), i, CatAll(Dump(layout, 0, now)), d, t)
  {
    hide RunAll, Dump, DepictsAll, WorldOk, NoneNegative, CatAll, Fits, At, Yields, ForkDrift;
    var u := At(s, run, i);
    var o := Origin(Dump(layout, 0, now), i, ForkDrift(u.w, now));
    assert Written(s, run, i, i) == [] && Text(s, run, o, i) == o.base;
    ForkYields(u.w, layout, now, t);
  }

  /** What the event's fairness says of either log. */
  lemma FairSpares(s: Server, g: Drifts, e: Event, t: int)
    requires Possible(s, e) && |s.w| > 0 && EventFair(s, g, e, t)
    ensures s.mode == On ==> Spares(s.w, g.log.past, e, t)
    ensures s.mode != Off && s.child.Some? ==> Spares(s.w, g.child.past, e, t)
  {
    hide Spares, CallInTime, Fits, LayoutFits, NoneNegative, Lookup, Queueable, DepictsAll;
  }

  /** Both logs after an event, as far as it writes to them. */
  lemma BothGrow(s: Server, g: Drifts, run: seq<Event>, t: int, i: nat)
    requires Going(s, g, run, t) && i < |run| && LogsAre(s, g, run, t, i)
    ensures Possible(At(s, run, i), run[i])
    ensures var u, e, o, d := At(s, run, i), run[i], OriginsAt(s, run, i), DriftsAt(s, g, run, i);
      var more := CatAll(WrittenFor(u, e));
      && (u.mode == On ==>
            IsText(s, run, o.log, i + 1, u.file + u.buf + more, DriftAfter(d.log, u.w, e), t))
      && (u.child.Some? && u.mode != Off ==>
            IsText(s, run, o.child, i + 1, u.child.value + u.diff + more, DriftAfter(d.child, u.w, e), t))
  {
    AtFair(s, g, run, t, i);
    hide Going, IsText, At, OriginsAt, DriftsAt, EventFair, Possible, TrailInv, LogsClosed, WrittenFor, CatAll, Spares;
    hide DriftAfter, EventFits;
    var u, d := At(s, run, i), DriftsAt(s, g, run, i);
    FairSpares(u, d, run[i], t);
    if u.mode == On { TextFeeds(s, g, run, t, OriginsAt(s, run, i).log, i, u.file + u.buf, d.log); }
    if u.child.Some? && u.mode != Off {
      TextFeeds(s, g, run, t, OriginsAt(s, run, i).child, i, u.child.value + u.diff, d.child);
    }
  }

  /** An event that feeds goes into both logs. */
  lemma FeedingNext(s: Server, g: Drifts, run: seq<Event>, t: int, i: nat)
    requires Going(s, g, run, t) && i < |run| && LogsAre(s, g, run, t, i) && Feeds(run[i])
    ensures LogsAre(s, g, run, t, i + 1)
  {
    BothGrow(s, g, run, t, i);
    hide Going, IsText, Possible, Step, At, CatAll, FedBy, Feed, DriftsAt, DriftAfter;
    AtNext(s, run, i);
    DriftsAtNext(s, g, run, i);
    var u, e := At(s, run, i), run[i];
    if u.mode != Off {
      StepIs(u, e);
      var more := CatAll(WrittenFor(u, e));
      if u.mode == On { Assoc(u.file, u.buf, more); }
      if u.child.Some? { Assoc(u.child.value, u.diff, more); }
    } else {
      StaysOff(u, e);
    }
  }

  lemma StaysOff(s: Server, e: Event)
    requires Possible(s, e) && s.mode == Off && Feeds(e)
    ensures Step(s, e).mode == Off
  {
    hide Call, Transaction, Lookup, Queueable;
  }

  lemma ForkNext(s: Server, run: seq<Event>, i: nat, layout: seq<seq<Entry>>, now: int, t: int)
    requires Runs(s, run) && i < |run| && WorldOk(At(s, run, i).w) && 0 < |At(s, run, i).w| <= MAX_DBS
    requires now >= 0 && DepictsAll(layout, At(s, run, i).w) && LayoutFits(layout, now)
    requires NoneNegative(At(s, run, i).w)
    requires At(s, run, i + 1).w == At(s, run, i).w && At(s, run, i + 1).selected == -1
    ensures var d := ForkDrift(At(s, run, i).w, now);
      IsText(s, run, Origin(Dump(layout, 0, now), i + 1, d), i + 1, CatAll(Dump(layout, 0, now)), d, t)
  {
    hide IsText, At, DepictsAll, LayoutFits, NoneNegative, WorldOk, Runs, CatAll, Dump, ForkDrift;
    ForkIsText(s, run, i + 1, layout, now, t);
  }

  /** The logs as far as they stay. */
  lemma BothStay(s: Server, g: Drifts, run: seq<Event>, t: int, i: nat)
    requires Going(s, g, run, t) && i < |run| && LogsAre(s, g, run, t, i) && !Feeds(run[i])
    ensures var u, o, d := At(s, run, i), OriginsAt(s, run, i), DriftsAt(s, g, run, i);
      && (u.mode == On ==> IsText(s, run, o.log, i + 1, u.file + u.buf, d.log, t))
      && (u.child.Some? && u.mode != Off ==> IsText(s, run, o.child, i + 1, u.child.value + u.diff, d.child, t))
  {
    BothGrow(s, g, run, t, i);
    hide Going, IsText, At, OriginsAt, DriftsAt, LogsAre, WrittenFor, Possible, CatAll, DriftAfter;
    var u, d := At(s, run, i), DriftsAt(s, g, run, i);
    NothingWritten(u, run[i], d.log);
    NothingWritten(u, run[i], d.child);
    assert u.file + u.buf + [] == u.file + u.buf;
    if u.child.Some? { assert u.child.value + u.diff + [] == u.child.value + u.diff; }
  }

  lemma FlushNext(s: Server, g: Drifts, run: seq<Event>, t: int, i: nat)
    requires Going(s, g, run, t) && i < |run| && LogsAre(s, g, run, t, i)
    requires run[i] == Flush || run[i] == Stop
    ensures LogsAre(s, g, run, t, i + 1)
  {
    assert Runs(s, run);
    hide Going, IsText, At, Runs, DriftsAt;
    AtNext(s, run, i);
    DriftsAtNext(s, g, run, i);
    BothStay(s, g, run, t, i);
    var u := At(s, run, i);
    assert u.file + u.buf + [] == u.file + u.buf;
  }

  lemma FinishNext(s: Server, g: Drifts, run: seq<Event>, t: int, i: nat)
    requires Going(s, g, run, t) && i < |run| && LogsAre(s, g, run, t, i) && run[i].Finish?
    ensures LogsAre(s, g, run, t, i + 1)
  {
    assert Runs(s, run);
    hide Going, IsText, At, Runs, DriftsAt;
    AtNext(s, run, i);
    DriftsAtNext(s, g, run, i);
    BothStay(s, g, run, t, i);
    var u := At(s, run, i);
    assert u.child.value + u.diff + [] == u.child.value + u.diff;
  }

  /** What a fork needs. */
  lemma ForkFair(s: Server, g: Drifts, e: Event, t: int)
    requires TrailInv(s, g, t) && Possible(s, e) && EventFair(s, g, e, t) && (e.Rewrite? || e.Start?)
    ensures WorldOk(s.w) && 0 < |s.w| <= MAX_DBS && e.now >= 0 && DepictsAll(e.layout, s.w)
      && LayoutFits(e.layout, e.now) && NoneNegative(s.w) && (s.child == None ==> s.diff == [])
  {
    hide Trails, Spares, LayoutFits, NoneNegative, DepictsAll, WorldOk;
  }

  lemma ForkingNext(s: Server, g: Drifts, run: seq<Event>, t: int, i: nat, layout: seq<seq<Entry>>, now: int)
    requires Going(s, g, run, t) && i < |run| && LogsAre(s, g, run, t, i)
    requires run[i] == Rewrite(layout, now) || run[i] == Start(layout, now)
    ensures LogsAre(s, g, run, t, i + 1)
  {
    AtFair(s, g, run, t, i);
    hide Going, IsText, At, Runs, CatAll, Dump, DepictsAll, LayoutFits, NoneNegative, DriftsAt, EventFair, TrailInv;
    hide LogsClosed, ForkDrift, EventFits, WorldOk;
    AtNext(s, run, i);
    DriftsAtNext(s, g, run, i);
    BothStay(s, g, run, t, i);
    var u := At(s, run, i);
    ForkFair(u, DriftsAt(s, g, run, i), run[i], t);
    if u.child == None {
      ForkNext(s, run, i, layout, now, t);
      assert CatAll(Dump(layout, 0, now)) + [] == CatAll(Dump(layout, 0, now));
    }
  }

  lemma OtherNext(s: Server, g: Drifts, run: seq<Event>, t: int, i: nat)
    requires Going(s, g, run, t) && i < |run| && LogsAre(s, g, run, t, i) && !Feeds(run[i])
    ensures LogsAre(s, g, run, t, i + 1)
  {
    hide Going, LogsAre, Runs;
    match run[i]
    case Rewrite(layout, now) => ForkingNext(s, g, run, t, i, layout, now);
    case Start(layout, now) => ForkingNext(s, g, run, t, i, layout, now);
    case Finish(ok) => FinishNext(s, g, run, t, i);
    case Flush => FlushNext(s, g, run, t, i);
    case Stop => FlushNext(s, g, run, t, i);
  }

  lemma {:induction false} LogsAlways(s: Server, g: Drifts, run: seq<Event>, t: int, i: nat)
    requires Going(s, g, run, t) && i <= |run| && LogsAre(s, g, run, t, 0)
    ensures LogsAre(s, g, run, t, i)
    decreases i
  {
    hide Going, LogsAre;
    if i > 0 {
      LogsAlways(s, g, run, t, i - 1);
      if Feeds(run[i - 1]) { FeedingNext(s, g, run, t, i - 1); } else { OtherNext(s, g, run, t, i - 1); }
    }
  }

  // ----- after a crash -----

  lemma FirstLogs(n: nat, run: seq<Event>, t: int)
    requires 0 < n <= MAX_DBS && Runs(Initial(n), run) && IsTime(t)
    ensures LogsAre(Initial(n), NoDrifts(n), run, t, 0)
  {
    hide Behind;
    var s, none: seq<Argv>, o := Initial(n), [], Nowhere(n);
    assert EmptyWorld(|s.w|) == s.w;
    assert Text(s, run, o, 0) == none && CatAll(none) == [];
    RunNothing(Fake(s.w, 0, false), t);
    SelfBehind(s.w, t, 0);
    assert Moment(s, run, o, 0, t);
    hide Moment;
  }

  lemma {:induction false} TextGrows(s: Server, run: seq<Event>, o: Origin, i: nat, j: nat)
    requires Runs(s, run) && o.start <= i <= j <= |run|
    ensures Text(s, run, o, i) <= Text(s, run, o, j)
    decreases j
  {
    hide Text, WrittenFor, At, Runs;
    if i < j {
      TextGrows(s, run, o, i, j - 1);
      TextNext(s, run, o, j - 1);
    }
  }

  /** Where the log ended after i events. */
  ghost function Size(s: Server, run: seq<Event>, o: Origin, i: nat): nat
    requires Runs(s, run) && o.start <= i <= |run|
  {
    |CatAll(Text(s, run, o, i))|
  }

  lemma {:induction false} LastMoment(s: Server, run: seq<Event>, o: Origin, j: nat, k: nat) returns (i: nat)
    requires Runs(s, run) && o.start <= j <= |run| && Size(s, run, o, o.start) <= k
    ensures o.start <= i <= j && Size(s, run, o, i) <= k && (i < j ==> k < Size(s, run, o, i + 1))
    decreases j
  {
    hide Size, Runs;
    i := j;
    if Size(s, run, o, j) > k { i := LastMoment(s, run, o, j - 1, k); }
  }

  /** The moment i, in terms of the commands of the whole log. */
  lemma MomentIn(s: Server, run: seq<Event>, o: Origin, i: nat, t: int)
    requires Runs(s, run) && o.start <= i <= |run| && Records(s, run, o, |run|, t)
    requires |At(s, run, i).w| == |s.w| > 0
    ensures var cmds, part := Text(s, run, o, |run|), Text(s, run, o, i); var m := |part|;
      && m <= |cmds| && cmds[..m] == part && Boundary(cmds, m) == Size(s, run, o, i) && AllFit(part)
      && Load(|s.w|, part, t).Some? && Moment(s, run, o, i, t) && (i < |run| ==> Spared(s, run, o, i, t))
  {
    hide RunAll, Text, At, Runs, CatAll, Behind, DriftAt, Spared;
    assert Moment(s, run, o, i, t);
    TextGrows(s, run, o, i, |run|);
    PrefixFits(Text(s, run, o, i), Text(s, run, o, |run|));
  }

  lemma PrefixFits(part: seq<Argv>, cmds: seq<Argv>)
    requires AllFit(cmds) && part <= cmds
    ensures AllFit(part)
  {
    hide Fits;
    assert forall i :: 0 <= i < |part| ==> part[i] == cmds[i] && cmds[i] in cmds;
  }

  lemma LogText(s: Server, cmds: seq<Argv>)
    requires LogsClosed(s) && s.mode == On && AllFit(cmds) && CatAll(cmds) == s.file + s.buf
    ensures WellFormed(cmds, 0) && (forall argv :: argv in cmds ==> Runnable(argv)) && MultiAfter(cmds, 0) == Some(0)
  {
    hide Closed, CatAll, WellFormed, Runnable, MultiAfter, ParseAll, Fits;
    var same := ClosedLog(s.file + s.buf);
    LogParses(cmds);
  }

  lemma PartLoads(u: Server, d: Drift, e: Event, part: seq<Argv>, p: nat, t: int)
    requires WorldOk(u.w) && 0 < |u.w| <= MAX_DBS && Possible(u, e) && EventFits(e) && IsTime(t) && AllFit(part)
    requires e.Command? ==> CallInTime(u.w, e.db, e.argv, e.now, t)
    requires Yields(part, u.w, d, u.selected, t) && Spares(u.w, d.past, e, t)
    requires p <= |WrittenFor(u, e)| && Load(|u.w|, part + WrittenFor(u, e)[..p], t).Some?
    ensures Reached(u.w, e, FedBy(u, e).1, d, Load(|u.w|, part + WrittenFor(u, e)[..p], t).value, t)
  {
    hide WorldOk, RunAll, Feed, Reached, FedBy, Possible, EventFits, Behind, CatAll, LoadFile, Spares, AllFit;
    hide CallInTime;
    YieldsLoads(part, u.w, d, u.selected, t);
    var first := Fake(EmptyWorld(|u.w|), 0, false);
    var f := RunAll(first, part, t).value;
    RunAllAppend(first, part, WrittenFor(u, e)[..p], t);
    EventPart(u, d, e, f, p, t);
  }

  /** The databases lag behind those after the first i events, or behind what a part of event i has made of them: all of
      it, or nothing but deletions of keys that it found expired, or else a SETEX without its expire time. */
  ghost predicate NearMoment(s: Server, run: seq<Event>, o: Origin, i: nat, v: World, t: int)
    requires Runs(s, run) && o.start <= i <= |run|
  {
    var u, d := At(s, run, i), DriftAt(s, run, o, i);
    Behind(u.w, v, d.marks, t, d.past) || (i < |run| && Reached(u.w, run[i], At(s, run, i + 1).w, d, v, t))
  }

  /** What is known of event i. */
  lemma FairHere(s: Server, g: Drifts, run: seq<Event>, t: int, i: nat)
    requires Going(s, g, run, t) && i < |run|
    ensures Runs(s, run) && IsTime(t) && |At(s, run, i).w| == |s.w|
    ensures var u, e := At(s, run, i), run[i];
      && WorldOk(u.w) && 0 < |u.w| <= MAX_DBS && Possible(u, e) && EventFits(e)
      && (e.Command? ==> CallInTime(u.w, e.db, e.argv, e.now, t))
  {
    AtFair(s, g, run, t, i);
    hide AllFair, Runs, At, DriftsAt, LogsClosed, WorldOk, Trails, EventFits, CallInTime, Possible, EventFair;
    FairLoads(At(s, run, i), DriftsAt(s, g, run, i), run[i], t);
  }

  lemma HereYields(s: Server, run: seq<Event>, o: Origin, i: nat, t: int)
    requires Runs(s, run) && o.start <= i < |run| && Moment(s, run, o, i, t) && Spared(s, run, o, i, t)
    ensures var u, d := At(s, run, i), DriftAt(s, run, o, i);
      && |u.w| > 0 && Yields(Text(s, run, o, i), u.w, d, u.selected, t)
      && Spares(u.w, d.past, run[i], t)
  {
    hide Runs, Text, At, DriftAt, Yields, Spares, CatAll;
  }

  lemma NearNext(s: Server, run: seq<Event>, o: Origin, i: nat, v: World, t: int)
    requires Runs(s, run) && o.start <= i < |run|
    requires Reached(At(s, run, i).w, run[i], At(s, run, i + 1).w, DriftAt(s, run, o, i), v, t)
    ensures NearMoment(s, run, o, i, v, t)
  {
    hide At, Behind, Runs, DriftAt, Reached;
  }

  /** The commands kept, between two moments. */
  lemma KeptIsBetween(s: Server, g: Drifts, run: seq<Event>, t: int, o: Origin, i: nat, j: nat)
    requires Going(s, g, run, t) && Runs(s, run) && o.start <= i < |run|
    requires Moment(s, run, o, i, t) && Spared(s, run, o, i, t) && AllFit(Text(s, run, o, i)) && |s.w| > 0
    requires |Text(s, run, o, i)| <= j <= |Text(s, run, o, i + 1)| && Text(s, run, o, i + 1) <= Text(s, run, o, |run|)
    requires Load(|s.w|, Text(s, run, o, |run|)[..j], t).Some?
    ensures NearMoment(s, run, o, i, Load(|s.w|, Text(s, run, o, |run|)[..j], t).value, t)
  {
    hide *;
    FairHere(s, g, run, t, i);
    HereYields(s, run, o, i, t);
    var u, e, part, d := At(s, run, i), run[i], Text(s, run, o, i), DriftAt(s, run, o, i);
    AtNext(s, run, i);
    TextNext(s, run, o, i);
    var p := j - |part|;
    assert Text(s, run, o, |run|)[..j] == part + WrittenFor(u, e)[..p];
    PartLoads(u, d, e, part, p, t);
    StepWorld(u, e);
    NearNext(s, run, o, i, Load(|s.w|, Text(s, run, o, |run|)[..j], t).value, t);
  }

  lemma StepWorld(s: Server, e: Event)
    requires Possible(s, e)
    ensures Step(s, e).w == FedBy(s, e).1
  {
    hide Call, Transaction, Lookup, Queueable, Feed, CatAll, Dump, DepictsAll;
  }

  /** What the tool keeps, as commands: it ends at or after moment i, if the cut does, and before the next. */
  lemma KeptAfterMoment(cmds: seq<Argv>, k: nat, j: nat, m: nat, n: nat, t: int)
    requires n > 0 && LastClosed(cmds, k, 0, j) && m <= |cmds| && Boundary(cmds, m) <= k
    requires (forall argv :: argv in cmds ==> Runnable(argv)) && MultiAfter(cmds, 0) == Some(0)
    requires Load(n, cmds[..m], t).Some?
    ensures m <= j
  {
    hide Boundary, Load, Runnable, MultiAfter;
    MultiIsBit(cmds, m, n, t);
  }

  lemma KeptBeforeNext(cmds: seq<Argv>, k: nat, j: nat, m: nat)
    requires LastClosed(cmds, k, 0, j) && m <= |cmds| && k < Boundary(cmds, m)
    ensures j < m
  {
    hide Boundary, MultiAfter;
    if m <= j { BoundaryMono(cmds, m, j); }
  }

  /** i is the last moment at which the log ended within its first k bytes. */
  ghost predicate Ended(s: Server, run: seq<Event>, o: Origin, k: nat, i: nat)
    requires Runs(s, run)
  {
    o.start <= i <= |run| && Size(s, run, o, i) <= k && (i < |run| ==> k < Size(s, run, o, i + 1))
  }

  /** What is loaded is near that moment, and as near as the log itself if nothing follows it in these bytes. */
  ghost predicate Back(s: Server, run: seq<Event>, o: Origin, k: nat, i: nat, loaded: Option<World>, t: int)
    requires Runs(s, run)
  {
    && Ended(s, run, o, k, i)
    && loaded.Some? && NearMoment(s, run, o, i, loaded.value, t)
    && (k == Size(s, run, o, i) ==>
          var d := DriftAt(s, run, o, i); Behind(At(s, run, i).w, loaded.value, d.marks, t, d.past))
  }

  function LogOf(s: Server): Bytestring { s.file + s.buf }

  /** A crash that leaves the first k bytes of the log, and at least what a rewrite had put there before it took the
      log's name. */
  ghost predicate CrashAt(s: Server, run: seq<Event>, k: nat)
    requires Runs(s, run)
  {
    var u, o := At(s, run, |run|), OriginsAt(s, run, |run|).log;
    u.mode == On && |CatAll(o.base)| <= k <= |LogOf(u)|
  }

  /** What the tool keeps of these bytes, loaded at time t, is near moment i, the last at which the log ended in
      them. */
  ghost predicate Recovers(s: Server, run: seq<Event>, k: nat, i: nat, t: int)
    requires Runs(s, run) && CrashAt(s, run, k) && |s.w| > 0
  {
    var u, o := At(s, run, |run|), OriginsAt(s, run, |run|).log;
    Back(s, run, o, k, i, LoadFile(|s.w|, Kept(LogOf(u)[..k]), t), t)
  }

  lemma CrashGoesBackFrom(s0: Server, g: Drifts, run: seq<Event>, k: nat, t: int) returns (i: nat)
    requires |s0.w| > 0 && Going(s0, g, run, t) && LogsAre(s0, g, run, t, 0) && CrashAt(s0, run, k)
    ensures Recovers(s0, run, k, i, t)
  {
    assert Runs(s0, run) && IsTime(t);
    hide Going, Runs, Text, At, Load, Records, LogsAre, OriginsAt, NearMoment, CatAll, Moment, Spared, DriftAt, Behind;
    hide Size, Boundary, MultiAfter, Runnable, WellFormed, ParseAll, SafeLength, AllFit, LastClosed, LoadFile, Kept;
    hide TrailInv, LogsClosed, DriftsAt, Fine;
    LogsAlways(s0, g, run, t, |run|);
    var s, o := At(s0, run, |run|), OriginsAt(s0, run, |run|).log;
    AtFair(s0, g, run, t, |run|);
    LogIsText(s0, g, run, t);
    var cmds := Text(s0, run, o, |run|);
    LogText(s, cmds);
    var j := KeptLoadsAs(cmds, k, |s0.w|, t);
    i := LastMoment(s0, run, o, |run|, k);
    AtFair(s0, g, run, t, i);
    MomentIn(s0, run, o, i, t);
    KeptAfterMoment(cmds, k, j, |Text(s0, run, o, i)|, |s0.w|, t);
    KeptFits(cmds, k, j);
    KeptIsNear(s0, g, run, t, o, i, j, k);
  }

  lemma KeptLoadsAs(cmds: seq<Argv>, k: nat, n: nat, t: int) returns (j: nat)
    requires WellFormed(cmds, 0) && k <= |CatAll(cmds)| && n > 0 && (forall argv :: argv in cmds ==> Runnable(argv))
    ensures LastClosed(cmds, k, 0, j) && Load(n, cmds[..j], t).Some?
    ensures LoadFile(n, Kept(CatAll(cmds)[..k]), t) == Load(n, cmds[..j], t)
  {
    hide CatAll, MultiAfter, Runnable, WellFormed, Load, LoadFile, SafeLength, Boundary;
    j := RepairedLoads(cmds, k, n, t);
  }

  /** A crash takes the databases back to an earlier moment of the run. After any fair run with the log on, let a crash
      leave the first k bytes of what was to be in the file, and at least what a rewrite had put there before it took
      the log's name. There is the last moment at which the log ended within these bytes: what the tool keeps, loaded
      at time t, lags behind the databases of that moment no further than the log did then, but for a part of the next
      event. */
  lemma CrashGoesBack(n: nat, run: seq<Event>, k: nat, t: int) returns (i: nat)
    requires 0 < n <= MAX_DBS && IsTime(t) && Runs(Initial(n), run) && AllFair(Initial(n), NoDrifts(n), run, t)
    requires CrashAt(Initial(n), run, k)
    ensures Recovers(Initial(n), run, k, i, t)
  {
    assert |Initial(n).w| == n;
    InitialTrails(n, t);
    InitialCloses(n);
    assert Going(Initial(n), NoDrifts(n), run, t);
    hide *;
    FirstLogs(n, run, t);
    i := CrashGoesBackFrom(Initial(n), NoDrifts(n), run, k, t);
  }

  lemma LogIsText(s: Server, g: Drifts, run: seq<Event>, t: int)
    requires Runs(s, run) && LogsAre(s, g, run, t, |run|) && At(s, run, |run|).mode == On
    ensures var u, o := At(s, run, |run|), OriginsAt(s, run, |run|).log;
      && Records(s, run, o, |run|, t) && o.start <= |run| && AllFit(Text(s, run, o, |run|))
      && CatAll(Text(s, run, o, |run|)) == LogOf(u) && Size(s, run, o, o.start) == |CatAll(o.base)|
  {
    hide Moment, Spared, CatAll, At, OriginsAt, Runs, DriftsAt, DriftAt;
    var o := OriginsAt(s, run, |run|).log;
    assert o.base + [] == o.base;
  }

  lemma HasEnded(s: Server, run: seq<Event>, o: Origin, k: nat, i: nat)
    requires Runs(s, run) && Ended(s, run, o, k, i)
    ensures o.start <= i <= |run| && Size(s, run, o, i) <= k && (i < |run| ==> k < Size(s, run, o, i + 1))
  {
  }

  lemma MomentLoads(s: Server, run: seq<Event>, o: Origin, i: nat, t: int)
    requires Runs(s, run) && o.start <= i <= |run| && |At(s, run, i).w| == |s.w| > 0
    requires Moment(s, run, o, i, t) && AllFit(Text(s, run, o, i))
    ensures var v, d := Load(|s.w|, Text(s, run, o, i), t), DriftAt(s, run, o, i);
      v.Some? && Behind(At(s, run, i).w, v.value, d.marks, t, d.past)
  {
    hide RunAll, Text, At, Runs, DriftAt, BehindDb, AllFit, CatAll, LoadFile;
    var u := At(s, run, i);
    YieldsLoads(Text(s, run, o, i), u.w, DriftAt(s, run, o, i), u.selected, t);
  }

  lemma NearExact(s: Server, run: seq<Event>, o: Origin, i: nat, v: World, t: int)
    requires Runs(s, run) && o.start <= i <= |run|
    requires var d := DriftAt(s, run, o, i); Behind(At(s, run, i).w, v, d.marks, t, d.past)
    ensures NearMoment(s, run, o, i, v, t)
  {
    hide At, Behind, Runs, DriftAt, Reached;
  }

  lemma KeptIsNear(s: Server, g: Drifts, run: seq<Event>, t: int, o: Origin, i: nat, j: nat, k: nat)
    requires Going(s, g, run, t) && Runs(s, run) && |s.w| > 0
    requires o.start <= i <= |run| && Ended(s, run, o, k, i) && Records(s, run, o, |run|, t)
    requires |At(s, run, i).w| == |s.w|
    requires LastClosed(Text(s, run, o, |run|), k, 0, j) && |Text(s, run, o, i)| <= j
    requires j <= |Text(s, run, o, |run|)| && Load(|s.w|, Text(s, run, o, |run|)[..j], t).Some?
    ensures var v, d := Load(|s.w|, Text(s, run, o, |run|)[..j], t).value, DriftAt(s, run, o, i);
      && NearMoment(s, run, o, i, v, t)
      && (k == Size(s, run, o, i) ==> Behind(At(s, run, i).w, v, d.marks, t, d.past))
  {
    hide *;
    HasEnded(s, run, o, k, i);
    MomentIn(s, run, o, i, t);
    MomentLoads(s, run, o, i, t);
    var cmds, part := Text(s, run, o, |run|), Text(s, run, o, i);
    var v := Load(|s.w|, cmds[..j], t).value;
    if i < |run| {
      AtFair(s, g, run, t, i + 1);
      BeforeNext(s, run, o, i, j, k, t);
      KeptIsBetween(s, g, run, t, o, i, j);
    } else {
      assert cmds[..j] == cmds;
      NearExact(s, run, o, i, v, t);
    }
    if k == Size(s, run, o, i) {
      KeptFits(cmds, k, j);
      SameBoundary(cmds, |part|, j);
    }
  }

  lemma KeptFits(cmds: seq<Argv>, k: nat, j: nat)
    requires LastClosed(cmds, k, 0, j)
    ensures j <= |cmds| && Boundary(cmds, j) <= k
  {
    hide Boundary, MultiAfter;
  }

  lemma BeforeNext(s: Server, run: seq<Event>, o: Origin, i: nat, j: nat, k: nat, t: int)
    requires Runs(s, run) && |s.w| > 0 && o.start <= i < |run| && k < Size(s, run, o, i + 1)
    requires Records(s, run, o, |run|, t) && |At(s, run, i + 1).w| == |s.w|
    requires LastClosed(Text(s, run, o, |run|), k, 0, j)
    ensures j <= |Text(s, run, o, i + 1)| && Text(s, run, o, i + 1) <= Text(s, run, o, |run|)
  {
    hide Runs, Text, At, Load, Records, CatAll, Size, Boundary, MultiAfter, LastClosed, Moment, Spared, AllFit;
    MomentIn(s, run, o, i + 1, t);
    KeptBeforeNext(Text(s, run, o, |run|), k, j, |Text(s, run, o, i + 1)|);
    TextGrows(s, run, o, i + 1, |run|);
  }

  /** No command is without bytes. */
  lemma BoundaryGrows(cmds: seq<Argv>, m: nat)
    requires m < |cmds|
    ensures Boundary(cmds, m) < Boundary(cmds, m + 1)
  {
    var none: seq<Argv> := [];
    assert cmds[..m + 1] == cmds[..m] + [cmds[m]] && [cmds[m]][1..] == none;
    CatAllAppend(cmds[..m], [cmds[m]]);
    assert CatAll([cmds[m]]) == Cat(cmds[m]) + CatAll(none);
  }

  lemma SameBoundary(cmds: seq<Argv>, m: nat, j: nat)
    requires m <= j <= |cmds| && Boundary(cmds, j) <= Boundary(cmds, m)
    ensures j == m
  {
    hide Boundary;
    if m < j {
      BoundaryGrows(cmds, m);
      BoundaryMono(cmds, m + 1, j);
    }
  }

  // ----- runs without drift -----

  lemma {:induction false} AtSound(s: Server, run: seq<Event>, i: nat)
    requires Runs(s, run) && AllSound(s, run) && i < |run|
    ensures Possible(At(s, run, i), run[i]) && Sound(At(s, run, i), run[i])
    decreases i
  {
    hide Step, Possible, Sound;
    if i > 0 { AtSound(Step(s, run[0]), run[1..], i - 1); }
  }

  function NoDrift(n: nat): Drift { Drift(NoMarks(n), 0) }

  lemma NoDriftAfter(s: Server, e: Event, t: int)
    requires WorldOk(s.w) && Possible(s, e) && Sound(s, e)
    ensures DriftAfter(NoDrift(|s.w|), s.w, e) == NoDrift(|s.w|)
    ensures e.Rewrite? || e.Start? ==> ForkDrift(s.w, e.now) == NoDrift(|s.w|)
  {
    hide WorldOk, Possible, EventMarks, QueueKeepsTime, SetsRelativeTime, LayoutFits, Fresh;
    SoundMarks(s, e, t);
  }

  lemma {:induction false} NoDriftAt(s: Server, run: seq<Event>, o: Origin, i: nat, t: int)
    requires Going(s, NoDrifts(|s.w|), run, t) && Runs(s, run) && AllSound(s, run) && o.start <= i <= |run|
    requires o.drift == NoDrift(|s.w|)
    ensures DriftAt(s, run, o, i) == NoDrift(|s.w|)
    decreases i
  {
    hide Going, Runs, AllSound, At, DriftAfter, Possible, Sound, WorldOk, NoDrift, NoDrifts;
    if i > o.start {
      NoDriftAt(s, run, o, i - 1, t);
      AtSound(s, run, i - 1);
      FairHere(s, NoDrifts(|s.w|), run, t, i - 1);
      NoDriftAfter(At(s, run, i - 1), run[i - 1], t);
    }
  }

  lemma {:induction false} OriginsAtNone(s: Server, run: seq<Event>, i: nat, t: int)
    requires Going(s, NoDrifts(|s.w|), run, t) && Runs(s, run) && AllSound(s, run) && i <= |run|
    ensures var o := OriginsAt(s, run, i); o.log.drift == NoDrift(|s.w|) && o.child.drift == NoDrift(|s.w|)
    decreases i
  {
    hide Going, Runs, AllSound, At, Possible, Sound, WorldOk, NoDrifts, ForkDrift, Dump;
    if i > 0 {
      OriginsAtNone(s, run, i - 1, t);
      AtSound(s, run, i - 1);
      FairHere(s, NoDrifts(|s.w|), run, t, i - 1);
      NoDriftAfter(At(s, run, i - 1), run[i - 1], t);
    }
  }

  lemma NoLag(w: World, v: World, d: Drift, t: int)
    requires d == NoDrift(|w|) && Behind(w, v, d.marks, t, d.past)
    ensures v == w
  {
    hide Behind;
    BehindIsEqual(w, v, d.marks, t, d.past);
  }

  lemma TornExactly(w: World, e: Event, x: World, v: World, d: Drift, t: int)
    requires d == NoDrift(|w|) && DriftAfter(d, w, e) == d && |x| == |w| && Reached(w, e, x, d, v, t)
    ensures v == x || Partly(w, e, v)
  {
    hide Behind, Partly, DriftAfter, NoDrift;
    if Behind(x, v, d.marks, t, d.past) {
      NoLag(x, v, d, t);
    } else {
      var y :| Partly(w, e, y) && Behind(y, v, d.marks, t, d.past);
      assert |y| == |w| by { SameWidth(y, v, d.marks, t, d.past); NoDriftWidth(d, |w|); }
      NoLag(y, v, d, t);
    }
  }

  lemma NoDriftWidth(d: Drift, n: nat)
    requires d == NoDrift(n)
    ensures |d.marks| == n
  {
  }

  /** The databases are those after the first i events, or those that a part of event i has made of them: all of it, or
      nothing but deletions of keys that it found expired, or else a SETEX without its expire time. */
  ghost predicate ExactMoment(s: Server, run: seq<Event>, i: nat, v: World)
    requires Runs(s, run) && i <= |run|
  {
    v == At(s, run, i).w || (i < |run| && (v == At(s, run, i + 1).w || Partly(At(s, run, i).w, run[i], v)))
  }

  lemma MomentIsExact(s: Server, run: seq<Event>, o: Origin, i: nat, v: World, t: int)
    requires Going(s, NoDrifts(|s.w|), run, t) && Runs(s, run) && AllSound(s, run) && o.start <= i <= |run|
    requires o.drift == NoDrift(|s.w|) && NearMoment(s, run, o, i, v, t)
    ensures ExactMoment(s, run, i, v)
    ensures var d := DriftAt(s, run, o, i); Behind(At(s, run, i).w, v, d.marks, t, d.past) ==> v == At(s, run, i).w
  {
    AtFair(s, NoDrifts(|s.w|), run, t, i);
    hide Going, Runs, AllSound, At, Behind, Reached, NoDrift, NoDrifts, DriftsAt, Partly, TrailInv, LogsClosed, Fine;
    NoDriftAt(s, run, o, i, t);
    var u, d := At(s, run, i), DriftAt(s, run, o, i);
    if Behind(u.w, v, d.marks, t, d.past) {
      NoLag(u.w, v, d, t);
    } else {
      AtFair(s, NoDrifts(|s.w|), run, t, i + 1);
      NoDriftAt(s, run, o, i + 1, t);
      TornExactly(u.w, run[i], At(s, run, i + 1).w, v, d, t);
    }
  }

  /** What the tool keeps of these bytes, loaded at any time, is moment i, or that moment and a part of the next
      event. */
  ghost predicate RecoversExactly(s: Server, run: seq<Event>, k: nat, i: nat, loaded: Option<World>)
    requires Runs(s, run) && CrashAt(s, run, k)
  {
    var o := OriginsAt(s, run, |run|).log;
    && Ended(s, run, o, k, i)
    && loaded.Some? && ExactMoment(s, run, i, loaded.value)
    && (k == Size(s, run, o, i) ==> loaded.value == At(s, run, i).w)
  }

  lemma BackIsExact(s: Server, run: seq<Event>, o: Origin, k: nat, i: nat, loaded: Option<World>, t: int)
    requires Going(s, NoDrifts(|s.w|), run, t) && Runs(s, run) && AllSound(s, run) && o.drift == NoDrift(|s.w|)
    requires Back(s, run, o, k, i, loaded, t)
    ensures Ended(s, run, o, k, i) && o.start <= i <= |run| && loaded.Some? && ExactMoment(s, run, i, loaded.value)
    ensures k == Size(s, run, o, i) ==> loaded.value == At(s, run, i).w
  {
    hide Going, Runs, AllSound, At, Behind, NoDrift, NoDrifts, NearMoment, ExactMoment, DriftAt, Size;
    MomentIsExact(s, run, o, i, loaded.value, t);
  }

  lemma ExactFrom(s: Server, run: seq<Event>, k: nat, i: nat, t: int)
    requires Going(s, NoDrifts(|s.w|), run, t) && Runs(s, run) && AllSound(s, run) && CrashAt(s, run, k) && |s.w| > 0
    requires Recovers(s, run, k, i, t)
    ensures RecoversExactly(s, run, k, i, LoadFile(|s.w|, Kept(LogOf(At(s, run, |run|))[..k]), t))
  {
    OriginsAtNone(s, run, |run|, t);
    hide Going, Runs, AllSound, At, NoDrift, NoDrifts, Back, Ended, ExactMoment, OriginsAt, Size, LoadFile, Kept;
    BackIsExact(s, run, OriginsAt(s, run, |run|).log, k, i,
                LoadFile(|s.w|, Kept(LogOf(At(s, run, |run|))[..k]), t), t);
  }

  /** Where the log rebuilds the databases exactly, because the run uses no SET with EX or PX and no rewrite starts with
      a key past its expire time, so it does after a crash. */
  lemma CrashGoesBackExactly(n: nat, run: seq<Event>, k: nat, t: int) returns (i: nat)
    requires 0 < n <= MAX_DBS && IsTime(t) && Runs(Initial(n), run) && AllSound(Initial(n), run)
    requires CrashAt(Initial(n), run, k)
    ensures RecoversExactly(Initial(n), run, k, i, LoadFile(n, Kept(LogOf(At(Initial(n), run, |run|))[..k]), t))
  {
    assert |Initial(n).w| == n;
    InitialTrails(n, t);
    InitialCloses(n);
    SoundRunIsFair(Initial(n), run, t);
    assert Going(Initial(n), NoDrifts(n), run, t);
    hide *;
    i := CrashGoesBack(n, run, k, t);
    ExactFrom(Initial(n), run, k, i, t);
  }

  // ----- a SETEX that loses its expire time -----

  ghost predicate IsSetExCall(argv: Argv)
  {
    && Runnable(argv) && Lookup(argv[0]).value == SetEx && Fits(argv)
    && GetLongLong(argv[2]).Some? && GetLongLong(argv[2]).value > 0
  }

  lemma SetExFeeds(w: World, argv: Argv, now: int)
    requires |w| > 0 && w[0] == EMPTY_DB && IsSetExCall(argv) && IsTime(now)
    ensures var r, when := Call(w, 0, argv, now), FedWhen(SetEx, argv[2], now);
      && r.w == w[0 := SetExpire(SetKey(w[0], argv[1], Str(argv[3])), argv[1], when)]
      && r.fed == [Record(0, [[SET, argv[1], argv[3]], [PEXPIREAT, argv[1], Print(when)]])]
  {
    hide Lookup, GetLongLong, FedWhen, Print, Fits, Wrap;
    assert Looked(Lazy(w, []), 0, SetEx, argv, now) == Lazy(w, []);
    assert Effect(w, 0, SetEx, argv, Clock(now, false)).dirty;
    SetExEffect(w, 0, argv, now);
    var nil := Deletions([]);
    assert nil + [Record(0, Translate(argv, now))] == [Record(0, Translate(argv, now))];
  }

  lemma SetExWrites(n: nat, argv: Argv, now: int)
    requires 0 < n <= MAX_DBS && IsSetExCall(argv) && IsTime(now)
    ensures var run, when := [Command(0, argv, now)], FedWhen(SetEx, argv[2], now); var u := After(Initial(n), run);
      && Runs(Initial(n), run)
      && u.w == EmptyWorld(n)[0 := SetExpire(SetKey(EMPTY_DB, argv[1], Str(argv[3])), argv[1], when)]
      && LogOf(u) == CatAll([SelectCommand(0), [SET, argv[1], argv[3]], [PEXPIREAT, argv[1], Print(when)]])
  {
    hide Lookup, GetLongLong, FedWhen, Print, Fits, Call, SelectCommand, CatAll;
    var s, e, when := Initial(n), Command(0, argv, now), FedWhen(SetEx, argv[2], now);
    SetExFeeds(s.w, argv, now);
    var plain, expire: Argv := [SET, argv[1], argv[3]], [PEXPIREAT, argv[1], Print(when)];
    var fed, none: seq<Record>, nothing: seq<Argv> := [Record(0, [plain, expire])], [], [];
    assert [e][1..] == [] && fed[1..] == none && Feed(0, none) == nothing;
    assert Feed(-1, fed) == [SelectCommand(0)] + [plain, expire] + nothing;
    assert Feed(-1, fed) == [SelectCommand(0), plain, expire];
    var empty: Bytestring := [];
    assert empty + (empty + CatAll(Feed(-1, fed))) == CatAll(Feed(-1, fed));
  }

  /** The tool keeps the whole of a log that is whole. */
  lemma WholeIsKept(cmds: seq<Argv>, n: nat, t: int)
    requires WellFormed(cmds, 0) && MultiAfter(cmds, 0) == Some(0) && n > 0
    requires forall argv :: argv in cmds ==> Runnable(argv)
    ensures LoadFile(n, Kept(CatAll(cmds)), t) == Load(n, cmds, t)
  {
    hide CatAll, Runnable, MultiAfter, WellFormed, Load, LoadFile, Kept, LastClosed;
    var k, m := |CatAll(cmds)|, |cmds|;
    assert CatAll(cmds)[..k] == CatAll(cmds) && cmds[..m] == cmds;
    var j := KeptLoadsAs(cmds, k, n, t);
    MultiIsBit(cmds, m, n, t);
    KeptAfterMoment(cmds, k, j, m, n, t);
    KeptFits(cmds, k, j);
  }

  lemma TwoLoad(n: nat, key: Bytestring, val: Bytestring, t: int)
    requires 0 < n <= MAX_DBS && |key| <= INT64_MAX && |val| <= INT64_MAX
    ensures var cmds := [SelectCommand(0), [SET, key, val]];
      && Load(n, cmds, t) == Some(EmptyWorld(n)[0 := SetKey(EMPTY_DB, key, Str(val))])
      && WellFormed(cmds, 0) && MultiAfter(cmds, 0) == Some(0) && forall argv :: argv in cmds ==> Runnable(argv)
  {
    var select, plain: Argv := SelectCommand(0), [SET, key, val];
    var cmds := [select, plain];
    var f := Fake(EmptyWorld(n), 0, false);
    SelectFits(0);
    SelectIsPlain(0);
    SetIsPlain(key, val);
    hide RunOne, Fits, PlainOne, SelectCommand, MultiAfter;
    PlainNests(cmds, false);
    NestIsMultiAfter(cmds, false);
    SelectRuns(f, 0, t);
    RunSingle(f, select, t);
    RunSingle(f, plain, t);
    SetRuns(f.w, 0, false, key, val, t);
    assert cmds == [select] + [plain];
    RunAllAppend(f, [select], [plain], t);
  }

  lemma SetIsPlain(key: Bytestring, val: Bytestring)
    ensures PlainOne([SET, key, val])
  {
    Names();
    hide Lookup;
  }

  /** A key that the server holds with an expire time and the loaded databases without. */
  ghost predicate LosesExpire(w: World, v: World, key: Bytestring)
  {
    && |w| == |v| > 0 && key in w[0].dict && key in v[0].dict && w[0].dict[key] == v[0].dict[key]
    && key in w[0].expires && key !in v[0].expires
  }

  lemma CutAfterSet(n: nat, key: Bytestring, val: Bytestring, last: Argv, t: int) returns (k: nat)
    requires 0 < n <= MAX_DBS && |key| <= INT64_MAX && |val| <= INT64_MAX
    ensures var bytes := CatAll([SelectCommand(0), [SET, key, val], last]);
      k <= |bytes| && LoadFile(n, Kept(bytes[..k]), t) == Some(EmptyWorld(n)[0 := SetKey(EMPTY_DB, key, Str(val))])
  {
    hide LoadFile, Load, WellFormed, MultiAfter, CatAll, Kept, SelectCommand, Runnable;
    var front := [SelectCommand(0), [SET, key, val]];
    CatAllAppend(front, [last]);
    assert front + [last] == [SelectCommand(0), [SET, key, val], last];
    k := |CatAll(front)|;
    TwoLoad(n, key, val, t);
    WholeIsKept(front, n, t);
    assert (CatAll(front) + CatAll([last]))[..k] == CatAll(front);
  }

  /** The log of that one call, cut there. */
  ghost predicate CutLoses(n: nat, argv: Argv, now: int, k: nat, t: int)
    requires n > 0 && |argv| > 1
  {
    var run := [Command(0, argv, now)];
    && Runs(Initial(n), run)
    && var u := After(Initial(n), run);
       k <= |LogOf(u)|
       && match LoadFile(n, Kept(LogOf(u)[..k]), t) case None => false case Some(v) => LosesExpire(u.w, v, argv[1])
  }

  lemma TornIs(n: nat, argv: Argv, now: int, k: nat, t: int, v: World)
    requires n > 0 && |argv| > 1 && Runs(Initial(n), [Command(0, argv, now)])
    requires var u := After(Initial(n), [Command(0, argv, now)]);
      k <= |LogOf(u)| && LoadFile(n, Kept(LogOf(u)[..k]), t) == Some(v) && LosesExpire(u.w, v, argv[1])
    ensures CutLoses(n, argv, now, k, t)
  {
    hide Runs, After, LoadFile, Kept, LogOf, LosesExpire;
  }

  lemma ExpireIsLost(n: nat, key: Bytestring, val: Bytestring, when: int)
    requires n > 0
    ensures var db := SetKey(EMPTY_DB, key, Str(val));
      LosesExpire(EmptyWorld(n)[0 := SetExpire(db, key, when)], EmptyWorld(n)[0 := db], key)
  {
  }

  /** SETEX is not atomic in the log: there is a point where a crash leaves its key without the expire time. */
  lemma SetExIsTorn(n: nat, argv: Argv, now: int, t: int) returns (k: nat)
    requires 0 < n <= MAX_DBS && IsSetExCall(argv) && IsTime(now)
    ensures |argv| > 1 && CutLoses(n, argv, now, k, t)
  {
    assert |argv| == 4;
    FitsArgs(argv);
    hide *;
    var key, val, when := argv[1], argv[3], FedWhen(SetEx, argv[2], now);
    SetExWrites(n, argv, now);
    k := CutAfterSet(n, key, val, [PEXPIREAT, key, Print(when)], t);
    ExpireIsLost(n, key, val, when);
    TornIs(n, argv, now, k, t, EmptyWorld(n)[0 := SetKey(EMPTY_DB, key, Str(val))]);
  }

  lemma FitsArgs(argv: Argv)
    requires Fits(argv)
    ensures forall a :: a in argv ==> |a| <= INT64_MAX
  {
  }
}
