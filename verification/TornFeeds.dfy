/** What of an event can be in the log when a crash cuts it short: aof.c writes several commands for one, and only
    those between MULTI and EXEC stand or fall together. */
module TornFeeds {
  import opened Bytes
  import opened Wire
  import opened Strtol
  import opened Commands
  import opened Keyspace
  import opened BitString
  import opened Effects
  import opened Propagation
  import opened CallReplay
  import opened LogMachine
  import opened LogDrift
  import opened LogRuns
  import opened CrashRecovery

  // ----- keys that lookups expire -----

  ghost predicate ExpiredAt(w: World, x: Target, now: int) { x.db < |w| && Expired(w[x.db], x.key, now) }

  /** The lookups have taken away keys that were past their expire time, and nothing else. */
  ghost predicate OnlyExpired(w: World, s: Lazy, now: int)
  {
    s.w == Without(w, s.gone) && forall x :: x in s.gone ==> ExpiredAt(w, x, now)
  }

  lemma {:induction false} ExpireOfRest(w: World, gone: seq<Target>, d: nat, key: Bytestring)
    requires d < |w|
    ensures GetExpire(Without(w, gone)[d], key) in {-1, GetExpire(w[d], key)}
    decreases |gone|
  {
    if gone != [] { ExpireOfRest(w, gone[..|gone| - 1], d, key); }
  }

  lemma TouchExpires(w: World, s: Lazy, d: nat, key: Bytestring, now: int)
    requires OnlyExpired(w, s, now) && d < |s.w|
    ensures OnlyExpired(w, Touch(s, d, key, now), now)
  {
    if Expired(s.w[d], key, now) {
      ExpireOfRest(w, s.gone, d, key);
      WithoutSnoc(w, s.gone, Target(d, key));
    }
  }

  lemma {:induction false} TouchSourcesExpires(w: World, s: Lazy, d: nat, keys: Argv, now: int)
    requires OnlyExpired(w, s, now) && d < |s.w|
    ensures OnlyExpired(w, TouchSources(s, d, keys, now), now)
    decreases |keys|
  {
    hide OnlyExpired, Touch, StringOf;
    if keys != [] {
      TouchExpires(w, s, d, keys[0], now);
      TouchSourcesExpires(w, Touch(s, d, keys[0], now), d, keys[1..], now);
    }
  }

  lemma TouchBothExpires(w: World, s: Lazy, d: nat, key: Bytestring, e: nat, other: Bytestring, now: int)
    requires OnlyExpired(w, s, now) && d < |s.w| && e < |s.w|
    ensures OnlyExpired(w, TouchBoth(s, d, key, e, other, now), now)
  {
    hide OnlyExpired, Touch;
    TouchExpires(w, s, d, key, now);
    TouchExpires(w, Touch(s, d, key, now), e, other, now);
  }

  lemma TouchBitOpExpires(w: World, s: Lazy, d: nat, argv: Argv, now: int)
    requires OnlyExpired(w, s, now) && d < |s.w| && |argv| >= 4
    ensures OnlyExpired(w, TouchBitOp(s, d, argv, now), now)
  {
    hide OnlyExpired, Touch, TouchSources, Sources, MaxLen, BitOpOf;
    TouchSourcesExpires(w, s, d, argv[3..], now);
    TouchExpires(w, TouchSources(s, d, argv[3..], now), d, argv[2], now);
  }

  lemma NothingExpired(w: World, now: int)
    ensures OnlyExpired(w, Lazy(w, []), now)
  {
  }

  lemma RenameExpires(w: World, s: Lazy, d: nat, c: Command, argv: Argv, now: int)
    requires OnlyExpired(w, s, now) && d < |s.w| && ArityOk(c, |argv|) && c in {Rename, RenameNx}
    ensures OnlyExpired(w, Looked(s, d, c, argv, now), now)
  {
    hide OnlyExpired, TouchBoth;
    if argv[1] != argv[2] { TouchBothExpires(w, s, d, argv[1], d, argv[2], now); }
  }

  lemma MoveExpires(w: World, s: Lazy, d: nat, argv: Argv, now: int)
    requires OnlyExpired(w, s, now) && d < |s.w| && ArityOk(Move, |argv|)
    ensures OnlyExpired(w, Looked(s, d, Move, argv, now), now)
  {
    hide OnlyExpired, TouchBoth, Atoi;
    var id := Atoi(argv[2]);
    if 0 <= id < |s.w| { TouchBothExpires(w, s, d, argv[1], id, argv[1], now); }
  }

  lemma OneKeyExpires(w: World, s: Lazy, d: nat, c: Command, argv: Argv, now: int)
    requires OnlyExpired(w, s, now) && d < |s.w| && ArityOk(c, |argv|) && c !in {Rename, RenameNx, Move}
    ensures OnlyExpired(w, Looked(s, d, c, argv, now), now)
  {
    hide OnlyExpired, Touch, TouchBitOp, LooksUp;
    if c == BitOp {
      TouchBitOpExpires(w, s, d, argv, now);
    } else if LooksUp(c, argv, now) {
      NamesKey(c, argv, now);
      TouchExpires(w, s, d, argv[1], now);
    }
  }

  /** All that lookups delete was past its expire time. */
  lemma LookedExpires(w: World, d: nat, c: Command, argv: Argv, now: int)
    requires d < |w| && ArityOk(c, |argv|)
    ensures OnlyExpired(w, Looked(Lazy(w, []), d, c, argv, now), now)
  {
    hide *;
    var s := Lazy(w, []);
    NothingExpired(w, now);
    if c == Rename || c == RenameNx { RenameExpires(w, s, d, c, argv, now); }
    else if c == Move { MoveExpires(w, s, d, argv, now); }
    else { OneKeyExpires(w, s, d, c, argv, now); }
  }

  // ----- a part of what is fed -----

  /** Where a part of what is fed ends: after i records and m commands of the next. */
  ghost predicate IsPart(fed: seq<Record>, i: nat, m: nat) { i <= |fed| && (i < |fed| ==> m <= |fed[i].cmds|) }

  /** What that part does. */
  ghost predicate PartGives(w: World, multi: bool, fed: seq<Record>, i: nat, m: nat, t: int, v: World, open: bool)
    requires |w| > 0 && IsPart(fed, i, m)
  {
    match Apply(w, multi, fed[..i], t)
    case None => false
    case Some(g) =>
      if i == |fed| then v == g.w && open == g.multi
      else
        fed[i].db < |w| &&
        match RunAll(Fake(g.w, fed[i].db, g.multi), fed[i].cmds[..m], t)
        case None => false
        case Some(h) => v == h.w && open == h.multi
  }

  lemma RunPrefix(f: Fake, cmds: seq<Argv>, m: nat, t: int)
    requires f.db < |f.w| && m <= |cmds| && RunAll(f, cmds, t).Some?
    ensures RunAll(f, cmds[..m], t).Some?
  {
    hide RunAll;
    assert cmds == cmds[..m] + cmds[m..];
    RunAllAppend(f, cmds[..m], cmds[m..], t);
  }

  /** A part of the first record. */
  lemma PartOfFirst(w: World, multi: bool, fed: seq<Record>, m: nat, t: int)
    requires fed != [] && fed[0].db < |w| && m <= |fed[0].cmds|
    requires RunAll(Fake(w, fed[0].db, multi), fed[0].cmds, t).Some?
    ensures var r := RunAll(Fake(w, fed[0].db, multi), fed[0].cmds[..m], t);
      r.Some? && PartGives(w, multi, fed, 0, m, t, r.value.w, r.value.multi)
  {
    hide RunAll;
    assert fed[..0] == [];
    RunPrefix(Fake(w, fed[0].db, multi), fed[0].cmds, m, t);
  }

  function Selecting(d: nat, selected: int): seq<Argv> { if d != selected then [SelectCommand(d)] else [] }

  lemma SelectingRuns(f: Fake, d: nat, selected: int, t: int)
    requires f.db < |f.w| <= MAX_DBS && d < |f.w| && (selected == -1 || selected == f.db)
    ensures RunAll(f, Selecting(d, selected), t) == Some(f.(db := d))
  {
    hide RunOne;
    if d != selected {
      SelectRuns(f, d, t);
      assert |[SelectCommand(d)][1..]| == 0;
    }
  }

  lemma FeedHead(f: Fake, selected: int, fed: seq<Record>, t: int)
    requires f.db < |f.w| <= MAX_DBS && (selected == -1 || selected == f.db)
    requires fed != [] && Apply(f.w, f.multi, fed, t).Some?
    ensures fed[0].db < |f.w| && RunAll(f.(db := fed[0].db), fed[0].cmds, t).Some?
    ensures RunAll(f, Selecting(fed[0].db, selected), t) == Some(f.(db := fed[0].db))
    ensures Feed(selected, fed) == Selecting(fed[0].db, selected) + (fed[0].cmds + Feed(fed[0].db, fed[1..]))
    ensures |Selecting(fed[0].db, selected)| <= 1
  {
    hide RunAll, SelectCommand, Selecting;
    assert fed[0].db < |f.w|;
    SelectingRuns(f, fed[0].db, selected, t);
    hide Apply;
    FeedSplits(selected, fed);
  }

  lemma FeedSplits(selected: int, fed: seq<Record>)
    requires fed != []
    ensures Feed(selected, fed) == Selecting(fed[0].db, selected) + (fed[0].cmds + Feed(fed[0].db, fed[1..]))
    ensures |Selecting(fed[0].db, selected)| <= 1
  {
    hide SelectCommand;
    var sel, more := Selecting(fed[0].db, selected), Feed(fed[0].db, fed[1..]);
    assert (sel + fed[0].cmds) + more == sel + (fed[0].cmds + more);
  }

  lemma NoPart(f: Fake, t: int)
    requires f.db < |f.w|
    ensures RunAll(f, [], t) == Some(f) && IsPart([], 0, 0) && PartGives(f.w, f.multi, [], 0, 0, t, f.w, f.multi)
  {
    var none: seq<Record> := [];
    assert none[..0] == [];
  }

  /** A part of the commands that feeding writes is a part of what is fed, apart from a SELECT at its end. */
  lemma {:induction false} FeedPart(f: Fake, selected: int, fed: seq<Record>, j: nat, t: int) returns (i: nat, m: nat)
    requires f.db < |f.w| <= MAX_DBS && (selected == -1 || selected == f.db)
    requires Apply(f.w, f.multi, fed, t).Some? && j <= |Feed(selected, fed)|
    ensures IsPart(fed, i, m)
    ensures var r := RunAll(f, Feed(selected, fed)[..j], t);
      r.Some? && PartGives(f.w, f.multi, fed, i, m, t, r.value.w, r.value.multi)
    decreases |fed|, 2
  {
    i, m := 0, 0;
    if fed == [] {
      NoPart(f, t);
      assert Feed(selected, fed)[..j] == [];
    } else {
      hide *;
      FeedHead(f, selected, fed, t);
      var e := f.(db := fed[0].db);
      var sel, both := Selecting(fed[0].db, selected), fed[0].cmds + Feed(fed[0].db, fed[1..]);
      SplitRuns(f, e, sel, both, j, t);
      i, m := FeedPartIn(e, fed, if j < |sel| then 0 else j - |sel|, t);
    }
  }

  lemma SplitRuns(f: Fake, e: Fake, sel: seq<Argv>, both: seq<Argv>, j: nat, t: int)
    requires f.db < |f.w| && RunAll(f, sel, t) == Some(e) && e.w == f.w && e.multi == f.multi
    requires |sel| <= 1 && j <= |sel + both|
    ensures var r := RunAll(f, (sel + both)[..j], t);
      if j < |sel| then r == Some(f) && RunAll(e, both[..0], t) == Some(e) else r == RunAll(e, both[..j - |sel|], t)
  {
    if j < |sel| {
      assert (sel + both)[..j] == [];
    } else {
      hide RunAll;
      RunAllAppend(f, sel, both[..j - |sel|], t);
      assert (sel + both)[..j] == sel + both[..j - |sel|];
    }
  }

  lemma {:induction false} FeedPartIn(e: Fake, fed: seq<Record>, j: nat, t: int) returns (i: nat, m: nat)
    requires fed != [] && e.db == fed[0].db < |e.w| <= MAX_DBS && Apply(e.w, e.multi, fed, t).Some?
    requires j <= |fed[0].cmds + Feed(fed[0].db, fed[1..])| && RunAll(e, fed[0].cmds, t).Some?
    ensures IsPart(fed, i, m)
    ensures var r := RunAll(e, (fed[0].cmds + Feed(fed[0].db, fed[1..]))[..j], t);
      r.Some? && PartGives(e.w, e.multi, fed, i, m, t, r.value.w, r.value.multi)
    decreases |fed|, 1
  {
    hide RunAll, Feed, PartGives, Apply;
    if j <= |fed[0].cmds| {
      i, m := 0, j;
      assert (fed[0].cmds + Feed(fed[0].db, fed[1..]))[..j] == fed[0].cmds[..j];
      PartOfFirst(e.w, e.multi, fed, m, t);
    } else {
      i, m := FeedPartLater(e, fed, j, t);
    }
  }

  lemma {:induction false} FeedPartLater(e: Fake, fed: seq<Record>, j: nat, t: int) returns (i: nat, m: nat)
    requires fed != [] && e.db == fed[0].db < |e.w| <= MAX_DBS && Apply(e.w, e.multi, fed, t).Some?
    requires var more := Feed(fed[0].db, fed[1..]); |fed[0].cmds| < j <= |fed[0].cmds + more|
    ensures IsPart(fed, i, m)
    ensures var r := RunAll(e, (fed[0].cmds + Feed(fed[0].db, fed[1..]))[..j], t);
      r.Some? && PartGives(e.w, e.multi, fed, i, m, t, r.value.w, r.value.multi)
    decreases |fed|, 0
  {
    hide RunAll, Feed;
    var cmds, more := fed[0].cmds, Feed(fed[0].db, fed[1..]);
    var g := RunAll(e, cmds, t).value;
    var p := j - |cmds|;
    i, m := FeedPart(g, fed[0].db, fed[1..], p, t);
    assert (cmds + more)[..j] == cmds + more[..p];
    RunAllAppend(e, cmds, more[..p], t);
    assert fed[..i + 1][1..] == fed[1..][..i];
    i := i + 1;
  }

  // ----- parts of deletions -----

  lemma {:induction false} DeletionsPrefix(gone: seq<Target>, i: nat)
    requires i <= |gone|
    ensures |Deletions(gone)| == |gone| && Deletions(gone)[..i] == Deletions(gone[..i])
    decreases i + |gone|
  {
    if gone != [] {
      DeletionsPrefix(gone[1..], if i == 0 then 0 else i - 1);
      if i > 0 { assert gone[..i][1..] == gone[1..][..i - 1]; }
    }
  }

  lemma {:induction false} DeletionAt(gone: seq<Target>, i: nat)
    requires i < |gone| && |Deletions(gone)| == |gone|
    ensures Deletions(gone)[i] == Record(gone[i].db, [[DEL, gone[i].key]])
    decreases |gone|
  {
    if i > 0 {
      DeletionsPrefix(gone[1..], 0);
      DeletionAt(gone[1..], i - 1);
    }
  }

  lemma {:induction false} DeletionsAppend(a: seq<Target>, b: seq<Target>)
    ensures Deletions(a + b) == Deletions(a) + Deletions(b)
    decreases |a|
  {
    if a == [] {
      assert a + b == b;
    } else {
      assert (a + b)[1..] == a[1..] + b;
      DeletionsAppend(a[1..], b);
    }
  }

  lemma {:induction false} WithoutAppend(w: World, a: seq<Target>, b: seq<Target>)
    ensures Without(w, a + b) == Without(Without(w, a), b)
    decreases |b|
  {
    if b == [] {
      assert a + b == a;
    } else {
      assert (a + b)[..|a + b| - 1] == a + b[..|b| - 1];
      WithoutAppend(w, a, b[..|b| - 1]);
    }
  }

  ghost predicate InRange(w: World, gone: seq<Target>) { forall x :: x in gone ==> x.db < |w| }

  /** A part of deletions and something more is fewer deletions, or all of them and a part of that. */
  lemma PartOfDeletions(w: World, multi: bool, gone: seq<Target>, rest: seq<Record>, i: nat, m: nat, t: int, v: World,
                        open: bool) returns (k: nat)
    requires |w| > 0 && InRange(w, gone) && IsPart(Deletions(gone) + rest, i, m)
    requires PartGives(w, multi, Deletions(gone) + rest, i, m, t, v, open)
    ensures |Deletions(gone)| == |gone| && k <= |gone|
    ensures i < |gone| ==> v == Without(w, gone[..k]) && open == multi
    ensures i >= |gone| ==>
      IsPart(rest, i - |gone|, m) && PartGives(Without(w, gone), multi, rest, i - |gone|, m, t, v, open)
  {
    hide RunAll, Apply;
    var dels := Deletions(gone);
    DeletionsPrefix(gone, 0);
    k := 0;
    if i < |gone| {
      DeletionsPrefix(gone, i);
      DeletionAt(gone, i);
      assert (dels + rest)[..i] == Deletions(gone[..i]);
      assert InRange(w, gone[..i]);
      DeletionsApply(w, multi, gone[..i], t);
      k := PartOfDeletion(w, multi, gone, i, m, t);
    } else {
      assert (dels + rest)[..i] == dels + rest[..i - |gone|];
      DeletionsApply(w, multi, gone, t);
      ApplyAppend(w, multi, dels, rest[..i - |gone|], t);
    }
  }

  lemma PartOfDeletion(w: World, multi: bool, gone: seq<Target>, i: nat, m: nat, t: int) returns (k: nat)
    requires i < |gone| && InRange(w, gone) && m <= 1
    ensures k <= |gone|
    ensures RunAll(Fake(Without(w, gone[..i]), gone[i].db, multi), [[DEL, gone[i].key]][..m], t)
         == Some(Fake(Without(w, gone[..k]), gone[i].db, multi))
  {
    var cmds: seq<Argv> := [[DEL, gone[i].key]];
    if m == 0 {
      k := i;
      assert cmds[..m] == [];
    } else {
      hide RunAll;
      k := i + 1;
      assert cmds[..m] == cmds;
      assert gone[..k] == gone[..i] + [gone[i]];
      WithoutSnoc(w, gone[..i], gone[i]);
      DeleteRuns(Without(w, gone[..i]), gone[i].db, multi, gone[i].key, t);
    }
  }

  // ----- what a crash leaves of an event -----

  /** The key was past its expire time by one of the event's readings of the clock. */
  ghost predicate ExpiredDuring(w: World, x: Target, e: Event)
  {
    match e
    case Command(_, _, now) => ExpiredAt(w, x, now)
    case Transact(_, queue, _) => exists q :: q in queue && ExpiredAt(w, x, q.now)
    case _ => false
  }

  ghost predicate AllExpired(w: World, gone: seq<Target>, e: Event) { forall x :: x in gone ==> ExpiredDuring(w, x, e) }

  /** SETEX and PSETEX, called outside a transaction, are written as two commands: SET and PEXPIREAT. */
  predicate IsSetEx(e: Event) { e.Command? && Runnable(e.argv) && Lookup(e.argv[0]).value in {SetEx, PSetEx} }

  /** The key is set, and its expire time is not. */
  function SetOnly(w: World, e: Event): World
    requires IsSetEx(e)
  {
    if e.db < |w| then w[e.db := SetKey(w[e.db], e.argv[1], Str(e.argv[3]))] else w
  }

  /** Some keys that the event found expired are gone, and nothing else has changed; but a SETEX may have set its key
      without its expire time. */
  ghost predicate Partly(w: World, e: Event, u: World)
  {
    exists gone :: AllExpired(w, gone, e)
      && (u == Without(w, gone) || (IsSetEx(e) && u == SetOnly(Without(w, gone), e)))
  }

  /** Databases that lag behind what part of the event has made of the live ones. */
  ghost predicate Torn(w: World, e: Event, v: World, ms: seq<Marks>, t: int, past: int)
  {
    exists y :: Partly(w, e, y) && Behind(y, v, ms, t, past)
  }

  lemma {:induction false} WithoutBehind(w: World, u: World, ms: seq<Marks>, t: int, past: int, gone: seq<Target>)
    requires Behind(w, u, ms, t, past) && InRange(w, gone)
    ensures Behind(Without(w, gone), Without(u, gone), ms, t, past)
    decreases |gone|
  {
    if gone != [] {
      hide Behind;
      var front, x := gone[..|gone| - 1], gone[|gone| - 1];
      assert gone == front + [x] && InRange(w, front);
      SameWidth(w, u, ms, t, past);
      WithoutBehind(w, u, ms, t, past, front);
      BehindDelete(Without(w, front), Without(u, front), ms, t, past, x.db, x.key);
      WithoutSnoc(w, front, x);
      WithoutSnoc(u, front, x);
    }
  }

  lemma GoneIsTorn(w: World, e: Event, gone: seq<Target>, u: World, ms: seq<Marks>, t: int, past: int)
    requires AllExpired(w, gone, e) && InRange(w, gone) && Behind(w, u, ms, t, past)
    ensures Torn(w, e, Without(u, gone), ms, t, past)
  {
    hide Without, Behind;
    WithoutBehind(w, u, ms, t, past, gone);
    assert Partly(w, e, Without(w, gone));
  }

  lemma SetOnlyBehind(w: World, u: World, e: Event, ms: seq<Marks>, t: int, past: int)
    requires IsSetEx(e) && Behind(w, u, ms, t, past)
    ensures Behind(SetOnly(w, e), SetOnly(u, e), ms, t, past)
  {
    hide Lookup;
    if e.db < |w| {
      var key, val := e.argv[1], Str(e.argv[3]);
      var a, b := SetKey(w[e.db], key, val), SetKey(u[e.db], key, val);
      BehindAt(w, u, ms, t, past, e.db);
      forall k ensures Like(a, b, ms[e.db], k, t, past) { assert Like(w[e.db], u[e.db], ms[e.db], k, t, past); }
      BehindSet(w, u, ms, t, past, e.db, a, b, ms[e.db]);
      assert ms[e.db := ms[e.db]] == ms;
    }
  }

  lemma SetOnlyIsTorn(w: World, e: Event, gone: seq<Target>, u: World, ms: seq<Marks>, t: int, past: int)
    requires AllExpired(w, gone, e) && InRange(w, gone) && IsSetEx(e) && Behind(w, u, ms, t, past)
    ensures Torn(w, e, SetOnly(Without(u, gone), e), ms, t, past)
  {
    hide Without, Behind, SetOnly, IsSetEx;
    WithoutBehind(w, u, ms, t, past, gone);
    SetOnlyBehind(Without(w, gone), Without(u, gone), e, ms, t, past);
    assert Partly(w, e, SetOnly(Without(w, gone), e));
  }

  lemma GoneHere(w: World, d: nat, argv: Argv, now: int, s: Lazy, k: nat)
    requires OnlyExpired(w, s, now) && k <= |s.gone|
    ensures AllExpired(w, s.gone[..k], Command(d, argv, now)) && InRange(w, s.gone[..k])
  {
  }

  lemma RecordPart(r: Record, u: World, i: nat, m: nat, t: int, v: World, open: bool)
    requires |u| > 0 && r.db < |u| && IsPart([r], i, m) && PartGives(u, false, [r], i, m, t, v, open)
    ensures var k := if i == 0 then m else |r.cmds|; var h := RunAll(Fake(u, r.db, false), r.cmds[..k], t);
      h.Some? && v == h.value.w
  {
    hide RunAll;
    if i == 0 {
      assert [r][..0] == [];
    } else {
      var none: seq<Record> := [];
      assert [r][..1] == [r] && [r][1..] == none && r.cmds[..|r.cmds|] == r.cmds;
      assert Apply(u, false, [r], t).Some?;
      var h := RunAll(Fake(u, r.db, false), r.cmds, t).value;
      assert Apply(h.w, h.multi, none, t) == Some(Fake(h.w, 0, h.multi));
    }
  }

  lemma TranslateSize(argv: Argv, now: int)
    requires Runnable(argv)
    ensures |Translate(argv, now)| == if Lookup(argv[0]).value in {SetEx, PSetEx} then 2 else 1
    ensures Lookup(argv[0]).value in {SetEx, PSetEx} ==> Translate(argv, now)[..1] == [[SET, argv[1], argv[3]]]
  {
    hide Lookup, FedWhen;
  }

  lemma RewrittenIsDel(argv: Argv)
    requires |argv| == 3
    ensures Lookup([DEL, argv[1]][0]) == Some(Del)
  {
    Names();
    hide Lookup;
  }

  /** Part of what the effect of a call feeds. */
  lemma EffectPart(w: World, u: World, d: nat, argv: Argv, now: int, k: nat, t: int, v: World)
    requires d < |w| == |u| && Runnable(argv)
    requires var o := Effect(w, d, Lookup(argv[0]).value, argv, Clock(now, false));
      && o.dirty && Runnable(o.argv) && k < |Translate(o.argv, now)|
      && (var h := RunAll(Fake(u, d, false), Translate(o.argv, now)[..k], t); h.Some? && v == h.value.w)
    ensures v == u || (IsSetEx(Command(d, argv, now)) && v == SetOnly(u, Command(d, argv, now)))
  {
    hide Lookup, RunAll, Effect, Translate, RelativeSet;
    var c := Lookup(argv[0]).value;
    var o := Effect(w, d, c, argv, Clock(now, false));
    var cmds, f := Translate(o.argv, now), Fake(u, d, false);
    RewrittenRunnable(w, d, argv, Clock(now, false));
    TranslateSize(o.argv, now);
    NoPart(f, t);
    if k == 0 {
      assert cmds[..k] == [];
    } else {
      if o.argv != argv { RewrittenIsDel(argv); }
      RunSingle(f, [SET, argv[1], argv[3]], t);
      SetRuns(u, d, false, argv[1], argv[3], t);
    }
  }

  /** What a call feeds: the deletions of its lookups, and the change if it made one. */
  ghost predicate CallShape(w: World, d: nat, argv: Argv, now: int, s: Lazy, rest: seq<Record>)
    requires d < |w| && Runnable(argv)
  {
    var r := Call(w, d, argv, now);
    && OnlyExpired(w, s, now) && |s.w| == |w| && r.fed == Deletions(s.gone) + rest
    && if rest == [] then r.w == s.w
       else
         var o := Effect(s.w, d, Lookup(argv[0]).value, argv, Clock(now, false));
         o.dirty && Runnable(o.argv) && rest == [Record(d, Translate(o.argv, now))] && r.w == o.w
  }

  lemma CallHasShape(w: World, d: nat, argv: Argv, now: int) returns (s: Lazy, rest: seq<Record>)
    requires WorldOk(w) && d < |w| && Runnable(argv)
    ensures CallShape(w, d, argv, now, s, rest)
  {
    hide Lookup, Looked, Effect, Translate, RelativeSet, WorldOk, Deletions;
    var c := Lookup(argv[0]).value;
    s := Looked(Lazy(w, []), d, c, argv, now);
    LookedExpires(w, d, c, argv, now);
    LookedOk(w, d, c, argv, now);
    EffectOk(s.w, d, c, argv, Clock(now, false));
    RewrittenRunnable(s.w, d, argv, Clock(now, false));
    var o := Effect(s.w, d, c, argv, Clock(now, false));
    rest := if o.dirty then [Record(d, Translate(o.argv, now))] else [];
  }

  /** All of what is fed is in the part. */
  predicate IsWhole(fed: seq<Record>, i: nat, m: nat)
  {
    i == |fed| || (i == |fed| - 1 && m == |fed[i].cmds|)
  }

  /** Of a call, loaded into databases that lag, but not all of it. */
  lemma CommandPart(w: World, u: World, ms: seq<Marks>, past: int, d: nat, argv: Argv, now: int, i: nat, m: nat,
                    t: int, v: World, open: bool)
    requires WorldOk(w) && Behind(w, u, ms, t, past) && d < |w| == |u| && Runnable(argv)
    requires IsPart(Call(w, d, argv, now).fed, i, m) && !IsWhole(Call(w, d, argv, now).fed, i, m)
    requires PartGives(u, false, Call(w, d, argv, now).fed, i, m, t, v, open)
    ensures Torn(w, Command(d, argv, now), v, ms, t, past)
  {
    hide Lookup, Effect, Translate, RunAll, Apply, WorldOk, PartGives, Call, Without, Deletions, Behind;
    hide OnlyExpired, AllExpired, InRange, Torn;
    var e := Command(d, argv, now);
    var s, rest := CallHasShape(w, d, argv, now);
    GoneHere(w, d, argv, now, s, |s.gone|);
    assert s.gone[..|s.gone|] == s.gone;
    SameRange(w, u, s.gone);
    var k := PartOfDeletions(u, false, s.gone, rest, i, m, t, v, open);
    if i < |s.gone| {
      GoneHere(w, d, argv, now, s, k);
      GoneIsTorn(w, e, s.gone[..k], u, ms, t, past);
    } else {
      assert rest != [] && i == |s.gone| && m < |rest[0].cmds|;
      RestPart(w, u, ms, past, d, argv, now, s, rest, m, t, v, open);
    }
  }

  lemma SameRange(w: World, u: World, gone: seq<Target>)
    requires |w| == |u| && InRange(w, gone)
    ensures InRange(u, gone)
  {
  }

  lemma RestPart(w: World, u: World, ms: seq<Marks>, past: int, d: nat, argv: Argv, now: int, s: Lazy,
                 rest: seq<Record>, m: nat, t: int, v: World, open: bool)
    requires d < |w| == |u| && Runnable(argv) && CallShape(w, d, argv, now, s, rest) && Behind(w, u, ms, t, past)
    requires rest != [] && m < |rest[0].cmds| && IsPart(rest, 0, m)
    requires PartGives(Without(u, s.gone), false, rest, 0, m, t, v, open)
    ensures Torn(w, Command(d, argv, now), v, ms, t, past)
  {
    hide Lookup, Effect, Translate, RunAll, Apply, PartGives, Call, Without, Deletions, Behind, AllExpired, Torn;
    hide InRange, OnlyExpired;
    var e, z := Command(d, argv, now), Without(u, s.gone);
    GoneHere(w, d, argv, now, s, |s.gone|);
    assert s.gone[..|s.gone|] == s.gone;
    RecordPart(rest[0], z, 0, m, t, v, open);
    EffectPart(s.w, z, d, argv, now, m, t, v);
    if v == z { GoneIsTorn(w, e, s.gone, u, ms, t, past); } else { SetOnlyIsTorn(w, e, s.gone, u, ms, t, past); }
  }

  lemma NothingGives(u: World, t: int, v: World, open: bool, m: nat)
    requires |u| > 0 && PartGives(u, false, [], 0, m, t, v, open)
    ensures v == u
  {
    var none: seq<Record> := [];
    assert none[..0] == [];
  }

  // ----- transactions -----

  ghost predicate ExpiredIn(w: World, x: Target, queue: seq<Queued>)
  {
    exists q :: q in queue && ExpiredAt(w, x, q.now)
  }

  /** EXEC under way: before MULTI is fed there are only deletions of expired keys, and after it no MULTI or EXEC. */
  ghost predicate TxnShape(w: World, all: seq<Queued>, x: Txn, gone: seq<Target>, opening: seq<Record>,
                           plain: seq<Record>)
  {
    && |x.w| == |w| && (forall y :: y in gone ==> ExpiredIn(w, y, all))
    && x.fed == Deletions(gone) + (opening + plain)
    && if x.open then PlainFed(plain) && |opening| == 1 && opening[0].cmds == [[MULTI]] && opening[0].db < |w|
       else opening == [] && plain == [] && x.w == Without(w, gone)
  }

  lemma ReadOnlyIsClean(w: World, d: nat, c: Command, argv: Argv, clock: Clock)
    requires d < |w| && ArityOk(c, |argv|) && ReadOnly(c)
    ensures !Effect(w, d, c, argv, clock).dirty
  {
  }

  lemma StillExpired(w: World, gone: seq<Target>, y: Target, all: seq<Queued>, q: Queued)
    requires ExpiredAt(Without(w, gone), y, q.now) && q in all
    ensures ExpiredIn(w, y, all)
  {
    ExpireOfRest(w, gone, y.db, y.key);
    assert ExpiredAt(w, y, q.now);
  }

  lemma CallWithNoChange(w: World, d: nat, argv: Argv, now: int) returns (gone: seq<Target>)
    requires WorldOk(w) && d < |w| && Runnable(argv) && ReadOnly(Lookup(argv[0]).value)
    ensures Call(w, d, argv, now).fed == Deletions(gone) && Call(w, d, argv, now).w == Without(w, gone)
    ensures forall y :: y in gone ==> ExpiredAt(w, y, now)
  {
    hide Lookup, Effect, Call, Without, Translate, WorldOk;
    var s, rest := CallHasShape(w, d, argv, now);
    ReadOnlyIsClean(s.w, d, Lookup(argv[0]).value, argv, Clock(now, false));
    gone := s.gone;
    assert Deletions(gone) + [] == Deletions(gone);
  }

  lemma ExecOneShape(w: World, all: seq<Queued>, x: Txn, gone: seq<Target>, opening: seq<Record>, plain: seq<Record>,
                     q: Queued)
      returns (gone': seq<Target>, opening': seq<Record>, plain': seq<Record>)
    requires TxnShape(w, all, x, gone, opening, plain) && WorldOk(x.w) && x.db < |x.w| && Queueable(q) && q in all
    ensures TxnShape(w, all, ExecOne(x, q), gone', opening', plain')
  {
    hide Lookup, Call, Without, Deletions, PlainFed, ReadOnly, SelectedDb, WorldOk, ExpiredIn;
    var c, r := Lookup(q.argv[0]).value, Call(x.w, x.db, q.argv, q.now);
    CallPlain(x.w, x.db, q.argv, q.now);
    gone', opening', plain' := gone, opening, plain;
    if x.open {
      plain' := plain + r.fed;
      PlainAppend(plain, r.fed);
      assert x.fed + [] + r.fed == Deletions(gone) + (opening + plain');
    } else if ReadOnly(c) {
      var more := CallWithNoChange(x.w, x.db, q.argv, q.now);
      gone' := gone + more;
      DeletionsAppend(gone, more);
      WithoutAppend(w, gone, more);
      forall y | y in gone' ensures ExpiredIn(w, y, all) {
        if y in more { StillExpired(w, gone, y, all, q); }
      }
      assert x.fed + [] + r.fed == Deletions(gone') + ([] + []);
    } else {
      opening' := Opening(x, c);
      plain' := r.fed;
      assert x.fed + opening' + r.fed == Deletions(gone) + (opening' + plain');
    }
  }

  lemma PlainAppend(a: seq<Record>, b: seq<Record>)
    requires PlainFed(a) && PlainFed(b)
    ensures PlainFed(a + b)
  {
    hide CrashRecovery.Plain;
  }

  lemma {:induction false} QueueShape(w: World, all: seq<Queued>, x: Txn, gone: seq<Target>, opening: seq<Record>,
                                      plain: seq<Record>, queue: seq<Queued>)
      returns (gone': seq<Target>, opening': seq<Record>, plain': seq<Record>)
    requires TxnShape(w, all, x, gone, opening, plain) && WorldOk(x.w) && x.db < |x.w|
    requires forall q :: q in queue ==> Queueable(q) && q in all && IsTime(q.now)
    ensures TxnShape(w, all, ExecQueue(x, queue), gone', opening', plain')
    decreases |queue|
  {
    gone', opening', plain' := gone, opening, plain;
    if queue != [] {
      hide TxnShape, Queueable, WorldOk, Call, SelectedDb, Opening;
      var q := queue[0];
      assert q in queue && Queueable(q);
      gone', opening', plain' := ExecOneShape(w, all, x, gone, opening, plain, q);
      CallOk(x.w, x.db, q.argv, q.now);
      gone', opening', plain' := QueueShape(w, all, ExecOne(x, q), gone', opening', plain', queue[1..]);
    }
  }

  // ----- inside MULTI -----

  lemma {:induction false} PlainRunStays(f: Fake, cmds: seq<Argv>, t: int)
    requires f.db < |f.w| && CrashRecovery.Plain(cmds) && RunAll(f, cmds, t).Some?
    ensures RunAll(f, cmds, t).value.multi == f.multi
    decreases |cmds|
  {
    if cmds != [] {
      PlainOneStays(f, cmds[0], t);
      hide PlainOne, RunOne;
      PlainRunStays(RunOne(f, cmds[0], t).value, cmds[1..], t);
    }
  }

  lemma PlainOneStays(f: Fake, argv: Argv, t: int)
    requires f.db < |f.w| && PlainOne(argv)
    ensures RunOne(f, argv, t).Some? && RunOne(f, argv, t).value.multi == f.multi
  {
    hide Lookup, Effect, SelectedDb;
  }

  lemma {:induction false} PlainFedStays(w: World, multi: bool, fed: seq<Record>, t: int)
    requires |w| > 0 && PlainFed(fed) && Apply(w, multi, fed, t).Some?
    ensures Apply(w, multi, fed, t).value.multi == multi
    decreases |fed|
  {
    if fed != [] {
      hide CrashRecovery.Plain, RunAll;
      assert fed[0] in fed;
      var g := RunAll(Fake(w, fed[0].db, multi), fed[0].cmds, t).value;
      PlainRunStays(Fake(w, fed[0].db, multi), fed[0].cmds, t);
      PlainFedStays(g.w, g.multi, fed[1..], t);
    }
  }

  /** Between MULTI and EXEC a part of the feed is inside MULTI. */
  lemma PlainPartStays(w: World, fed: seq<Record>, i: nat, m: nat, t: int, v: World, open: bool)
    requires |w| > 0 && PlainFed(fed) && IsPart(fed, i, m) && PartGives(w, true, fed, i, m, t, v, open)
    ensures open
  {
    hide RunAll, PlainOne;
    assert PlainFed(fed[..i]);
    PlainFedStays(w, true, fed[..i], t);
    if i < |fed| {
      assert fed[i] in fed && CrashRecovery.Plain(fed[i].cmds[..m]);
      PlainRunStays(Fake(Apply(w, true, fed[..i], t).value.w, fed[i].db, true), fed[i].cmds[..m], t);
    }
  }

  /** The whole, whether the last record is counted as begun or as done. */
  lemma WholePart(w: World, multi: bool, fed: seq<Record>, i: nat, m: nat, t: int, v: World, open: bool)
    requires |w| > 0 && IsPart(fed, i, m) && PartGives(w, multi, fed, i, m, t, v, open)
    requires IsWhole(fed, i, m)
    ensures Apply(w, multi, fed, t).Some? ==> v == Apply(w, multi, fed, t).value.w
  {
    hide RunAll;
    if i == |fed| {
      assert fed[..i] == fed;
    } else {
      var none: seq<Record> := [];
      assert fed == fed[..i] + [fed[i]] && [fed[i]][1..] == none && fed[i].cmds[..m] == fed[i].cmds;
      ApplyAppend(w, multi, fed[..i], [fed[i]], t);
    }
  }

  /** A part that stops before the last record. */
  lemma FrontPart(w: World, multi: bool, front: seq<Record>, last: Record, i: nat, m: nat, t: int, v: World, open: bool)
    requires |w| > 0 && IsPart(front + [last], i, m) && PartGives(w, multi, front + [last], i, m, t, v, open)
    requires i < |front| || (i == |front| && m == 0)
    ensures IsPart(front, i, m) && PartGives(w, multi, front, i, m, t, v, open)
  {
    assert (front + [last])[..i] == front[..i];
    if i == |front| {
      assert last.cmds[..0] == [];
      var g := Apply(w, multi, front[..i], t).value;
      NoPart(Fake(g.w, last.db, g.multi), t);
    }
    hide Apply, RunAll;
  }

  /** Once MULTI is in the log, the part is inside a transaction; before, it has done nothing. */
  lemma OpenedPart(u: World, opening: seq<Record>, plain: seq<Record>, i: nat, m: nat, t: int, v: World, open: bool)
    requires |u| > 0 && |opening| == 1 && opening[0].db < |u| && opening[0].cmds == [[MULTI]] && PlainFed(plain)
    requires IsPart(opening + plain, i, m) && PartGives(u, false, opening + plain, i, m, t, v, open)
    ensures open || v == u
  {
    var multi: Argv := [MULTI];
    var f := Fake(u, opening[0].db, false);
    MultiRuns(f, t);
    RunSingle(f, multi, t);
    NoPart(f, t);
    if i == 0 {
      assert (opening + plain)[..0] == [];
      assert opening[0].cmds[..m] == if m == 0 then [] else [multi];
      hide RunAll, RunOne;
    } else {
      hide RunAll, RunOne, PlainFed;
      assert (opening + plain)[..i] == opening + plain[..i - 1];
      ApplyAppend(u, false, opening, plain[..i - 1], t);
      var none: seq<Record> := [];
      assert opening[1..] == none && Apply(u, true, none, t) == Some(Fake(u, 0, true));
      assert Apply(u, false, opening, t) == Some(Fake(u, 0, true));
      PlainPartStays(u, plain, i - 1, m, t, v, open);
    }
  }

  lemma ShapeAtFirst(w: World, d: nat, queue: seq<Queued>)
    ensures TxnShape(w, queue, Txn(w, d, [], false), [], [], [])
  {
  }

  lemma GoneInQueue(w: World, d: nat, queue: seq<Queued>, exec: Argv, gone: seq<Target>, k: nat)
    requires (forall y :: y in gone ==> ExpiredIn(w, y, queue)) && k <= |gone|
    ensures AllExpired(w, gone[..k], Transact(d, queue, exec)) && InRange(w, gone[..k])
  {
    assert forall y :: y in gone[..k] ==> y in gone;
  }

  /** A part that is not all has not come to the EXEC at the end. */
  lemma TxnFront(u: World, fed: seq<Record>, last: seq<Record>, i: nat, m: nat, t: int, v: World, open: bool)
    requires |u| > 0 && IsPart(fed + last, i, m) && PartGives(u, false, fed + last, i, m, t, v, open)
    requires (last == [] || (|last| == 1 && |last[0].cmds| == 1)) && !IsWhole(fed + last, i, m)
    ensures i <= |fed| && IsPart(fed, i, m) && PartGives(u, false, fed, i, m, t, v, open)
  {
    hide Apply, RunAll, PartGives;
    var all := fed + last;
    if last == [] {
      assert all == fed;
    } else {
      assert all == fed + [last[0]];
      FrontPart(u, false, fed, last[0], i, m, t, v, open);
    }
  }

  lemma TxnPart(w: World, u: World, ms: seq<Marks>, past: int, d: nat, queue: seq<Queued>, exec: Argv, x: Txn,
                gone: seq<Target>, opening: seq<Record>, plain: seq<Record>, i: nat, m: nat, t: int, v: World)
    requires |w| == |u| > 0 && Behind(w, u, ms, t, past) && TxnShape(w, queue, x, gone, opening, plain)
    requires IsPart(x.fed, i, m) && PartGives(u, false, x.fed, i, m, t, v, false)
    ensures Torn(w, Transact(d, queue, exec), v, ms, t, past)
  {
    hide Apply, RunAll, PartGives, Without, Deletions, PlainFed, ExpiredIn, Torn, AllExpired, InRange, Behind;
    var e := Transact(d, queue, exec);
    GoneInQueue(w, d, queue, exec, gone, |gone|);
    assert gone[..|gone|] == gone;
    SameRange(w, u, gone);
    var k := PartOfDeletions(u, false, gone, opening + plain, i, m, t, v, false);
    if i < |gone| {
      GoneInQueue(w, d, queue, exec, gone, k);
      GoneIsTorn(w, e, gone[..k], u, ms, t, past);
    } else {
      GoneIsTorn(w, e, gone, u, ms, t, past);
      if x.open {
        OpenedPart(Without(u, gone), opening, plain, i - |gone|, m, t, v, false);
      } else {
        assert opening + plain == [];
        NothingGives(Without(u, gone), t, v, false, m);
      }
    }
  }

  /** Of a transaction, but not all of it: nothing but deletions of expired keys. */
  lemma TransactPart(w: World, u: World, ms: seq<Marks>, past: int, d: nat, queue: seq<Queued>, exec: Argv, i: nat,
                     m: nat, t: int, v: World)
    requires WorldOk(w) && Behind(w, u, ms, t, past) && d < |w| == |u|
    requires forall q :: q in queue ==> Queueable(q) && IsTime(q.now)
    requires var fed := Transaction(w, d, queue, exec).fed;
      IsPart(fed, i, m) && !IsWhole(fed, i, m) && PartGives(u, false, fed, i, m, t, v, false)
    ensures Torn(w, Transact(d, queue, exec), v, ms, t, past)
  {
    hide Lookup, WorldOk, ExecQueue, Queueable, PartGives, RunAll, Apply, TxnShape, Torn, Behind;
    var none: seq<Record>, nobody: seq<Target> := [], [];
    var first := Txn(w, d, none, false);
    ShapeAtFirst(w, d, queue);
    var gone, opening, plain := QueueShape(w, queue, first, nobody, none, none, queue);
    var x := ExecQueue(first, queue);
    var last := if x.open then [Record(x.db, [exec])] else none;
    assert Transaction(w, d, queue, exec).fed == x.fed + last;
    TxnFront(u, x.fed, last, i, m, t, v, false);
    TxnPart(w, u, ms, past, d, queue, exec, x, gone, opening, plain, i, m, t, v);
  }

  // ----- events -----

  lemma NothingIsTorn(w: World, e: Event, u: World, ms: seq<Marks>, t: int, past: int)
    requires Behind(w, u, ms, t, past)
    ensures Torn(w, e, u, ms, t, past)
  {
    hide Behind;
    var nobody: seq<Target> := [];
    GoneIsTorn(w, e, nobody, u, ms, t, past);
    assert Without(u, nobody) == u;
  }

  lemma DropPart(u: World, d: nat, key: Bytestring, i: nat, m: nat, t: int, v: World, open: bool)
    requires d < |u| && IsPart([Record(d, [[DEL, key]])], i, m) && !IsWhole([Record(d, [[DEL, key]])], i, m)
    requires PartGives(u, false, [Record(d, [[DEL, key]])], i, m, t, v, open)
    ensures v == u
  {
    var r := Record(d, [[DEL, key]]);
    RecordPart(r, u, i, m, t, v, open);
    hide RunAll;
    NoPart(Fake(u, d, false), t);
    assert r.cmds[..0] == [];
  }

  /** A part of what an event feeds, but not all of it. */
  lemma SomePart(s: Server, e: Event, u: World, ms: seq<Marks>, past: int, i: nat, m: nat, t: int, v: World)
    requires WorldOk(s.w) && |s.w| > 0 && Possible(s, e) && EventFits(e) && Behind(s.w, u, ms, t, past)
    requires var fed := FedBy(s, e).0;
      |u| > 0 && IsPart(fed, i, m) && !IsWhole(fed, i, m) && PartGives(u, false, fed, i, m, t, v, false)
    ensures Torn(s.w, e, v, ms, t, past)
  {
    hide Apply, RunAll, WorldOk, Call, Transaction, Lookup, Queueable, PartGives, Torn, Behind;
    SameWidth(s.w, u, ms, t, past);
    match e {
      case Command(d, argv, now) => CommandPart(s.w, u, ms, past, d, argv, now, i, m, t, v, false);
      case Transact(d, queue, exec) => TransactPart(s.w, u, ms, past, d, queue, exec, i, m, t, v);
      case Drop(d, key) =>
        DropPart(u, d, key, i, m, t, v, false);
        NothingIsTorn(s.w, e, u, ms, t, past);
      case _ =>
    }
  }

  /** A log's databases, which lag, after an event, or after part of it. */
  ghost predicate Reached(w: World, e: Event, x: World, g: Drift, v: World, t: int)
  {
    var h := DriftAfter(g, w, e);
    Behind(x, v, h.marks, t, h.past) || Torn(w, e, v, g.marks, t, g.past)
  }

  /** What the event feeds can be loaded into databases that lag, and leaves them lagging. */
  lemma EventLags(s: Server, g: Drift, e: Event, u: World, t: int)
    requires WorldOk(s.w) && |s.w| > 0 && Possible(s, e) && IsTime(t)
    requires Behind(s.w, u, g.marks, t, g.past) && |u| == |s.w| && Spares(s.w, g.past, e, t)
    requires e.Command? ==> CallInTime(s.w, e.db, e.argv, e.now, t)
    ensures FedLags(u, FedBy(s, e).0, FedBy(s, e).1, DriftAfter(g, s.w, e), t)
  {
    hide Apply, WorldOk, Call, Transaction, Lookup, Queueable, BehindDb, CallInTime, QueueFair;
    if Feeds(e) {
      EventKeepsBehind(s.w, u, g, e, FedBy(s, e).0, FedBy(s, e).1, t);
    } else {
      ApplyNothing(u, t);
    }
  }

  lemma ApplyNothing(w: World, t: int)
    requires |w| > 0
    ensures Apply(w, false, [], t) == Some(Fake(w, 0, false))
  {
  }

  /** The commands that are written for an event, cut anywhere, and loaded into databases that lag behind the live ones:
      unless a transaction is open, the databases lag behind those after the event, or behind those before it less some
      keys that it found expired, or else a SETEX has lost its expire time. */
  lemma EventPart(s: Server, g: Drift, e: Event, f: Fake, j: nat, t: int)
    requires WorldOk(s.w) && 0 < |s.w| <= MAX_DBS && Possible(s, e) && EventFits(e) && IsTime(t)
    requires Behind(s.w, f.w, g.marks, t, g.past) && |f.w| == |s.w| && Spares(s.w, g.past, e, t)
    requires e.Command? ==> CallInTime(s.w, e.db, e.argv, e.now, t)
    requires !f.multi && f.db < |f.w| && (s.selected == -1 || s.selected == f.db)
    requires j <= |Feed(s.selected, FedBy(s, e).0)|
    ensures var r := RunAll(f, Feed(s.selected, FedBy(s, e).0)[..j], t);
      r.Some? && (!r.value.multi ==> Reached(s.w, e, FedBy(s, e).1, g, r.value.w, t))
  {
    hide Apply, RunAll, WorldOk, Call, Transaction, Lookup, Queueable, Behind, CallInTime, Spares, FedBy, Possible;
    hide Feed, PartGives, Torn, IsPart, IsWhole, EventFits;
    EventLags(s, g, e, f.w, t);
    var (fed, x) := FedBy(s, e);
    assert Apply(f.w, f.multi, fed, t).Some?;
    var i, m := FeedPart(f, s.selected, fed, j, t);
    var v := RunAll(f, Feed(s.selected, fed)[..j], t).value;
    if !v.multi {
      if IsWhole(fed, i, m) { WholePart(f.w, false, fed, i, m, t, v.w, v.multi); }
      else { SomePart(s, e, f.w, g.marks, g.past, i, m, t, v.w); }
    }
  }
}
