/** aof.c, rewriteAppendOnlyFile: a shorter log that rebuilds the databases from nothing. */
module Rewrite {
  import opened Bytes
  import opened Decimal
  import opened Wire
  import opened Commands
  import opened Keyspace
  import opened Effects
  import opened Propagation
  import opened CallReplay

  const ITEMS_PER_CMD := 64

  /** A key with its value as an iterator meets it, members and fields in some order, and what
      getExpire says of it. */
  datatype Entry = Entry(key: Bytestring, value: Stored, expire: int)

  datatype Stored = StoredString(bytes: Bytestring) | StoredList(items: Argv) | StoredSet(members: Argv)
                  | StoredHash(pairs: Argv)

  function Meaning(v: Stored): Value
  {
    match v
    case StoredString(b) => Str(b)
    case StoredList(items) => List(items)
    case StoredSet(members) => Value.Set(Members(members))
    case StoredHash(pairs) => Hash(SetFields(map[], pairs))
  }

  /** Neither empty nor cut in the middle of a pair. */
  predicate Storable(v: Stored)
  {
    match v
    case StoredString(_) => true
    case StoredList(items) => items != []
    case StoredSet(members) => members != []
    case StoredHash(pairs) => pairs != [] && |pairs| % 2 == 0
  }

  predicate WholePairs(v: Stored) { v.StoredHash? ==> |v.pairs| % 2 == 0 }

  // ----- what is written -----

  /** Items are added at most `per` to a command. */
  function Chunked(name: Bytestring, key: Bytestring, items: Argv, per: nat): seq<Argv>
    requires per > 0
    decreases |items|
  {
    if items == [] then []
    else if |items| <= per then [[name, key] + items]
    else [[name, key] + items[..per]] + Chunked(name, key, items[per..], per)
  }

  function ValueCommands(key: Bytestring, v: Stored): seq<Argv>
  {
    match v
    case StoredString(b) => [[SET, key, b]]
    case StoredList(items) => Chunked(RPUSH, key, items, ITEMS_PER_CMD)
    case StoredSet(members) => Chunked(SADD, key, members, ITEMS_PER_CMD)
    case StoredHash(pairs) => Chunked(HMSET, key, pairs, 2 * ITEMS_PER_CMD)
  }

  /** As few commands as can be, all full but the last. */
  lemma {:induction false} ChunksAreFull(name: Bytestring, key: Bytestring, items: Argv, per: nat)
    requires per > 0
    ensures var cmds := Chunked(name, key, items, per);
      && (if items == [] then cmds == [] else per * (|cmds| - 1) < |items| <= per * |cmds|)
      && (forall i :: 0 <= i < |cmds| - 1 ==> |cmds[i]| == per + 2)
      && (cmds != [] ==> 2 < |cmds[|cmds| - 1]| <= per + 2)
    decreases |items|
  {
    if |items| > per {
      ChunksAreFull(name, key, items[per..], per);
      var more := Chunked(name, key, items[per..], per);
      assert per * (|more| + 1) == per * |more| + per;
    }
  }

  /** Lists, sets and hashes are written 64 items, members or fields at a time. */
  lemma ValuesAreChunked(key: Bytestring, v: Stored)
    ensures var cmds := ValueCommands(key, v);
      match v
      case StoredString(_) => |cmds| == 1
      case StoredHash(_) => forall i :: 0 <= i < |cmds| ==> |cmds[i]| == 130 || (i == |cmds| - 1 && |cmds[i]| < 130)
      case _ => forall i :: 0 <= i < |cmds| ==> |cmds[i]| == 66 || (i == |cmds| - 1 && |cmds[i]| < 66)
  {
    match v
    case StoredString(_) =>
    case StoredList(items) => ChunksAreFull(RPUSH, key, items, ITEMS_PER_CMD);
    case StoredSet(members) => ChunksAreFull(SADD, key, members, ITEMS_PER_CMD);
    case StoredHash(pairs) => ChunksAreFull(HMSET, key, pairs, 2 * ITEMS_PER_CMD);
  }

  predicate Skipped(e: Entry, now: int) { e.expire != -1 && e.expire < now }

  function EntryCommands(e: Entry, now: int): seq<Argv>
  {
    if Skipped(e, now) then []
    else ValueCommands(e.key, e.value) + (if e.expire != -1 then [[PEXPIREAT, e.key, Print(e.expire)]] else [])
  }

  function EntriesCommands(entries: seq<Entry>, now: int): seq<Argv>
  {
    if entries == [] then [] else EntryCommands(entries[0], now) + EntriesCommands(entries[1..], now)
  }

  /** The databases from number d on. */
  function Dump(layout: seq<seq<Entry>>, d: nat, now: int): seq<Argv>
    decreases |layout|
  {
    if layout == [] then []
    else
      (if layout[0] == [] then [] else [SelectCommand(d)] + EntriesCommands(layout[0], now))
      + Dump(layout[1..], d + 1, now)
  }

  // ----- what it is written from -----

  /** The entries are those of the database, each key once. */
  ghost predicate Depicts(entries: seq<Entry>, db: Db)
  {
    && (forall i, j :: 0 <= i < j < |entries| ==> entries[i].key != entries[j].key)
    && (forall i :: 0 <= i < |entries| ==>
          && entries[i].key in db.dict && Meaning(entries[i].value) == db.dict[entries[i].key]
          && WholePairs(entries[i].value) && entries[i].expire == GetExpire(db, entries[i].key))
    && (forall k :: k in db.dict ==> exists i :: 0 <= i < |entries| && entries[i].key == k)
  }

  ghost predicate DepictsAll(layout: seq<seq<Entry>>, w: World)
  {
    |layout| == |w| && forall d :: 0 <= d < |w| ==> Depicts(layout[d], w[d])
  }

  // ----- what it rebuilds -----

  /** A database without the keys past their expire time at `now`. */
  function Unexpired(db: Db, now: int): Db
  {
    Db(map k | k in db.dict && (GetExpire(db, k) == -1 || GetExpire(db, k) >= now) :: db.dict[k],
       map k | k in db.expires && db.expires[k] >= now :: db.expires[k])
  }

  function AllUnexpired(w: World, now: int): (v: World)
    ensures |v| == |w|
  {
    seq(|w|, d requires 0 <= d < |w| => Unexpired(w[d], now))
  }

  /** Nothing is past its expire time. */
  predicate Fresh(w: World, now: int)
  {
    forall d :: 0 <= d < |w| ==> forall k :: k in w[d].expires ==> w[d].expires[k] >= now
  }

  /** The rewrite loses nothing exactly when no key is past its expire time. */
  lemma NothingSkipped(w: World, now: int)
    requires WorldOk(w) && now >= 0
    ensures AllUnexpired(w, now) == w <==> Fresh(w, now)
  {
    if AllUnexpired(w, now) == w {
      forall d | 0 <= d < |w| ensures forall k :: k in w[d].expires ==> w[d].expires[k] >= now {
        assert Unexpired(w[d], now) == w[d];
        assert Unexpired(w[d], now).expires == w[d].expires;
      }
    }
    if Fresh(w, now) {
      forall d | 0 <= d < |w| ensures Unexpired(w[d], now) == w[d] {
        assert Unexpired(w[d], now).dict == w[d].dict;
        assert Unexpired(w[d], now).expires == w[d].expires;
      }
    }
  }

  // ----- one value -----

  /** What one chunk does, by the type of the command. */
  function Add(db: Db, c: Command, key: Bytestring, items: Argv): (Db, bool)
    requires c in {RPush, SAdd, HMSet}
  {
    match c
    case RPush => PushTail(db, key, items)
    case SAdd => AddMembers(db, key, items)
    case HMSet => SetHash(db, key, items)
  }

  lemma ChunkRuns(w: World, d: nat, name: Bytestring, c: Command, key: Bytestring, items: Argv, t: int)
    requires d < |w| && Lookup(name) == Some(c) && c in {RPush, SAdd, HMSet}
    requires items != [] && (c == HMSet ==> |items| % 2 == 0)
    ensures RunOne(Fake(w, d, false), [name, key] + items, t)
         == Some(Fake(w[d := Add(w[d], c, key, items).0], d, false))
  {
    hide Lookup, RunOne, PushTail, AddMembers, SetHash;
    var argv := [name, key] + items;
    assert argv[0] == name && argv[1] == key && argv[2..] == items;
    PlainRuns(w, d, false, argv, t);
  }

  lemma {:induction false} SetFieldsSplit(fields: map<Bytestring, Bytestring>, a: Argv, b: Argv)
    requires |a| % 2 == 0
    ensures SetFields(fields, a + b) == SetFields(SetFields(fields, a), b)
    decreases |a|
  {
    if a == [] {
      assert a + b == b;
    } else {
      assert (a + b)[2..] == a[2..] + b;
      SetFieldsSplit(fields[a[0] := a[1]], a[2..], b);
    }
  }

  /** Adding in two goes is adding at once. */
  lemma AddTwice(db: Db, c: Command, key: Bytestring, a: Argv, b: Argv)
    requires c in {RPush, SAdd, HMSet} && (c == HMSet ==> |a| % 2 == 0 && |b| % 2 == 0)
    ensures Add(Add(db, c, key, a).0, c, key, b).0 == Add(db, c, key, a + b).0
  {
    match c
    case RPush =>
      if key in db.dict && db.dict[key].List? {
        var l := db.dict[key].items;
        assert l + (a + b) == (l + a) + b;
      }
    case SAdd => assert Members(a + b) == Members(a) + Members(b);
      if key in db.dict && db.dict[key].Set? {
        var m := db.dict[key].members;
        assert m + (Members(a) + Members(b)) == (m + Members(a)) + Members(b);
      }
    case HMSet =>
      if key !in db.dict { SetFieldsSplit(map[], a, b); }
      else if db.dict[key].Hash? { SetFieldsSplit(db.dict[key].fields, a, b); }
  }

  lemma {:induction false} ChunkedRuns(w: World, d: nat, name: Bytestring, c: Command, key: Bytestring, items: Argv,
                                       per: nat, t: int)
    requires d < |w| && Lookup(name) == Some(c) && c in {RPush, SAdd, HMSet} && per > 0
    requires items != [] && (c == HMSet ==> |items| % 2 == 0 && per % 2 == 0)
    ensures RunAll(Fake(w, d, false), Chunked(name, key, items, per), t)
         == Some(Fake(w[d := Add(w[d], c, key, items).0], d, false))
    decreases |items|
  {
    hide Lookup, RunOne, Add, RunAll;
    var f := Fake(w, d, false);
    if |items| <= per {
      ChunkRuns(w, d, name, c, key, items, t);
      RunSingle(f, [name, key] + items, t);
    } else {
      var a, b := items[..per], items[per..];
      ChunkRuns(w, d, name, c, key, a, t);
      RunSingle(f, [name, key] + a, t);
      RunAllAppend(f, [[name, key] + a], Chunked(name, key, b, per), t);
      var v := w[d := Add(w[d], c, key, a).0];
      ChunkedRuns(v, d, name, c, key, b, per, t);
      AddTwice(w[d], c, key, a, b);
      assert a + b == items;
      assert Chunked(name, key, items, per) == [[name, key] + a] + Chunked(name, key, b, per);
      assert v[d := Add(v[d], c, key, b).0] == w[d := Add(w[d], c, key, items).0];
    }
  }

  lemma ValueRuns(w: World, d: nat, key: Bytestring, v: Stored, t: int)
    requires d < |w| && DbOk(w[d]) && key !in w[d].dict && Storable(v)
    ensures RunAll(Fake(w, d, false), ValueCommands(key, v), t)
         == Some(Fake(w[d := Overwrite(w[d], key, Meaning(v))], d, false))
  {
    hide Lookup, RunOne, RunAll, Chunked;
    Names();
    match v
    case StoredString(b) =>
      RunSingle(Fake(w, d, false), [SET, key, b], t);
      SetRuns(w, d, false, key, b, t);
      assert w[d].expires - {key} == w[d].expires;
    case StoredList(items) => ChunkedRuns(w, d, RPUSH, RPush, key, items, ITEMS_PER_CMD, t);
    case StoredSet(members) => ChunkedRuns(w, d, SADD, SAdd, key, members, ITEMS_PER_CMD, t);
    case StoredHash(pairs) => ChunkedRuns(w, d, HMSET, HMSet, key, pairs, 2 * ITEMS_PER_CMD, t);
  }

  // ----- one database -----

  function AddEntry(db: Db, e: Entry, now: int): Db
  {
    if Skipped(e, now) then db
    else
      var added := Overwrite(db, e.key, Meaning(e.value));
      if e.expire == -1 then added else SetExpire(added, e.key, e.expire)
  }

  lemma RunNothing(f: Fake, t: int)
    requires f.db < |f.w|
    ensures RunAll(f, [], t) == Some(f)
  {
  }

  lemma EntryRuns(w: World, d: nat, e: Entry, now: int, t: int)
    requires d < |w| && DbOk(w[d]) && e.key !in w[d].dict && Storable(e.value) && Int64(e.expire)
    ensures RunAll(Fake(w, d, false), EntryCommands(e, now), t) == Some(Fake(w[d := AddEntry(w[d], e, now)], d, false))
  {
    hide Lookup, RunOne, RunAll, ValueCommands, Meaning;
    if !Skipped(e, now) {
      var f := Fake(w, d, false);
      var v := w[d := Overwrite(w[d], e.key, Meaning(e.value))];
      ValueRuns(w, d, e.key, e.value, t);
      if e.expire == -1 {
        var nil: seq<Argv> := [];
        assert ValueCommands(e.key, e.value) + nil == ValueCommands(e.key, e.value);
      } else {
        var last: Argv := [PEXPIREAT, e.key, Print(e.expire)];
        RunAllAppend(f, ValueCommands(e.key, e.value), [last], t);
        RunSingle(Fake(v, d, false), last, t);
        PExpireAtRuns(v, d, false, e.key, e.expire, t);
        assert v[d := SetExpire(v[d], e.key, e.expire)] == w[d := SetExpire(v[d], e.key, e.expire)];
      }
    } else {
      assert w[d := w[d]] == w;
      RunNothing(Fake(w, d, false), t);
    }
  }

  function Build(db: Db, entries: seq<Entry>, now: int): Db
    decreases |entries|
  {
    if entries == [] then db else Build(AddEntry(db, entries[0], now), entries[1..], now)
  }

  /** Keys still to come are not there yet. */
  ghost predicate Ahead(db: Db, entries: seq<Entry>)
  {
    && DbOk(db)
    && (forall i :: 0 <= i < |entries| ==>
          entries[i].key !in db.dict && Storable(entries[i].value) && Int64(entries[i].expire))
    && (forall i, j :: 0 <= i < j < |entries| ==> entries[i].key != entries[j].key)
  }

  lemma MeaningNotEmpty(v: Stored)
    requires WholePairs(v)
    ensures Storable(v) <==> NotEmpty(Meaning(v))
  {
    match v
    case StoredSet(members) => if members != [] { assert members[0] in Members(members); }
    case StoredHash(pairs) => if pairs != [] { SetFieldsGrows(map[], pairs); }
    case _ =>
  }

  lemma AheadStep(db: Db, entries: seq<Entry>, now: int)
    requires Ahead(db, entries) && entries != []
    ensures Ahead(AddEntry(db, entries[0], now), entries[1..])
  {
    MeaningNotEmpty(entries[0].value);
    hide Storable, Meaning, NotEmpty, Int64;
  }

  lemma {:induction false} EntriesRun(w: World, d: nat, entries: seq<Entry>, now: int, t: int)
    requires d < |w| && Ahead(w[d], entries)
    ensures RunAll(Fake(w, d, false), EntriesCommands(entries, now), t)
         == Some(Fake(w[d := Build(w[d], entries, now)], d, false))
    decreases |entries|
  {
    hide RunAll, EntryCommands, AddEntry;
    if entries == [] {
      assert w[d := w[d]] == w;
      RunNothing(Fake(w, d, false), t);
    } else {
      var e := entries[0];
      var v := w[d := AddEntry(w[d], e, now)];
      EntryRuns(w, d, e, now, t);
      AheadStep(w[d], entries, now);
      RunAllAppend(Fake(w, d, false), EntryCommands(e, now), EntriesCommands(entries[1..], now), t);
      EntriesRun(v, d, entries[1..], now, t);
      assert v[d := Build(v[d], entries[1..], now)] == w[d := Build(w[d], entries, now)];
    }
  }

  // ----- what has been built -----

  /** Building visits the entries in order; afterwards the database holds what it held and the
      entries that are not skipped. */
  lemma {:induction false} BuildHas(db: Db, entries: seq<Entry>, now: int, k: Bytestring)
    requires Ahead(db, entries)
    ensures var b := Build(db, entries, now);
      && (k in db.dict ==> k in b.dict && b.dict[k] == db.dict[k])
      && (k in db.expires ==> k in b.expires && b.expires[k] == db.expires[k])
      && (k in b.dict && k !in db.dict ==>
           exists i :: 0 <= i < |entries| && entries[i].key == k && !Skipped(entries[i], now))
      && (k in b.expires && k !in db.expires ==> k !in db.dict && k in b.dict)
    decreases |entries|
  {
    if entries != [] {
      hide Storable, Meaning, Ahead;
      AheadStep(db, entries, now);
      AheadHead(db, entries);
      var next := AddEntry(db, entries[0], now);
      BuildHas(next, entries[1..], now, k);
      var b := Build(next, entries[1..], now);
      if k in b.dict && k !in next.dict {
        var i :| 0 <= i < |entries[1..]| && entries[1..][i].key == k && !Skipped(entries[1..][i], now);
        assert entries[i + 1].key == k;
      } else if k in next.dict && k !in db.dict {
        assert entries[0].key == k;
      }
    }
  }

  lemma AheadHead(db: Db, entries: seq<Entry>)
    requires Ahead(db, entries) && entries != []
    ensures DbOk(db) && entries[0].key !in db.dict && entries[0].key !in db.expires
  {
  }

  lemma {:induction false} BuildGets(db: Db, entries: seq<Entry>, now: int, i: nat)
    requires Ahead(db, entries) && i < |entries|
    ensures var b := Build(db, entries, now); var e := entries[i];
      if Skipped(e, now) then e.key !in b.dict && e.key !in b.expires
      else e.key in b.dict && b.dict[e.key] == Meaning(e.value) && GetExpire(b, e.key) == e.expire
           && (e.key in b.expires <==> e.expire != -1)
    decreases |entries|
  {
    hide Storable, Meaning, NotEmpty;
    var next := AddEntry(db, entries[0], now);
    AheadStep(db, entries, now);
    if i == 0 {
      BuildHas(next, entries[1..], now, entries[0].key);
    } else {
      BuildGets(next, entries[1..], now, i - 1);
    }
  }

  /** From nothing, the entries of a database build that database, less its expired keys. */
  lemma BuildIs(db: Db, entries: seq<Entry>, now: int)
    requires DbOk(db) && Depicts(entries, db) && Ahead(EMPTY_DB, entries) && now >= 0
    ensures Build(EMPTY_DB, entries, now) == Unexpired(db, now)
  {
    hide Storable, Meaning, Build, Ahead;
    var b, u := Build(EMPTY_DB, entries, now), Unexpired(db, now);
    forall k
      ensures k in b.dict <==> k in u.dict
      ensures k in b.dict && k in u.dict ==> b.dict[k] == u.dict[k]
      ensures k in b.expires <==> k in u.expires
      ensures k in b.expires && k in u.expires ==> b.expires[k] == u.expires[k]
    {
      BuildHas(EMPTY_DB, entries, now, k);
      if k in db.dict {
        var i :| 0 <= i < |entries| && entries[i].key == k;
        BuildGets(EMPTY_DB, entries, now, i);
      }
    }
    assert b.dict == u.dict && b.expires == u.expires;
  }

  // ----- all databases -----

  function Built(w: World, layout: seq<seq<Entry>>, d: nat, now: int): (v: World)
    requires d + |layout| == |w|
    ensures |v| == |w|
  {
    seq(|w|, i requires 0 <= i < |w| => if i < d then w[i] else Build(EMPTY_DB, layout[i - d], now))
  }

  ghost predicate StillEmpty(w: World, layout: seq<seq<Entry>>, d: nat)
    requires d + |layout| == |w|
  {
    forall i :: d <= i < |w| ==> w[i] == EMPTY_DB && Ahead(EMPTY_DB, layout[i - d])
  }

  lemma StillEmptyHead(w: World, layout: seq<seq<Entry>>, d: nat)
    requires d + |layout| == |w| && layout != [] && StillEmpty(w, layout, d)
    ensures w[d] == EMPTY_DB && Ahead(EMPTY_DB, layout[0])
  {
  }

  lemma StillEmptyStep(w: World, layout: seq<seq<Entry>>, d: nat, db: Db)
    requires d + |layout| == |w| && layout != [] && StillEmpty(w, layout, d)
    ensures StillEmpty(w[d := db], layout[1..], d + 1)
  {
    hide Ahead;
  }

  lemma BuiltStep(w: World, layout: seq<seq<Entry>>, d: nat, now: int)
    requires d + |layout| == |w| && layout != []
    ensures Built(w[d := Build(EMPTY_DB, layout[0], now)], layout[1..], d + 1, now) == Built(w, layout, d, now)
  {
    hide Build;
  }

  lemma BuiltAll(w: World, layout: seq<seq<Entry>>, d: nat, now: int)
    requires d + |layout| == |w| && layout == []
    ensures Built(w, layout, d, now) == w
  {
  }

  lemma DumpOne(f: Fake, entries: seq<Entry>, d: nat, now: int, t: int)
    requires f.db < |f.w| <= 0x7FFF_FFFF && d < |f.w| && !f.multi && f.w[d] == EMPTY_DB && Ahead(EMPTY_DB, entries)
    ensures var cmds := if entries == [] then [] else [SelectCommand(d)] + EntriesCommands(entries, now);
      var g := Fake(f.w[d := Build(EMPTY_DB, entries, now)], if entries == [] then f.db else d, false);
      RunAll(f, cmds, t) == Some(g)
  {
    hide RunAll, RunOne, Ahead, SelectCommand, EntriesCommands;
    if entries == [] {
      assert f.w[d := f.w[d]] == f.w;
      RunNothing(f, t);
    } else {
      SelectRuns(f, d, t);
      RunSingle(f, SelectCommand(d), t);
      RunAllAppend(f, [SelectCommand(d)], EntriesCommands(entries, now), t);
      EntriesRun(f.w, d, entries, now, t);
    }
  }

  lemma {:induction false} DumpRuns(f: Fake, layout: seq<seq<Entry>>, d: nat, now: int, t: int)
    requires f.db < |f.w| <= 0x7FFF_FFFF && !f.multi && d + |layout| == |f.w| && StillEmpty(f.w, layout, d)
    ensures var r := RunAll(f, Dump(layout, d, now), t);
      r.Some? && !r.value.multi && r.value.w == Built(f.w, layout, d, now)
    decreases |layout|
  {
    hide RunAll, Ahead, SelectCommand, EntriesCommands, Build, StillEmpty, Built;
    if layout == [] {
      RunNothing(f, t);
      BuiltAll(f.w, layout, d, now);
    } else {
      var entries := layout[0];
      var cmds := if entries == [] then [] else [SelectCommand(d)] + EntriesCommands(entries, now);
      assert f.w[d] == EMPTY_DB && Ahead(EMPTY_DB, entries) by { StillEmptyHead(f.w, layout, d); }
      DumpOne(f, entries, d, now, t);
      var g := RunAll(f, cmds, t).value;
      StillEmptyStep(f.w, layout, d, Build(EMPTY_DB, entries, now));
      DumpRuns(g, layout[1..], d + 1, now, t);
      RunAllAppend(f, cmds, Dump(layout[1..], d + 1, now), t);
      BuiltStep(f.w, layout, d, now);
    }
  }

  lemma DepictedAhead(entries: seq<Entry>, db: Db)
    requires DbOk(db) && Depicts(entries, db)
    ensures Ahead(EMPTY_DB, entries)
  {
    hide Meaning;
    forall i | 0 <= i < |entries| ensures Storable(entries[i].value) {
      MeaningNotEmpty(entries[i].value);
    }
  }

  /** A rewritten log, loaded at any time, rebuilds every database, whatever order its keys and
      their elements were written in, except for the keys that were past their expire time. */
  lemma DumpRestores(w: World, layout: seq<seq<Entry>>, now: int, t: int)
    requires WorldOk(w) && DepictsAll(layout, w) && 0 < |w| <= 0x7FFF_FFFF && now >= 0
    ensures var r := RunAll(Fake(EmptyWorld(|w|), 0, false), Dump(layout, 0, now), t);
      r.Some? && !r.value.multi && r.value.w == AllUnexpired(w, now)
  {
    hide RunAll, Ahead, Dump, Depicts, DbOk, Build, Unexpired;
    var f := Fake(EmptyWorld(|w|), 0, false);
    forall i | 0 <= i < |w|
      ensures Ahead(EMPTY_DB, layout[i]) && Build(EMPTY_DB, layout[i], now) == Unexpired(w[i], now) {
      DepictedAhead(layout[i], w[i]);
      BuildIs(w[i], layout[i], now);
    }
    DumpRuns(f, layout, 0, now, t);
    assert Built(f.w, layout, 0, now) == AllUnexpired(w, now);
  }
}
