/** What a log may rebuild differently: keys that were past their expire time when a rewrite started, which it lacks;
    those of them that PERSIST has kept since, which it lacks or holds otherwise; and expire times set by SET with EX or
    PX, which it counts from when it is loaded. */
module LogDrift {
  import opened Bytes
  import opened Decimal
  import opened Wire
  import opened Strtol
  import opened Commands
  import opened Keyspace
  import opened BitString
  import opened Effects
  import opened Propagation
  import opened CallReplay
  import opened LogMachine

  /** Of one database: the keys whose expire time was last set by SET with EX or PX, each with the time at which that
      command ran, and the keys that a PERSIST has kept although the log lacked them, or that depend on such keys. */
  datatype Marks = Marks(at: map<Bytestring, int>, revived: set<Bytestring>)

  function Shift(m: Marks, k: Bytestring, t: int): int { if k in m.at then t - m.at[k] else 0 }

  /** Both have the key alike, save that its expire time is later in the second by the shift. */
  ghost predicate Agree(a: Db, b: Db, k: Bytestring, shift: int)
  {
    && (k in a.dict <==> k in b.dict) && (k in a.dict ==> a.dict[k] == b.dict[k])
    && (k in a.expires <==> k in b.expires)
    && (k in a.expires ==>
          b.expires[k] == a.expires[k] + shift && (shift != 0 ==> a.expires[k] >= 0 && b.expires[k] >= 0))
  }

  /** The first has a key past its expire time, at the given time, that the second does not have. */
  ghost predicate Lacks(a: Db, b: Db, k: Bytestring, past: int)
  {
    k in a.dict && Expired(a, k, past) && k !in b.dict && k !in b.expires
  }

  ghost predicate Near(a: Db, b: Db, k: Bytestring, shift: int, past: int)
  {
    Agree(a, b, k, shift) || Lacks(a, b, k, past)
  }

  /** Only an existing key has an expire time. */
  ghost predicate Loose(b: Db, k: Bytestring) { k in b.expires ==> k in b.dict }

  /** Nothing is said of what the log has under a revived key. */
  ghost predicate Like(a: Db, b: Db, m: Marks, k: Bytestring, t: int, past: int)
  {
    if k in m.revived then Loose(b, k) else Near(a, b, k, Shift(m, k, t), past)
  }

  ghost predicate BehindDb(a: Db, b: Db, m: Marks, t: int, past: int)
  {
    forall k :: Like(a, b, m, k, t, past)
  }

  /** The second, loaded at time t, differs from the first in nothing but keys that the first holds although their
      expire time is before `past`, in revived keys, and in the times of marked keys, which are counted from t. */
  ghost predicate Behind(w: World, v: World, ms: seq<Marks>, t: int, past: int)
  {
    |w| == |v| == |ms| && forall d :: 0 <= d < |w| ==> BehindDb(w[d], v[d], ms[d], t, past)
  }

  function NoMarks(n: nat): (ms: seq<Marks>)
    ensures |ms| == n
  {
    seq(n, i => NO_MARKS)
  }

  const NO_MARKS := Marks(map[], {})

  lemma SameWidth(w: World, v: World, ms: seq<Marks>, t: int, past: int)
    requires Behind(w, v, ms, t, past)
    ensures |w| == |v| == |ms|
  {
  }

  lemma BehindAt(w: World, v: World, ms: seq<Marks>, t: int, past: int, d: nat)
    requires Behind(w, v, ms, t, past) && d < |w|
    ensures BehindDb(w[d], v[d], ms[d], t, past)
  {
  }

  lemma BehindSet(w: World, v: World, ms: seq<Marks>, t: int, past: int, d: nat, a: Db, b: Db, m: Marks)
    requires Behind(w, v, ms, t, past) && d < |w| && BehindDb(a, b, m, t, past)
    ensures Behind(w[d := a], v[d := b], ms[d := m], t, past)
  {
    hide BehindDb;
  }

  lemma AgreeIsEqual(a: Db, b: Db)
    requires forall k :: Agree(a, b, k, 0)
    ensures a == b
  {
    forall k
      ensures k in a.dict <==> k in b.dict
      ensures k in a.dict && k in b.dict ==> a.dict[k] == b.dict[k]
      ensures k in a.expires <==> k in b.expires
      ensures k in a.expires && k in b.expires ==> a.expires[k] == b.expires[k]
    {
      assert Agree(a, b, k, 0);
    }
    assert a.dict == b.dict && a.expires == b.expires;
  }

  /** Where nothing was past its expire time, and nothing is marked, nothing differs. */
  lemma BehindIsEqual(w: World, v: World, ms: seq<Marks>, t: int, past: int)
    requires Behind(w, v, ms, t, past) && forall d :: 0 <= d < |ms| ==> ms[d] == NO_MARKS
    requires forall d, k :: 0 <= d < |w| ==> !Expired(w[d], k, past)
    ensures v == w
  {
    forall d | 0 <= d < |w| ensures v[d] == w[d] {
      assert BehindDb(w[d], v[d], NO_MARKS, t, past);
      forall k ensures Agree(w[d], v[d], k, 0) { assert Like(w[d], v[d], NO_MARKS, k, t, past); }
      AgreeIsEqual(w[d], v[d]);
    }
  }

  /** Where nothing was past its expire time, there are the same keys with the same values, the same of them have an
      expire time, and only the times of marked keys differ, as they are counted from t; all this but for revived
      keys. */
  lemma OnlyTimesDiffer(w: World, v: World, ms: seq<Marks>, t: int, past: int, d: nat)
    requires Behind(w, v, ms, t, past) && d < |w| && forall k :: !Expired(w[d], k, past)
    ensures v[d].dict - ms[d].revived == w[d].dict - ms[d].revived
    ensures forall k :: k !in ms[d].revived ==> (k in v[d].expires <==> k in w[d].expires)
    ensures forall k :: k !in ms[d].revived && k in w[d].expires ==>
      v[d].expires[k] == w[d].expires[k] + Shift(ms[d], k, t)
  {
    var a, b, r := w[d], v[d], ms[d].revived;
    assert BehindDb(a, b, ms[d], t, past);
    forall k | k !in r
      ensures k in a.dict <==> k in b.dict
      ensures k in a.dict && k in b.dict ==> a.dict[k] == b.dict[k]
      ensures k in a.expires <==> k in b.expires
      ensures k in a.expires && k in b.expires ==> b.expires[k] == a.expires[k] + Shift(ms[d], k, t)
    {
      assert Like(a, b, ms[d], k, t, past);
    }
    assert a.dict - r == b.dict - r;
  }

  lemma SelfBehind(w: World, t: int, past: int)
    ensures Behind(w, w, NoMarks(|w|), t, past)
  {
    forall d | 0 <= d < |w| ensures BehindDb(w[d], w[d], NO_MARKS, t, past) {
      forall k ensures Like(w[d], w[d], NO_MARKS, k, t, past) { }
    }
  }

  // ----- lookups -----

  /** The databases after these keys have been deleted one by one. */
  function Without(v: World, gone: seq<Target>): (u: World)
    ensures |u| == |v|
    decreases |gone|
  {
    if gone == [] then v
    else
      var u, x := Without(v, gone[..|gone| - 1]), gone[|gone| - 1];
      if x.db < |u| then u[x.db := DbDelete(u[x.db], x.key)] else u
  }

  lemma WithoutSnoc(v: World, gone: seq<Target>, x: Target)
    requires x.db < |v|
    ensures var u := Without(v, gone); Without(v, gone + [x]) == u[x.db := DbDelete(u[x.db], x.key)]
  {
    assert (gone + [x])[..|gone|] == gone;
  }

  /** The lookups so far, and the same deletions in databases that lag. */
  ghost predicate Along(v: World, ms: seq<Marks>, t: int, s: Lazy, past: int)
  {
    Behind(s.w, Without(v, s.gone), ms, t, past) && forall x :: x in s.gone ==> x.db < |v|
  }

  lemma NearDelete(a: Db, b: Db, key: Bytestring, k: Bytestring, shift: int, past: int)
    requires Near(a, b, k, shift, past)
    ensures Near(DbDelete(a, key), DbDelete(b, key), k, shift, past)
    ensures k == key || Agree(a, b, k, shift) ==> Agree(DbDelete(a, key), DbDelete(b, key), k, shift)
  {
  }

  lemma BehindDelete(w: World, v: World, ms: seq<Marks>, t: int, past: int, d: nat, key: Bytestring)
    requires Behind(w, v, ms, t, past) && d < |w|
    ensures Behind(w[d := DbDelete(w[d], key)], v[d := DbDelete(v[d], key)], ms, t, past)
  {
    BehindAt(w, v, ms, t, past, d);
    hide Behind, Near;
    var a, b := DbDelete(w[d], key), DbDelete(v[d], key);
    forall k ensures Like(a, b, ms[d], k, t, past) {
      assert Like(w[d], v[d], ms[d], k, t, past);
      if k !in ms[d].revived { NearDelete(w[d], v[d], key, k, Shift(ms[d], k, t), past); }
    }
    BehindSet(w, v, ms, t, past, d, a, b, ms[d]);
    assert ms[d := ms[d]] == ms;
  }

  /** A client cannot tell: whenever it comes to look up a key that is neither marked nor revived, it finds the same in
      both. */
  lemma MissingIsUnseen(w: World, v: World, ms: seq<Marks>, t: int, d: nat, key: Bytestring, past: int, later: int)
    requires Behind(w, v, ms, t, past) && d < |w| && key !in ms[d].at && key !in ms[d].revived && past <= later
    ensures Agree(Touch(Lazy(w, []), d, key, later).w[d], Touch(Lazy(v, []), d, key, later).w[d], key, 0)
  {
    BehindAt(w, v, ms, t, past, d);
    assert Like(w[d], v[d], ms[d], key, t, past);
  }

  /** Both have the key alike after the lookups, if it is not revived. */
  ghost predicate Clear(v: World, ms: seq<Marks>, t: int, s: Lazy, d: nat, key: Bytestring)
    requires d < |s.w| == |v| == |ms|
  {
    key in ms[d].revived || Agree(s.w[d], Without(v, s.gone)[d], key, Shift(ms[d], key, t))
  }

  /** A key that is looked up is there in both or in neither from then on. */
  lemma TouchAlong(v: World, ms: seq<Marks>, t: int, s: Lazy, d: nat, key: Bytestring, past: int, now: int)
    requires past <= now && Along(v, ms, t, s, past) && d < |s.w| == |v|
    ensures var s' := Touch(s, d, key, now); Along(v, ms, t, s', past) && Clear(v, ms, t, s', d, key)
  {
    var u := Without(v, s.gone);
    assert Like(s.w[d], u[d], ms[d], key, t, past) by { BehindAt(s.w, u, ms, t, past, d); }
    if Expired(s.w[d], key, now) {
      hide Behind;
      WithoutSnoc(v, s.gone, Target(d, key));
      BehindDelete(s.w, u, ms, t, past, d, key);
    }
  }

  lemma TouchKeepsClear(v: World, ms: seq<Marks>, t: int, s: Lazy, d: nat, key: Bytestring, e: nat, other: Bytestring,
                        past: int, now: int)
    requires past <= now && Along(v, ms, t, s, past) && d < |s.w| == |v| == |ms| && e < |s.w|
    requires Clear(v, ms, t, s, e, other)
    ensures Clear(v, ms, t, Touch(s, d, key, now), e, other)
  {
    hide Behind;
    if Expired(s.w[d], key, now) { WithoutSnoc(v, s.gone, Target(d, key)); }
  }

  predicate AnyRevived(m: Marks, keys: Argv) { exists k :: k in keys && k in m.revived }

  /** Both have the same source strings, if none of them is revived. */
  ghost predicate SameSources(v: World, ms: seq<Marks>, s: Lazy, d: nat, keys: Argv)
    requires d < |s.w| == |v| == |ms|
  {
    AnyRevived(ms[d], keys) || Sources(s.w[d], keys) == Sources(Without(v, s.gone)[d], keys)
  }

  lemma ClearString(v: World, ms: seq<Marks>, t: int, s: Lazy, d: nat, key: Bytestring)
    requires d < |s.w| == |v| == |ms| && Clear(v, ms, t, s, d, key) && key !in ms[d].revived
    ensures StringOf(s.w[d], key) == StringOf(Without(v, s.gone)[d], key)
  {
  }

  lemma AlongSize(v: World, ms: seq<Marks>, t: int, s: Lazy, past: int)
    requires Along(v, ms, t, s, past)
    ensures |s.w| == |v| == |ms|
  {
  }

  /** The sources looked at stay as they are while the others are looked at. */
  lemma {:induction false} TouchSourcesKeepsClear(v: World, ms: seq<Marks>, t: int, s: Lazy, d: nat, keys: Argv,
                                                  other: Bytestring, past: int, now: int)
    requires past <= now && Along(v, ms, t, s, past) && d < |s.w| == |v| == |ms| && Clear(v, ms, t, s, d, other)
    ensures Clear(v, ms, t, TouchSources(s, d, keys, now), d, other)
    decreases |keys|
  {
    hide Along, Clear, Touch, StringOf;
    if keys != [] {
      TouchAlong(v, ms, t, s, d, keys[0], past, now);
      TouchKeepsClear(v, ms, t, s, d, keys[0], d, other, past, now);
      TouchSourcesKeepsClear(v, ms, t, Touch(s, d, keys[0], now), d, keys[1..], other, past, now);
    }
  }

  lemma {:induction false} TouchSourcesAlong(v: World, ms: seq<Marks>, t: int, s: Lazy, d: nat, keys: Argv, past: int,
                                            now: int)
    requires past <= now && Along(v, ms, t, s, past) && d < |s.w| == |v| == |ms|
    ensures var u := TouchSources(s, d, keys, now); Along(v, ms, t, u, past) && SameSources(v, ms, u, d, keys)
    decreases |keys|
  {
    hide Along, Clear, Touch, StringOf, SameSources;
    if keys == [] {
      SameNothing(v, ms, s, d);
    } else {
      var u := Touch(s, d, keys[0], now);
      TouchAlong(v, ms, t, s, d, keys[0], past, now);
      if StringOf(u.w[d], keys[0]) == None {
        SameFirst(v, ms, t, u, d, keys);
      } else {
        TouchSourcesAlong(v, ms, t, u, d, keys[1..], past, now);
        TouchSourcesKeepsClear(v, ms, t, u, d, keys[1..], keys[0], past, now);
        SameRest(v, ms, t, TouchSources(u, d, keys[1..], now), d, keys);
      }
    }
  }

  lemma SameNothing(v: World, ms: seq<Marks>, s: Lazy, d: nat)
    requires d < |s.w| == |v| == |ms|
    ensures SameSources(v, ms, s, d, [])
  {
  }

  lemma SameFirst(v: World, ms: seq<Marks>, t: int, s: Lazy, d: nat, keys: Argv)
    requires d < |s.w| == |v| == |ms| && keys != [] && Clear(v, ms, t, s, d, keys[0])
    requires StringOf(s.w[d], keys[0]) == None
    ensures SameSources(v, ms, s, d, keys)
  {
    if keys[0] in ms[d].revived { assert keys[0] in keys; } else { ClearString(v, ms, t, s, d, keys[0]); }
  }

  lemma SameRest(v: World, ms: seq<Marks>, t: int, s: Lazy, d: nat, keys: Argv)
    requires d < |s.w| == |v| == |ms| && keys != [] && Clear(v, ms, t, s, d, keys[0])
    requires SameSources(v, ms, s, d, keys[1..])
    ensures SameSources(v, ms, s, d, keys)
  {
    if keys[0] in ms[d].revived {
      assert keys[0] in keys;
    } else if k :| k in keys[1..] && k in ms[d].revived {
      assert k in keys;
    } else {
      ClearString(v, ms, t, s, d, keys[0]);
      hide StringOf, Clear;
    }
  }

  lemma TouchBothAlong(v: World, ms: seq<Marks>, t: int, s: Lazy, d: nat, key: Bytestring, e: nat, other: Bytestring,
                       past: int, now: int)
    requires past <= now && Along(v, ms, t, s, past) && d < |s.w| == |v| == |ms| && e < |s.w|
    ensures var u := TouchBoth(s, d, key, e, other, now);
      Along(v, ms, t, u, past) && Clear(v, ms, t, u, d, key) && (key in u.w[d].dict ==> Clear(v, ms, t, u, e, other))
  {
    hide Along, Clear;
    var u := Touch(s, d, key, now);
    TouchAlong(v, ms, t, s, d, key, past, now);
    TouchAlong(v, ms, t, u, e, other, past, now);
    TouchKeepsClear(v, ms, t, u, e, other, d, key, past, now);
  }

  /** Deleting a key makes no sources differ that were alike. */
  lemma {:induction false} SourcesOfDeleted(a: Db, b: Db, keys: Argv, key: Bytestring)
    requires Sources(a, keys) == Sources(b, keys) && Sources(a, keys).Some?
    ensures Sources(DbDelete(a, key), keys) == Sources(DbDelete(b, key), keys)
    decreases |keys|
  {
    if keys != [] {
      hide MaxLen;
      BitsDiffer(a, b, keys);
      SourcesOfDeleted(a, b, keys[1..], key);
    }
  }

  lemma BitsDiffer(a: Db, b: Db, keys: Argv)
    requires keys != [] && Sources(a, keys) == Sources(b, keys) && Sources(a, keys).Some?
    ensures StringOf(a, keys[0]).Some? && StringOf(b, keys[0]).Some?
    ensures ToBits(StringOf(a, keys[0]).value) == ToBits(StringOf(b, keys[0]).value)
    ensures Sources(a, keys[1..]) == Sources(b, keys[1..]) && Sources(a, keys[1..]).Some?
  {
    var p, q := Sources(a, keys).value, Sources(b, keys).value;
    assert p[0] == q[0] && p[1..] == q[1..];
  }

  lemma TouchBitOpAlong(v: World, ms: seq<Marks>, t: int, s: Lazy, d: nat, argv: Argv, past: int, now: int)
    requires past <= now && Along(v, ms, t, s, past) && d < |s.w| == |v| == |ms| && |argv| >= 4
    ensures var u := TouchBitOp(s, d, argv, now);
      Along(v, ms, t, u, past) && (BitOpOf(argv) == None || SameSources(v, ms, u, d, argv[3..]))
  {
    hide Along, Clear, Touch, TouchSources, BitOpOf, MaxLen, Sources, SameSources;
    if BitOpOf(argv) != None {
      var u := TouchSources(s, d, argv[3..], now);
      TouchSourcesAlong(v, ms, t, s, d, argv[3..], past, now);
      TouchAlong(v, ms, t, u, d, argv[2], past, now);
      if Sources(u.w[d], argv[3..]).Some? { TouchTargetSame(v, ms, t, u, d, argv[2], argv[3..], past, now); }
    }
  }

  lemma TouchTargetSame(v: World, ms: seq<Marks>, t: int, s: Lazy, d: nat, key: Bytestring, keys: Argv, past: int,
                        now: int)
    requires Along(v, ms, t, s, past) && d < |s.w| == |v| == |ms|
    requires SameSources(v, ms, s, d, keys) && Sources(s.w[d], keys).Some?
    ensures SameSources(v, ms, Touch(s, d, key, now), d, keys)
  {
    hide Behind, Sources;
    if Expired(s.w[d], key, now) && !AnyRevived(ms[d], keys) {
      WithoutSnoc(v, s.gone, Target(d, key));
      SourcesOfDeleted(s.w[d], Without(v, s.gone)[d], keys, key);
    }
  }

  // ----- what a command reads has been looked up -----

  /** The key is alike in one database of both, if it is not revived. */
  ghost predicate AgreeIn(w: World, u: World, ms: seq<Marks>, t: int, d: nat, key: Bytestring)
    requires d < |w| == |u| == |ms|
  {
    key in ms[d].revived || Agree(w[d], u[d], key, Shift(ms[d], key, t))
  }

  /** Everything the command's effect depends on is alike in both, but for revived keys. */
  ghost predicate Settled(w: World, u: World, ms: seq<Marks>, t: int, d: nat, c: Command, argv: Argv, now: int)
    requires d < |w| == |u| == |ms| && ArityOk(c, |argv|)
  {
    match c
    case Rename | RenameNx =>
      argv[1] == argv[2]
      || (AgreeIn(w, u, ms, t, d, argv[1]) && (argv[1] in w[d].dict ==> AgreeIn(w, u, ms, t, d, argv[2])))
    case Move =>
      var id := Atoi(argv[2]);
      id < 0 || id >= |w| || id == d
      || (AgreeIn(w, u, ms, t, d, argv[1]) && (argv[1] in w[d].dict ==> AgreeIn(w, u, ms, t, id, argv[1])))
    case BitOp =>
      BitOpOf(argv) == None || AnyRevived(ms[d], argv[3..]) || Sources(w[d], argv[3..]) == Sources(u[d], argv[3..])
    case Persist => AgreeIn(w, u, ms, t, d, argv[1])
    case _ => LooksUp(c, argv, now) ==> AgreeIn(w, u, ms, t, d, argv[1])
  }

  /** The lookups of the command have settled what its effect depends on. */
  ghost predicate Settles(v: World, ms: seq<Marks>, t: int, s: Lazy, d: nat, c: Command, argv: Argv, past: int,
                          now: int)
    requires d < |s.w| == |v| == |ms| && ArityOk(c, |argv|)
  {
    Along(v, ms, t, s, past) && Settled(s.w, Without(v, s.gone), ms, t, d, c, argv, now)
  }

  lemma RenameSettles(v: World, ms: seq<Marks>, t: int, s: Lazy, d: nat, c: Command, argv: Argv, past: int, now: int)
    requires past <= now && Along(v, ms, t, s, past) && d < |s.w| == |v| == |ms|
    requires ArityOk(c, |argv|) && c in {Rename, RenameNx}
    ensures Settles(v, ms, t, Looked(s, d, c, argv, now), d, c, argv, past, now)
  {
    hide Along, TouchBoth, Without, Agree;
    if argv[1] != argv[2] { TouchBothAlong(v, ms, t, s, d, argv[1], d, argv[2], past, now); }
  }

  lemma MoveSettles(v: World, ms: seq<Marks>, t: int, s: Lazy, d: nat, argv: Argv, past: int, now: int)
    requires past <= now && Along(v, ms, t, s, past) && d < |s.w| == |v| == |ms| && ArityOk(Move, |argv|)
    ensures Settles(v, ms, t, Looked(s, d, Move, argv, now), d, Move, argv, past, now)
  {
    hide Along, TouchBoth, Without, Agree, Atoi;
    var id := Atoi(argv[2]);
    if 0 <= id < |s.w| { TouchBothAlong(v, ms, t, s, d, argv[1], id, argv[1], past, now); }
  }

  lemma OneKeySettles(v: World, ms: seq<Marks>, t: int, s: Lazy, d: nat, c: Command, argv: Argv, past: int, now: int)
    requires past <= now && Along(v, ms, t, s, past) && d < |s.w| == |v| == |ms| && ArityOk(c, |argv|)
    requires c !in {Rename, RenameNx, Move, BitOp, Persist}
    ensures Settles(v, ms, t, Looked(s, d, c, argv, now), d, c, argv, past, now)
  {
    hide Along, Keyspace.Touch, Without, Agree, LooksUp;
    if LooksUp(c, argv, now) {
      NamesKey(c, argv, now);
      TouchAlong(v, ms, t, s, d, argv[1], past, now);
    }
  }

  lemma NamesKey(c: Command, argv: Argv, now: int)
    requires ArityOk(c, |argv|) && LooksUp(c, argv, now)
    ensures |argv| > 1
  {
    hide AsSet, Milliseconds, When, BitOffset, BitValue;
  }

  /** A command's lookups settle what its effect depends on, except for PERSIST, which looks nothing up. */
  lemma LookedSettles(w: World, v: World, ms: seq<Marks>, t: int, d: nat, c: Command, argv: Argv, past: int, now: int)
    requires past <= now && Behind(w, v, ms, t, past) && d < |w| && ArityOk(c, |argv|)
    requires c == Persist ==> AgreeIn(w, v, ms, t, d, argv[1])
    ensures Settles(v, ms, t, Looked(Lazy(w, []), d, c, argv, now), d, c, argv, past, now)
  {
    var s := Lazy(w, []);
    assert Along(v, ms, t, s, past) && Without(v, s.gone) == v;
    if c == BitOp {
      hide Along, TouchBitOp, Without, Sources, BitOpOf;
      TouchBitOpAlong(v, ms, t, s, d, argv, past, now);
    } else if c == Persist {
      assert Looked(s, d, c, argv, now) == s;
    } else {
      AlongSize(v, ms, t, s, past);
      hide *;
      if c == Rename || c == RenameNx { RenameSettles(v, ms, t, s, d, c, argv, past, now); }
      else if c == Move { MoveSettles(v, ms, t, s, d, argv, past, now); }
      else { OneKeySettles(v, ms, t, s, d, c, argv, past, now); }
    }
  }

  // ----- effects -----

  /** A SET with EX or PX. */
  predicate Relative(c: Command, argv: Argv)
    requires ArityOk(c, |argv|)
  {
    c == Command.Set && AsSet(c, argv).Some? && AsSet(c, argv).value.ttl.Some?
  }

  /** Neither now nor when the log is loaded does the sum of the clock and the time to live overflow. */
  predicate InTime(ttl: Option<Ttl>, now: int, t: int)
  {
    match Milliseconds(ttl)
    case Some(Some(ms)) => 0 <= now + ms <= INT64_MAX && 0 <= t + ms <= INT64_MAX
    case _ => true
  }

  /** The times of a database after a command that has counted as a change: RENAME takes the mark along, and a new
      expire time has a mark only if it was set by SET with EX or PX. */
  function TimesAfter(at: map<Bytestring, int>, c: Command, argv: Argv, now: int): map<Bytestring, int>
    requires ArityOk(c, |argv|)
  {
    match c
    case Set => if Relative(c, argv) then at[argv[1] := now] else at
    case SetEx | PSetEx | Expire | PExpire | ExpireAt | PExpireAt => at - {argv[1]}
    case Rename | RenameNx => if argv[1] in at then (at - {argv[1]})[argv[2] := at[argv[1]]] else at - {argv[2]}
    case _ => at
  }

  /** A SET whose success does not depend on whether the key is there. */
  predicate SetsAnyway(c: Command, argv: Argv)
    requires ArityOk(c, |argv|)
  {
    AsSet(c, argv).Some? && !AsSet(c, argv).value.nx && !AsSet(c, argv).value.xx
  }

  /** The revived keys after it: a PERSIST of a stale key, which the log may lack, adds one, and so does a command that
      depends on one; SET, DEL and the flushes settle them, and RENAME takes the mark along. */
  function RevivedAfter(r: set<Bytestring>, c: Command, argv: Argv, stale: bool): set<Bytestring>
    requires ArityOk(c, |argv|)
  {
    match c
    case Set | SetEx | PSetEx => if SetsAnyway(c, argv) then r - {argv[1]} else r
    case Del => r - (set k | k in argv[1..])
    case FlushDb => {}
    case Rename => if argv[1] in r then r - {argv[1]} + {argv[2]} else r - {argv[2]}
    case RenameNx => if argv[1] in r || argv[2] in r then r + {argv[1], argv[2]} else r
    case BitOp => if exists k :: k in argv[2..] && k in r then r + {argv[2]} else r
    case Persist => if stale then r + {argv[1]} else r
    case _ => r
  }

  function MarksAfter(m: Marks, c: Command, argv: Argv, now: int, stale: bool): Marks
    requires ArityOk(c, |argv|)
  {
    Marks(TimesAfter(m.at, c, argv, now), RevivedAfter(m.revived, c, argv, stale))
  }

  /** The clock by which the change is made again when the log is loaded. */
  function LoadClock(c: Command, argv: Argv, now: int, t: int): Clock
    requires ArityOk(c, |argv|)
  {
    if Relative(c, argv) then Clock(t, true) else Clock(now, false)
  }

  lemma SetNear(a: Db, b: Db, r: SetRequest, past: int, now: int, then': int, k: Bytestring, shift: int, before: int)
    requires Near(a, b, k, shift, past) && (Milliseconds(r.ttl).Some? ==> Agree(a, b, r.key, before))
    requires k == r.key ==> before == shift
    requires then' == now || InTime(r.ttl, now, then')
    ensures var (x, dirty) := SetGeneric(a, r, now); var (y, same) := SetGeneric(b, r, then');
      dirty == same && Near(x, y, k, if k == r.key && dirty && r.ttl.Some? then then' - now else shift, past)
  {
    hide GetLongLong;
  }

  lemma {:induction false} DeleteAllNear(a: Db, b: Db, keys: Argv, k: Bytestring, shift: int, past: int)
    requires Near(a, b, k, shift, past)
    ensures Near(DeleteAll(a, keys).0, DeleteAll(b, keys).0, k, shift, past)
    decreases |keys|
  {
    hide Near;
    if keys != [] {
      NearDelete(a, b, keys[0], k, shift, past);
      DeleteAllNear(DbDelete(a, keys[0]), DbDelete(b, keys[0]), keys[1..], k, shift, past);
    }
  }

  lemma RenameNear(a: Db, b: Db, from: Bytestring, to: Bytestring, nx: bool, past: int, k: Bytestring, shift: int,
                   sf: int, st: int)
    requires to in a.expires ==> to in a.dict
    requires Near(a, b, k, shift, past) && (k == from ==> sf == shift) && (k == to ==> st == shift)
    requires from == to || (Agree(a, b, from, sf) && (from in a.dict ==> Agree(a, b, to, st)))
    ensures var (x, dirty) := RenameGeneric(a, from, to, nx); var (y, same) := RenameGeneric(b, from, to, nx);
      dirty == same && (dirty ==> from != to)
      && Near(x, y, k, if !dirty then shift else if k == to then sf else if k == from then 0 else shift, past)
  {
  }

  lemma ExpireNear(a: Db, b: Db, c: Command, argv: Argv, past: int, now: int, k: Bytestring, shift: int, before: int)
    requires |argv| == 3 && Near(a, b, k, shift, past) && (When(c, argv[2], now).Some? ==> Agree(a, b, argv[1], before))
    requires k == argv[1] ==> before == shift
    ensures var x, y := ExpireGeneric(a, c, argv, Clock(now, false)), ExpireGeneric(b, c, argv, Clock(now, false));
      x.1 == y.1 && x.2 == y.2 && Near(x.0, y.0, k, if k == argv[1] && x.1 then 0 else shift, past)
  {
    hide When;
  }

  lemma BitOpNear(a: Db, b: Db, argv: Argv, k: Bytestring, shift: int, past: int)
    requires |argv| >= 4 && Near(a, b, k, shift, past)
    requires BitOpOf(argv) == None || Sources(a, argv[3..]) == Sources(b, argv[3..])
    ensures Near(BitOpKeys(a, argv).0, BitOpKeys(b, argv).0, k, shift, past)
  {
    hide BitOpOf, Sources, MaxLen, Result, FromBits;
  }

  lemma GrowNear(a: Db, b: Db, key: Bytestring, items: Argv, k: Bytestring, shift: int, before: int, past: int)
    requires Near(a, b, k, shift, past) && Agree(a, b, key, before) && (k == key ==> before == shift)
    ensures Near(PushTail(a, key, items).0, PushTail(b, key, items).0, k, shift, past)
    ensures Near(AddMembers(a, key, items).0, AddMembers(b, key, items).0, k, shift, past)
    ensures Near(SetHash(a, key, items).0, SetHash(b, key, items).0, k, shift, past)
  {
    hide SetFields, Members;
  }

  lemma SetBitNear(a: Db, b: Db, key: Bytestring, offset: nat, on: nat, k: Bytestring, shift: int, before: int,
                   past: int)
    requires Near(a, b, k, shift, past) && Agree(a, b, key, before) && (k == key ==> before == shift)
    ensures Near(SetBitAt(a, key, offset, on).0, SetBitAt(b, key, offset, on).0, k, shift, past)
  {
    hide WithBit;
  }

  lemma GetSetNear(a: Db, b: Db, key: Bytestring, val: Value, k: Bytestring, shift: int, before: int, past: int)
    requires Near(a, b, k, shift, past) && Agree(a, b, key, before) && (k == key ==> before == shift)
    ensures StringOf(a, key) == StringOf(b, key) && Near(SetKey(a, key, val), SetKey(b, key, val), k, shift, past)
  {
  }

  lemma OddPairs(db: Db, key: Bytestring, pairs: Argv)
    requires |pairs| % 2 == 1
    ensures SetHash(db, key, pairs) == (db, false)
  {
  }

  /** Commands that read and change the one key that they look up. */
  predicate OneKey(c: Command) { c in {GetSet, SetBit, RPush, SAdd, HMSet} }

  lemma OneKeyNear(a: Db, b: Db, c: Command, argv: Argv, past: int, clock: Clock, k: Bytestring, shift: int,
                   before: int)
    requires ArityOk(c, |argv|) && OneKey(c)
    requires Near(a, b, k, shift, past) && (LooksUp(c, argv, clock.now) ==> Agree(a, b, argv[1], before))
    requires k == argv[1] ==> before == shift
    ensures var x, y := InDb(a, c, argv, clock), InDb(b, c, argv, clock);
      Near(x.0, y.0, k, shift, past) && x.2 == y.2
  {
    hide Near, Agree, PushTail, AddMembers, SetHash, SetBitAt, SetKey, StringOf, BitOffset, BitValue, AsSet, When;
    match c
    case GetSet => GetSetNear(a, b, argv[1], Str(argv[2]), k, shift, before, past);
    case SetBit =>
      if BitOffset(argv[2]).Some? && BitValue(argv[3]).Some? {
        SetBitNear(a, b, argv[1], BitOffset(argv[2]).value, BitValue(argv[3]).value, k, shift, before, past);
      }
    case RPush | SAdd => GrowNear(a, b, argv[1], argv[2..], k, shift, before, past);
    case HMSet =>
      if |argv| % 2 == 0 { GrowNear(a, b, argv[1], argv[2..], k, shift, before, past); }
      else { OddPairs(a, argv[1], argv[2..]); OddPairs(b, argv[1], argv[2..]); }
  }

  lemma PersistNear(a: Db, b: Db, key: Bytestring, k: Bytestring, shift: int, before: int, past: int)
    requires Near(a, b, k, shift, past) && Agree(a, b, key, before) && (k == key ==> before == shift)
    ensures Near(PersistKey(a, key).0, PersistKey(b, key).0, k, shift, past)
  {
  }

  lemma EmptyNear(k: Bytestring, shift: int, past: int)
    ensures Near(EMPTY_DB, EMPTY_DB, k, shift, past)
  {
  }

  ghost predicate SettledDb(a: Db, b: Db, m: Marks, t: int, c: Command, argv: Argv, now: int)
    requires ArityOk(c, |argv|) && c != Move
  {
    Settled([a], [b], [m], t, 0, c, argv, now)
  }

  /** What the loading of a SET with EX or PX needs. */
  predicate NoOverflow(c: Command, argv: Argv, now: int, t: int)
    requires ArityOk(c, |argv|)
  {
    Relative(c, argv) ==> InTime(AsSet(c, argv).value.ttl, now, t)
  }

  function ShiftAfter(m: Marks, c: Command, argv: Argv, now: int, k: Bytestring, t: int): int
    requires ArityOk(c, |argv|)
  {
    Shift(Marks(TimesAfter(m.at, c, argv, now), {}), k, t)
  }

  /** Some key that the command's effect depends on is revived. */
  predicate Depends(m: Marks, c: Command, argv: Argv)
    requires ArityOk(c, |argv|)
  {
    match c
    case Rename | RenameNx => argv[1] in m.revived || argv[2] in m.revived
    case BitOp => AnyRevived(m, argv[2..])
    case Del | FlushDb | FlushAll => false
    case _ => |argv| > 1 && argv[1] in m.revived
  }

  /** The effect on one database and on one that lags, at one key. */
  ghost predicate NearAfter(x: (Db, bool, Argv), y: (Db, bool, Argv), m: Marks, t: int, c: Command, argv: Argv,
                            past: int, now: int, k: Bytestring)
    requires ArityOk(c, |argv|)
  {
    Near(x.0, y.0, k, if x.1 then ShiftAfter(m, c, argv, now, k, t) else Shift(m, k, t), past)
  }

  lemma SetsNear(a: Db, b: Db, m: Marks, t: int, c: Command, argv: Argv, past: int, now: int, k: Bytestring)
    requires ArityOk(c, |argv|) && !Depends(m, c, argv) && c in {Command.Set, SetNx, SetEx, PSetEx}
    requires NoOverflow(c, argv, now, t)
    requires Near(a, b, k, Shift(m, k, t), past) && SettledDb(a, b, m, t, c, argv, now)
    ensures NearAfter(InDb(a, c, argv, Clock(now, false)), InDb(b, c, argv, LoadClock(c, argv, now, t)), m, t, c, argv,
                      past, now, k)
  {
    hide Near, Agree, AsSet, SetGeneric, Milliseconds, InTime;
    if AsSet(c, argv).Some? {
      var r := AsSet(c, argv).value;
      RequestKey(c, argv);
      SetNxPlain(c, argv);
      SetNear(a, b, r, past, now, LoadClock(c, argv, now, t).now, k, Shift(m, k, t), Shift(m, r.key, t));
    }
  }

  lemma SetNxPlain(c: Command, argv: Argv)
    requires ArityOk(c, |argv|) && AsSet(c, argv).Some?
    ensures c == SetNx ==> AsSet(c, argv).value.ttl == None
    ensures c in {SetEx, PSetEx} ==> AsSet(c, argv).value.ttl.Some?
  {
  }

  lemma RenamesNear(a: Db, b: Db, m: Marks, t: int, c: Command, argv: Argv, past: int, now: int, k: Bytestring)
    requires ArityOk(c, |argv|) && !Depends(m, c, argv) && c in {Rename, RenameNx}
    requires DbOk(a) && Near(a, b, k, Shift(m, k, t), past) && SettledDb(a, b, m, t, c, argv, now)
    ensures NearAfter(InDb(a, c, argv, Clock(now, false)), InDb(b, c, argv, Clock(now, false)), m, t, c, argv, past,
                      now, k)
  {
    hide Near, Agree, RenameGeneric, NotEmpty;
    var from, to := argv[1], argv[2];
    RenameNear(a, b, from, to, c == RenameNx, past, k, Shift(m, k, t), Shift(m, from, t), Shift(m, to, t));
  }

  lemma KeysNear(a: Db, b: Db, m: Marks, t: int, c: Command, argv: Argv, past: int, now: int, k: Bytestring)
    requires ArityOk(c, |argv|) && !Depends(m, c, argv) && c in {Del, Persist, FlushDb}
    requires Near(a, b, k, Shift(m, k, t), past) && SettledDb(a, b, m, t, c, argv, now)
    ensures NearAfter(InDb(a, c, argv, Clock(now, false)), InDb(b, c, argv, Clock(now, false)), m, t, c, argv, past,
                      now, k)
  {
    hide Near, Agree, DeleteAll, PersistKey;
    var shift := Shift(m, k, t);
    match c
    case Del => DeleteAllNear(a, b, argv[1..], k, shift, past);
    case Persist => PersistNear(a, b, argv[1], k, shift, Shift(m, argv[1], t), past);
    case FlushDb => EmptyNear(k, shift, past);
  }

  lemma ExpiresNear(a: Db, b: Db, m: Marks, t: int, c: Command, argv: Argv, past: int, now: int, k: Bytestring)
    requires ArityOk(c, |argv|) && !Depends(m, c, argv) && c in {Expire, PExpire, ExpireAt, PExpireAt}
    requires Near(a, b, k, Shift(m, k, t), past) && SettledDb(a, b, m, t, c, argv, now)
    ensures NearAfter(InDb(a, c, argv, Clock(now, false)), InDb(b, c, argv, Clock(now, false)), m, t, c, argv, past,
                      now, k)
  {
    hide Near, Agree, ExpireGeneric, When;
    ExpireNear(a, b, c, argv, past, now, k, Shift(m, k, t), Shift(m, argv[1], t));
  }

  lemma OthersNear(a: Db, b: Db, m: Marks, t: int, c: Command, argv: Argv, past: int, now: int, k: Bytestring)
    requires ArityOk(c, |argv|) && !Depends(m, c, argv)
    requires c in {BitOp, Get, Exists, Type, GetBit, FlushAll, Select, Multi, Exec}
    requires Near(a, b, k, Shift(m, k, t), past) && SettledDb(a, b, m, t, c, argv, now)
    ensures NearAfter(InDb(a, c, argv, Clock(now, false)), InDb(b, c, argv, Clock(now, false)), m, t, c, argv, past,
                      now, k)
  {
    hide Near, Agree, BitOpKeys, Sources, BitOpOf;
    if c == BitOp { BitOpNear(a, b, argv, k, Shift(m, k, t), past); }
  }

  lemma OneKeysNear(a: Db, b: Db, m: Marks, t: int, c: Command, argv: Argv, past: int, now: int, k: Bytestring)
    requires ArityOk(c, |argv|) && !Depends(m, c, argv) && OneKey(c)
    requires Near(a, b, k, Shift(m, k, t), past) && SettledDb(a, b, m, t, c, argv, now)
    ensures NearAfter(InDb(a, c, argv, Clock(now, false)), InDb(b, c, argv, Clock(now, false)), m, t, c, argv, past,
                      now, k)
  {
    hide Near, Agree, InDb, LooksUp;
    OneKeyNear(a, b, c, argv, past, Clock(now, false), k, Shift(m, k, t), Shift(m, argv[1], t));
  }

  lemma LoadsAlike(c: Command, argv: Argv, now: int, t: int)
    requires ArityOk(c, |argv|) && c != Command.Set
    ensures LoadClock(c, argv, now, t) == Clock(now, false)
  {
    hide AsSet;
  }

  lemma InDbNear(a: Db, b: Db, m: Marks, t: int, c: Command, argv: Argv, past: int, now: int, k: Bytestring)
    requires ArityOk(c, |argv|) && !Depends(m, c, argv) && c != Move && DbOk(a) && NoOverflow(c, argv, now, t)
    requires Near(a, b, k, Shift(m, k, t), past) && SettledDb(a, b, m, t, c, argv, now)
    ensures NearAfter(InDb(a, c, argv, Clock(now, false)), InDb(b, c, argv, LoadClock(c, argv, now, t)), m, t, c, argv,
                      past, now, k)
  {
    hide Near, InDb, SettledDb, NearAfter, NoOverflow, DbOk, LoadClock, Shift;
    if c != Command.Set { LoadsAlike(c, argv, now, t); }
    match c
    case Set | SetNx | SetEx | PSetEx => SetsNear(a, b, m, t, c, argv, past, now, k);
    case Rename | RenameNx => RenamesNear(a, b, m, t, c, argv, past, now, k);
    case Del | Persist | FlushDb => KeysNear(a, b, m, t, c, argv, past, now, k);
    case Expire | PExpire | ExpireAt | PExpireAt => ExpiresNear(a, b, m, t, c, argv, past, now, k);
    case GetSet | SetBit | RPush | SAdd | HMSet => OneKeysNear(a, b, m, t, c, argv, past, now, k);
    case _ => OthersNear(a, b, m, t, c, argv, past, now, k);
  }

  // ----- commands that depend on revived keys -----

  /** The key is the same in both databases. */
  predicate SameAt(a: Db, b: Db, k: Bytestring)
  {
    && (k in a.dict <==> k in b.dict) && (k in a.dict ==> a.dict[k] == b.dict[k])
    && (k in a.expires <==> k in b.expires) && (k in a.expires ==> a.expires[k] == b.expires[k])
  }

  /** The keys that a command may change; not of DEL and the flushes. */
  predicate MayChange(c: Command, argv: Argv, k: Bytestring)
    requires ArityOk(c, |argv|)
  {
    match c
    case Rename | RenameNx => k == argv[1] || k == argv[2]
    case BitOp => k == argv[2]
    case _ => |argv| > 1 && k == argv[1]
  }

  lemma SetElsewhere(db: Db, r: SetRequest, now: int, k: Bytestring)
    ensures k != r.key ==> SameAt(db, SetGeneric(db, r, now).0, k)
    ensures Loose(db, k) ==> Loose(SetGeneric(db, r, now).0, k)
  {
    hide GetLongLong, Wrap;
  }

  lemma GrowElsewhere(db: Db, key: Bytestring, items: Argv, k: Bytestring)
    ensures k != key ==> SameAt(db, PushTail(db, key, items).0, k)
    ensures k != key ==> SameAt(db, AddMembers(db, key, items).0, k)
    ensures k != key ==> SameAt(db, SetHash(db, key, items).0, k)
    ensures Loose(db, k) ==> Loose(PushTail(db, key, items).0, k) && Loose(AddMembers(db, key, items).0, k)
    ensures Loose(db, k) ==> Loose(SetHash(db, key, items).0, k)
  {
    hide SetFields, Members;
  }

  lemma StringElsewhere(db: Db, c: Command, argv: Argv, clock: Clock, k: Bytestring)
    requires ArityOk(c, |argv|) && c in {GetSet, SetBit, BitOp}
    ensures !MayChange(c, argv, k) ==> SameAt(db, InDb(db, c, argv, clock).0, k)
    ensures Loose(db, k) ==> Loose(InDb(db, c, argv, clock).0, k)
  {
    hide StringOf, BitOffset, BitValue, BitOpOf, Sources, MaxLen, Result, FromBits, WithBit;
  }

  lemma KeysElsewhere(db: Db, c: Command, argv: Argv, clock: Clock, k: Bytestring)
    requires ArityOk(c, |argv|) && c in {Expire, PExpire, ExpireAt, PExpireAt, Persist}
    ensures !MayChange(c, argv, k) ==> SameAt(db, InDb(db, c, argv, clock).0, k)
    ensures Loose(db, k) ==> Loose(InDb(db, c, argv, clock).0, k)
  {
    hide When;
  }

  lemma RenameElsewhere(db: Db, from: Bytestring, to: Bytestring, nx: bool, k: Bytestring)
    ensures k != from && k != to ==> SameAt(db, RenameGeneric(db, from, to, nx).0, k)
    ensures Loose(db, k) ==> Loose(RenameGeneric(db, from, to, nx).0, k)
  {
  }

  /** A command changes the keys it names, and gives only existing keys an expire time. */
  lemma ChangesNamed(db: Db, c: Command, argv: Argv, clock: Clock, k: Bytestring)
    requires ArityOk(c, |argv|) && c !in {Del, FlushDb, FlushAll, Move}
    ensures !MayChange(c, argv, k) ==> SameAt(db, InDb(db, c, argv, clock).0, k)
    ensures Loose(db, k) ==> Loose(InDb(db, c, argv, clock).0, k)
  {
    hide SameAt, Loose, SetGeneric, AsSet, StringOf, BitOffset, BitValue, BitOpKeys, PushTail, AddMembers, SetHash;
    hide RenameGeneric, ExpireGeneric, PersistKey, SetBitAt, SetKey;
    if c in {Command.Set, SetNx, SetEx, PSetEx} {
      if AsSet(c, argv).Some? {
        RequestKey(c, argv);
        SetElsewhere(db, AsSet(c, argv).value, clock.now, k);
      } else {
        SameSelf(db, k);
      }
    } else if c in {RPush, SAdd, HMSet} {
      GrowElsewhere(db, argv[1], argv[2..], k);
    } else if c in {GetSet, SetBit, BitOp} {
      StringElsewhere(db, c, argv, clock, k);
    } else if c in {Rename, RenameNx} {
      RenameElsewhere(db, argv[1], argv[2], c == RenameNx, k);
    } else if c in {Expire, PExpire, ExpireAt, PExpireAt, Persist} {
      KeysElsewhere(db, c, argv, clock, k);
    } else {
      SameSelf(db, k);
    }
  }

  lemma SameSelf(db: Db, k: Bytestring)
    ensures SameAt(db, db, k)
  {
  }

  lemma NearElsewhere(a: Db, b: Db, x: Db, y: Db, k: Bytestring, shift: int, past: int)
    requires Near(a, b, k, shift, past) && SameAt(a, x, k) && SameAt(b, y, k)
    ensures Near(x, y, k, shift, past)
  {
  }

  lemma NearLoose(a: Db, b: Db, m: Marks, k: Bytestring, t: int, past: int)
    requires DbOk(a) && Like(a, b, m, k, t, past)
    ensures Loose(b, k)
  {
  }

  /** The marks of a key that the command does not name stay. */
  lemma ShiftElsewhere(m: Marks, c: Command, argv: Argv, now: int, stale: bool, k: Bytestring, t: int)
    requires ArityOk(c, |argv|) && c !in {Del, FlushDb, FlushAll, Move} && !MayChange(c, argv, k)
    ensures Shift(MarksAfter(m, c, argv, now, stale), k, t) == Shift(m, k, t)
    ensures k in MarksAfter(m, c, argv, now, stale).revived <==> k in m.revived
  {
    hide AsSet;
  }

  /** A SET that succeeds anyway leaves its key alike in both. */
  lemma SetSettles(a: Db, b: Db, r: SetRequest, past: int, now: int, then': int, t: int)
    requires !r.nx && !r.xx && SetGeneric(a, r, now).1
    requires if r.ttl.Some? then then' == now || InTime(r.ttl, now, then') else true
    ensures Near(SetGeneric(a, r, now).0, SetGeneric(b, r, then').0, r.key,
                 if r.ttl.Some? then then' - now else t, past)
  {
    hide GetLongLong;
  }

  lemma SetsSettle(a: Db, b: Db, m: Marks, t: int, c: Command, argv: Argv, past: int, now: int, stale: bool)
    requires ArityOk(c, |argv|) && c in {Command.Set, SetEx, PSetEx} && NoOverflow(c, argv, now, t)
    requires SetsAnyway(c, argv) && InDb(a, c, argv, Clock(now, false)).1
    ensures Near(InDb(a, c, argv, Clock(now, false)).0, InDb(b, c, argv, LoadClock(c, argv, now, t)).0, argv[1],
                 Shift(MarksAfter(m, c, argv, now, stale), argv[1], t), past)
  {
    hide Near, AsSet, SetGeneric, Milliseconds, InTime;
    var r := AsSet(c, argv).value;
    RequestKey(c, argv);
    SetNxPlain(c, argv);
    SetSettles(a, b, r, past, now, LoadClock(c, argv, now, t).now, Shift(m, argv[1], t));
  }

  /** RENAME takes a revived key along, or covers one. */
  lemma RenameSettlesKeys(a: Db, b: Db, from: Bytestring, to: Bytestring, past: int, k: Bytestring, sf: int,
                          gone: bool)
    requires DbOk(a) && Loose(b, from) && Loose(b, to) && RenameGeneric(a, from, to, false).1
    requires if gone then k == from else Agree(a, b, from, sf) && (k == from || k == to)
    ensures Near(RenameGeneric(a, from, to, false).0, RenameGeneric(b, from, to, false).0, k,
                 if k == to then sf else 0, past)
  {
  }

  lemma RenameDepends(a: Db, b: Db, m: Marks, t: int, argv: Argv, past: int, now: int, stale: bool, k: Bytestring)
    requires |argv| == 3 && DbOk(a) && Loose(b, argv[1]) && Loose(b, argv[2]) && Depends(m, Rename, argv)
    requires SettledDb(a, b, m, t, Rename, argv, now) && InDb(a, Rename, argv, Clock(now, false)).1
    requires MayChange(Rename, argv, k) && k !in MarksAfter(m, Rename, argv, now, stale).revived
    ensures Near(InDb(a, Rename, argv, Clock(now, false)).0, InDb(b, Rename, argv, Clock(now, false)).0, k,
                 Shift(MarksAfter(m, Rename, argv, now, stale), k, t), past)
  {
    hide Near, Agree, RenameGeneric, DbOk, Loose;
    var from, to := argv[1], argv[2];
    assert from != to by { RenamedApart(a, from, to); }
    RenameSettlesKeys(a, b, from, to, past, k, Shift(m, from, t), from in m.revived);
  }

  lemma RenamedApart(a: Db, from: Bytestring, to: Bytestring)
    requires RenameGeneric(a, from, to, false).1
    ensures from != to
  {
  }

  /** One key after a change that depends on a revived one, or is a PERSIST of a stale one. */
  lemma DependsLike(a: Db, b: Db, m: Marks, t: int, c: Command, argv: Argv, past: int, now: int, stale: bool,
                    k: Bytestring)
    requires ArityOk(c, |argv|) && c !in {Del, FlushDb, FlushAll, Move} && DbOk(a) && NoOverflow(c, argv, now, t)
    requires BehindDb(a, b, m, t, past) && InDb(a, c, argv, Clock(now, false)).1
    requires (Depends(m, c, argv) && SettledDb(a, b, m, t, c, argv, now)) || (c == Persist && stale)
    ensures Like(InDb(a, c, argv, Clock(now, false)).0, InDb(b, c, argv, LoadClock(c, argv, now, t)).0,
                 MarksAfter(m, c, argv, now, stale), k, t, past)
  {
    hide InDb, Near, Agree, DbOk, LoadClock, Shift, NoOverflow, Loose, SameAt, AsSet, TimesAfter;
    var clock, load := Clock(now, false), LoadClock(c, argv, now, t);
    var x, y, n := InDb(a, c, argv, clock).0, InDb(b, c, argv, load).0, MarksAfter(m, c, argv, now, stale);
    assert Like(a, b, m, k, t, past);
    NearLoose(a, b, m, k, t, past);
    ChangesNamed(a, c, argv, clock, k);
    ChangesNamed(b, c, argv, load, k);
    if k !in n.revived {
      if !MayChange(c, argv, k) {
        ShiftElsewhere(m, c, argv, now, stale, k, t);
        NearElsewhere(a, b, x, y, k, Shift(m, k, t), past);
      } else if c == Rename {
        LoadsAlike(c, argv, now, t);
        assert Like(a, b, m, argv[1], t, past) && Like(a, b, m, argv[2], t, past);
        NearLoose(a, b, m, argv[1], t, past);
        NearLoose(a, b, m, argv[2], t, past);
        RenameDepends(a, b, m, t, argv, past, now, stale, k);
      } else {
        SetsSettle(a, b, m, t, c, argv, past, now, stale);
      }
    }
  }

  /** One key after a change that depends on none. */
  lemma IndependentLike(a: Db, b: Db, m: Marks, t: int, c: Command, argv: Argv, past: int, now: int, k: Bytestring)
    requires ArityOk(c, |argv|) && c !in {Del, FlushDb, FlushAll, Move} && DbOk(a) && NoOverflow(c, argv, now, t)
    requires BehindDb(a, b, m, t, past) && SettledDb(a, b, m, t, c, argv, now) && InDb(a, c, argv, Clock(now, false)).1
    requires !Depends(m, c, argv)
    ensures Like(InDb(a, c, argv, Clock(now, false)).0, InDb(b, c, argv, LoadClock(c, argv, now, t)).0,
                 MarksAfter(m, c, argv, now, false), k, t, past)
  {
    hide InDb, Near, Agree, DbOk, LoadClock, NoOverflow, Loose, SameAt, AsSet, TimesAfter, SettledDb;
    var load := LoadClock(c, argv, now, t);
    assert Like(a, b, m, k, t, past);
    NearLoose(a, b, m, k, t, past);
    ChangesNamed(b, c, argv, load, k);
    assert MarksAfter(m, c, argv, now, false).revived == m.revived;
    if k !in m.revived { InDbNear(a, b, m, t, c, argv, past, now, k); }
  }

  lemma {:induction false} DeletedAt(db: Db, keys: Argv, k: Bytestring)
    ensures var x := DeleteAll(db, keys).0; if k in keys then k !in x.dict && k !in x.expires else SameAt(db, x, k)
    decreases |keys|
  {
    if keys != [] { DeletedAt(DbDelete(db, keys[0]), keys[1..], k); }
  }

  lemma NowhereNear(x: Db, y: Db, k: Bytestring, shift: int, past: int)
    requires k !in x.dict && k !in x.expires && k !in y.dict && k !in y.expires
    ensures Near(x, y, k, shift, past)
  {
  }

  lemma DelLike(a: Db, b: Db, m: Marks, t: int, argv: Argv, past: int, now: int, stale: bool, k: Bytestring)
    requires |argv| >= 2 && Like(a, b, m, k, t, past)
    ensures Like(DeleteAll(a, argv[1..]).0, DeleteAll(b, argv[1..]).0, MarksAfter(m, Del, argv, now, stale), k, t, past)
  {
    hide Near, DeleteAll;
    DeletedAt(a, argv[1..], k);
    DeletedAt(b, argv[1..], k);
    var x, y := DeleteAll(a, argv[1..]).0, DeleteAll(b, argv[1..]).0;
    if k in argv[1..] {
      NowhereNear(x, y, k, Shift(m, k, t), past);
    } else if k !in m.revived {
      NearElsewhere(a, b, x, y, k, Shift(m, k, t), past);
    }
  }

  /** A change to one database, and to one that lags: they go on differing in nothing else. */
  lemma InDbBehind(a: Db, b: Db, m: Marks, t: int, c: Command, argv: Argv, past: int, now: int, stale: bool)
    requires BehindDb(a, b, m, t, past) && ArityOk(c, |argv|) && c !in {Move, FlushAll} && DbOk(a)
    requires NoOverflow(c, argv, now, t) && InDb(a, c, argv, Clock(now, false)).1
    requires if stale then c == Persist else SettledDb(a, b, m, t, c, argv, now)
    ensures var x, y := InDb(a, c, argv, Clock(now, false)), InDb(b, c, argv, LoadClock(c, argv, now, t));
      BehindDb(x.0, y.0, MarksAfter(m, c, argv, now, stale), t, past)
  {
    hide InDb, Like, SettledDb, MarksAfter, LoadClock, DbOk, NoOverflow, Depends;
    var x, y := InDb(a, c, argv, Clock(now, false)).0, InDb(b, c, argv, LoadClock(c, argv, now, t)).0;
    forall k ensures Like(x, y, MarksAfter(m, c, argv, now, stale), k, t, past) {
      assert Like(a, b, m, k, t, past);
      if c == Del || c == FlushDb {
        ClearsLike(a, b, m, t, c, argv, past, now, stale, k);
      } else if Depends(m, c, argv) || stale {
        DependsLike(a, b, m, t, c, argv, past, now, stale, k);
      } else {
        IndependentLike(a, b, m, t, c, argv, past, now, k);
      }
    }
  }

  lemma ClearsLike(a: Db, b: Db, m: Marks, t: int, c: Command, argv: Argv, past: int, now: int, stale: bool,
                   k: Bytestring)
    requires ArityOk(c, |argv|) && c in {Del, FlushDb} && Like(a, b, m, k, t, past)
    ensures var x, y := InDb(a, c, argv, Clock(now, false)), InDb(b, c, argv, LoadClock(c, argv, now, t));
      Like(x.0, y.0, MarksAfter(m, c, argv, now, stale), k, t, past)
  {
    LoadsAlike(c, argv, now, t);
    if c == Del {
      DelLike(a, b, m, t, argv, past, now, stale, k);
    } else {
      EmptyNear(k, Shift(m, k, t), past);
    }
    hide DeleteAll, Near, LoadClock;
  }

  lemma SettledIn(w: World, u: World, ms: seq<Marks>, t: int, d: nat, c: Command, argv: Argv, now: int)
    requires d < |w| == |u| == |ms| && ArityOk(c, |argv|) && c != Move && Settled(w, u, ms, t, d, c, argv, now)
    ensures SettledDb(w[d], u[d], ms[d], t, c, argv, now)
  {
    hide Agree, LooksUp, Sources, BitOpOf;
  }

  lemma MoveNear(w: World, u: World, ms: seq<Marks>, t: int, d: nat, key: Bytestring, id: int, past: int)
    requires Behind(w, u, ms, t, past) && d < |w| && WorldOk(w) && 0 <= id < |w| && id != d
    requires key !in ms[d].revived && key !in ms[id].revived
    requires AgreeIn(w, u, ms, t, d, key) && (key in w[d].dict ==> AgreeIn(w, u, ms, t, id, key))
    ensures Behind(MoveKey(w, d, key, id).0, MoveKey(u, d, key, id).0, ms, t, past)
  {
    if key in w[d].dict && key !in w[id].dict {
      var a, b := Overwrite(w[id], key, w[d].dict[key]), Overwrite(u[id], key, u[d].dict[key]);
      assert BehindDb(a, b, ms[id], t, past) by {
        assert BehindDb(w[id], u[id], ms[id], t, past);
        forall k ensures Like(a, b, ms[id], k, t, past) { assert Like(w[id], u[id], ms[id], k, t, past); }
      }
      BehindSet(w, u, ms, t, past, id, a, b, ms[id]);
      assert ms[id := ms[id]] == ms;
      BehindDelete(w[id := a], u[id := b], ms, t, past, d, key);
    }
  }

  function Revive(m: Marks, key: Bytestring): Marks { m.(revived := m.revived + {key}) }

  /** A database in which only this key has changed, and which is revived. */
  lemma ReviveDb(a: Db, b: Db, x: Db, y: Db, m: Marks, t: int, past: int, key: Bytestring)
    requires BehindDb(a, b, m, t, past) && Loose(y, key)
    requires forall k :: k != key ==> SameAt(a, x, k) && SameAt(b, y, k)
    ensures BehindDb(x, y, Revive(m, key), t, past)
  {
    hide SameAt, Near;
    forall k ensures Like(x, y, Revive(m, key), k, t, past) {
      assert Like(a, b, m, k, t, past);
      if k != key {
        if k in m.revived { LooseElsewhere(b, y, k); } else { NearElsewhere(a, b, x, y, k, Shift(m, k, t), past); }
      }
    }
  }

  lemma LooseElsewhere(b: Db, y: Db, k: Bytestring)
    requires Loose(b, k) && SameAt(b, y, k)
    ensures Loose(y, k)
  {
  }

  /** A MOVE of a revived key, or onto one. */
  lemma MoveDepends(w: World, u: World, ms: seq<Marks>, t: int, d: nat, key: Bytestring, id: int, past: int)
    requires Behind(w, u, ms, t, past) && d < |w| && WorldOk(w) && MoveKey(w, d, key, id).1
    ensures 0 <= id < |ms| && Behind(MoveKey(w, d, key, id).0, MoveKey(u, d, key, id).0,
                                     ms[d := Revive(ms[d], key)][id := Revive(ms[id], key)], t, past)
  {
    var x, y := MoveKey(w, d, key, id).0, MoveKey(u, d, key, id).0;
    forall e | e == d || e == id ensures BehindDb(x[e], y[e], Revive(ms[e], key), t, past) {
      BehindAt(w, u, ms, t, past, e);
      assert Like(w[e], u[e], ms[e], key, t, past) && DbOk(w[e]);
      NearLoose(w[e], u[e], ms[e], key, t, past);
      ReviveDb(w[e], u[e], x[e], y[e], ms[e], t, past, key);
    }
    hide BehindDb, Revive;
  }

  lemma EmptyBehind(ms: seq<Marks>, t: int, past: int)
    ensures Behind(EmptyWorld(|ms|), EmptyWorld(|ms|), ms, t, past)
  {
    forall d | 0 <= d < |ms| ensures BehindDb(EMPTY_DB, EMPTY_DB, ms[d], t, past) {
      forall k ensures Like(EMPTY_DB, EMPTY_DB, ms[d], k, t, past) { }
    }
  }

  /** The marks after the effect of a command that has counted as a change. */
  function MarksAfterEffect(ms: seq<Marks>, d: nat, c: Command, argv: Argv, now: int, stale: bool): (r: seq<Marks>)
    requires d < |ms| && ArityOk(c, |argv|)
    ensures |r| == |ms|
  {
    match c
    case FlushAll => seq(|ms|, i requires 0 <= i < |ms| => ms[i].(revived := {}))
    case Move =>
      var id, key := Atoi(argv[2]), argv[1];
      if 0 <= id < |ms| && (key in ms[d].revived || key in ms[id].revived) then
        ms[d := Revive(ms[d], key)][id := Revive(ms[id], key)]
      else ms
    case _ => ms[d := MarksAfter(ms[d], c, argv, now, stale)]
  }

  /** What a command changes in the databases it also changes in those that lag, once its lookups have settled what it
      depends on: they go on differing in nothing else. */
  lemma EffectBehind(w: World, u: World, ms: seq<Marks>, t: int, d: nat, c: Command, argv: Argv, past: int, now: int,
                     stale: bool)
    requires WorldOk(w) && Behind(w, u, ms, t, past) && d < |w| && ArityOk(c, |argv|) && NoOverflow(c, argv, now, t)
    requires if stale then c == Persist else Settled(w, u, ms, t, d, c, argv, now)
    requires Effect(w, d, c, argv, Clock(now, false)).dirty
    ensures var o, p := Effect(w, d, c, argv, Clock(now, false)), Effect(u, d, c, argv, LoadClock(c, argv, now, t));
      Behind(o.w, p.w, MarksAfterEffect(ms, d, c, argv, now, stale), t, past)
  {
    hide InDb, MoveKey, BehindDb, Agree, LooksUp, Sources, BitOpOf, Atoi, SettledDb, DbOk, LoadClock, NoOverflow, AsSet;
    assert DbOk(w[d]);
    if c == FlushAll {
      EmptyBehind(MarksAfterEffect(ms, d, c, argv, now, stale), t, past);
    } else if c == Move {
      MoveBehind(w, u, ms, t, d, argv, past, now, stale);
    } else {
      if !stale { SettledIn(w, u, ms, t, d, c, argv, now); }
      hide Settled, MarksAfter, WorldOk;
      BehindAt(w, u, ms, t, past, d);
      InDbBehind(w[d], u[d], ms[d], t, c, argv, past, now, stale);
      var x, y := InDb(w[d], c, argv, Clock(now, false)), InDb(u[d], c, argv, LoadClock(c, argv, now, t));
      BehindSet(w, u, ms, t, past, d, x.0, y.0, MarksAfter(ms[d], c, argv, now, stale));
    }
  }

  lemma MoveBehind(w: World, u: World, ms: seq<Marks>, t: int, d: nat, argv: Argv, past: int, now: int, stale: bool)
    requires WorldOk(w) && Behind(w, u, ms, t, past) && d < |w| && ArityOk(Move, |argv|)
    requires Settled(w, u, ms, t, d, Move, argv, now) && MoveKey(w, d, argv[1], Atoi(argv[2])).1
    ensures var id := Atoi(argv[2]);
      Behind(MoveKey(w, d, argv[1], id).0, MoveKey(u, d, argv[1], id).0,
             MarksAfterEffect(ms, d, Move, argv, now, stale), t, past)
  {
    hide Behind, Atoi, Revive, WorldOk;
    var id, key := Atoi(argv[2]), argv[1];
    SameWidth(w, u, ms, t, past);
    MoveDepends(w, u, ms, t, d, key, id, past);
    if key !in ms[d].revived && key !in ms[id].revived { MoveNear(w, u, ms, t, d, key, id, past); }
  }

  // ----- one call -----

  lemma {:induction false} DeletionsApply(v: World, multi: bool, gone: seq<Target>, t: int)
    requires |v| > 0 && forall x :: x in gone ==> x.db < |v|
    ensures Apply(v, multi, Deletions(gone), t) == Some(Fake(Without(v, gone), 0, multi))
    decreases |gone|
  {
    hide RunAll;
    if gone != [] {
      var front, x := gone[..|gone| - 1], gone[|gone| - 1];
      assert gone == front + [x];
      var u, record := Without(v, front), Record(x.db, [[DEL, x.key]]);
      DeletionsApply(v, multi, front, t);
      DeletionsSnoc(front, x);
      ApplyAppend(v, multi, Deletions(front), [record], t);
      DeleteRuns(u, x.db, multi, x.key, t);
      assert |[record][1..]| == 0;
    }
  }

  lemma RelativeIs(argv: Argv)
    requires Runnable(argv)
    ensures RelativeSet(argv) <==> Relative(Lookup(argv[0]).value, argv)
    ensures RelativeSet(argv) ==> Lookup(argv[0]).value == Command.Set
  {
    hide Lookup, AsSet;
  }

  lemma SetFedAsIs(w: World, d: nat, multi: bool, argv: Argv, now: int, t: int)
    requires d < |w| && Runnable(argv) && Lookup(argv[0]).value == Command.Set
    ensures Translate(argv, now) == [argv]
    ensures RunAll(Fake(w, d, multi), [argv], t)
         == Some(Fake(Effect(w, d, Command.Set, argv, Clock(t, true)).w, d, multi))
  {
    hide Lookup, RunOne, Effect;
    RunSingle(Fake(w, d, multi), argv, t);
    PlainRuns(w, d, multi, argv, t);
  }

  lemma ExpireOfNone(u: World, d: nat, c: Command, argv: Argv, clock: Clock)
    requires d < |u| && ArityOk(c, |argv|) && c in {Expire, PExpire, ExpireAt, PExpireAt} && argv[1] !in u[d].dict
    ensures Effect(u, d, c, argv, clock).w == u
  {
    hide When;
    assert u[d := u[d]] == u;
  }

  /** A deletion that is fed, where the key is missing. */
  lemma DelFedToNone(u: World, d: nat, multi: bool, key: Bytestring, now: int, t: int)
    requires d < |u| && key !in u[d].dict && key !in u[d].expires
    ensures Runnable([DEL, key]) && RunAll(Fake(u, d, multi), Translate([DEL, key], now), t) == Some(Fake(u, d, multi))
  {
    Names();
    hide Lookup, RunAll;
    assert Translate([DEL, key], now) == [[DEL, key]];
    DeleteRuns(u, d, multi, key, t);
    assert DbDelete(u[d], key) == u[d] && u[d := u[d]] == u;
  }

  function AsPExpireAt(c: Command, argv: Argv, now: int): Argv
    requires |argv| == 3
  {
    if c == PExpireAt then argv else [PEXPIREAT, argv[1], Print(FedWhen(c, argv[2], now))]
  }

  lemma ExpireTranslated(argv: Argv, now: int)
    requires Runnable(argv) && Lookup(argv[0]).value in {Expire, PExpire, ExpireAt, PExpireAt}
    ensures var c := Lookup(argv[0]).value; var cmd := AsPExpireAt(c, argv, now);
      && Translate(argv, now) == [cmd] && Runnable(cmd) && Lookup(cmd[0]).value == PExpireAt && cmd[1] == argv[1]
  {
    Names();
    hide Lookup, FedWhen, Print;
  }

  /** An expire time that is fed, where the key is missing. */
  lemma ExpireFedToNone(u: World, d: nat, multi: bool, argv: Argv, now: int, t: int)
    requires d < |u| && Runnable(argv) && Lookup(argv[0]).value in {Expire, PExpire, ExpireAt, PExpireAt}
    requires argv[1] !in u[d].dict
    ensures RunAll(Fake(u, d, multi), Translate(argv, now), t) == Some(Fake(u, d, multi))
  {
    var f, cmd := Fake(u, d, multi), AsPExpireAt(Lookup(argv[0]).value, argv, now);
    ExpireTranslated(argv, now);
    hide Lookup, RunOne, RunAll, Effect, Translate, AsPExpireAt;
    RunSingle(f, cmd, t);
    PlainRuns(u, d, multi, cmd, t);
    ExpireOfNone(u, d, PExpireAt, cmd, Clock(t, true));
  }

  lemma ExpireIsFed(w: World, d: nat, argv: Argv, now: int)
    requires d < |w| && Runnable(argv) && Lookup(argv[0]).value in {Expire, PExpire, ExpireAt, PExpireAt}
    requires When(Lookup(argv[0]).value, argv[2], now).Some? && argv[1] in w[d].dict
    ensures var o := Effect(w, d, Lookup(argv[0]).value, argv, Clock(now, false));
      o.dirty && o.argv == if When(Lookup(argv[0]).value, argv[2], now).value <= now then [DEL, argv[1]] else argv
  {
    hide When, Lookup;
  }

  lemma ExpireNeedsKey(w: World, d: nat, argv: Argv, now: int)
    requires d < |w| && Runnable(argv) && Lookup(argv[0]).value in {Expire, PExpire, ExpireAt, PExpireAt}
    requires Effect(w, d, Lookup(argv[0]).value, argv, Clock(now, false)).dirty
    ensures When(Lookup(argv[0]).value, argv[2], now).Some? && argv[1] in w[d].dict
  {
    hide When, Lookup;
  }

  /** What is fed of a change of an expire time makes the same change in databases that lag, or none. */
  lemma ExpireFedBehind(w: World, u: World, ms: seq<Marks>, d: nat, multi: bool, argv: Argv, past: int, now: int,
                        t: int)
    requires WorldOk(w) && Behind(w, u, ms, t, past) && d < |w| && Runnable(argv)
    requires Lookup(argv[0]).value in {Expire, PExpire, ExpireAt, PExpireAt}
    requires Effect(w, d, Lookup(argv[0]).value, argv, Clock(now, false)).dirty
    ensures var c := Lookup(argv[0]).value;
      var o, p := Effect(w, d, c, argv, Clock(now, false)), Effect(u, d, c, argv, Clock(now, false));
      Runnable(o.argv) && RunAll(Fake(u, d, multi), Translate(o.argv, now), t) == Some(Fake(p.w, d, multi))
  {
    var c, key := Lookup(argv[0]).value, argv[1];
    BehindAt(w, u, ms, t, past, d);
    assert DbOk(w[d]) && Like(w[d], u[d], ms[d], key, t, past);
    NearLoose(w[d], u[d], ms[d], key, t, past);
    ExpireNeedsKey(w, d, argv, now);
    ExpireIsFed(w, d, argv, now);
    hide Lookup, RunAll, Translate, Behind, WorldOk, Near, DbOk, When, Effect, Like;
    if key in u[d].dict {
      ExpireIsFed(u, d, argv, now);
      ExpireFed(u, d, multi, argv, now, t);
    } else {
      DelFedToNone(u, d, multi, key, now, t);
      ExpireFedToNone(u, d, multi, argv, now, t);
      ExpireOfNone(u, d, c, argv, Clock(now, false));
    }
  }

  lemma SetExDirty(w: World, u: World, d: nat, argv: Argv, now: int)
    requires d < |w| == |u| && Runnable(argv) && Lookup(argv[0]).value in {SetEx, PSetEx}
    requires Effect(w, d, Lookup(argv[0]).value, argv, Clock(now, false)).dirty
    ensures Effect(u, d, Lookup(argv[0]).value, argv, Clock(now, false)).dirty
  {
    hide Lookup, GetLongLong;
  }

  /** What is fed of a change, loaded into databases that lag, makes the change that the command makes there. */
  lemma EffectFedBehind(w: World, u: World, ms: seq<Marks>, d: nat, multi: bool, argv: Argv, past: int, now: int,
                        t: int)
    requires WorldOk(w) && Behind(w, u, ms, t, past) && d < |w| && Runnable(argv)
    requires var c := Lookup(argv[0]).value; c == Persist || Settled(w, u, ms, t, d, c, argv, now)
    requires Effect(w, d, Lookup(argv[0]).value, argv, Clock(now, false)).dirty
    ensures var c := Lookup(argv[0]).value;
      var o, p := Effect(w, d, c, argv, Clock(now, false)), Effect(u, d, c, argv, LoadClock(c, argv, now, t));
      Runnable(o.argv) && RunAll(Fake(u, d, multi), Translate(o.argv, now), t) == Some(Fake(p.w, d, multi))
  {
    var c := Lookup(argv[0]).value;
    SameWidth(w, u, ms, t, past);
    DirtyIsPlain(w, d, c, argv, Clock(now, false));
    RelativeIs(argv);
    if c in {Expire, PExpire, ExpireAt, PExpireAt} {
      LoadsAlike(c, argv, now, t);
      hide *;
      ExpireFedBehind(w, u, ms, d, multi, argv, past, now, t);
    } else {
      hide Lookup, RunOne, RunAll, Effect, Translate, RelativeSet, Relative, Behind, Settled, WorldOk;
      if Relative(c, argv) {
        SetFedAsIs(u, d, multi, argv, now, t);
      } else if c in {SetEx, PSetEx} {
        LoadsAlike(c, argv, now, t);
        SetExDirty(w, u, d, argv, now);
        SetExFed(u, d, multi, argv, now, t);
      } else {
        OtherFed(u, d, multi, argv, now, t);
      }
    }
  }

  /** The databases that lag, after a call has been fed to them and loaded at time t. */
  function CallBehind(w: World, v: World, d: nat, argv: Argv, now: int, t: int): (u: World)
    requires d < |w| == |v| && Runnable(argv)
    ensures |u| == |v|
  {
    var c := Lookup(argv[0]).value;
    var s := Looked(Lazy(w, []), d, c, argv, now);
    var u := Without(v, s.gone);
    if Effect(s.w, d, c, argv, Clock(now, false)).dirty then Effect(u, d, c, argv, LoadClock(c, argv, now, t)).w else u
  }

  /** A PERSIST of a key whose expire time was before `past`: a log may lack it. */
  predicate IsStale(w: World, d: nat, argv: Argv, past: int)
    requires d < |w| && Runnable(argv)
  {
    Lookup(argv[0]).value == Persist && Expired(w[d], argv[1], past)
  }

  function MarksAfterCall(ms: seq<Marks>, w: World, d: nat, argv: Argv, now: int, past: int): (r: seq<Marks>)
    requires d < |w| == |ms| && Runnable(argv)
    ensures |r| == |ms|
  {
    var c := Lookup(argv[0]).value;
    var s := Looked(Lazy(w, []), d, c, argv, now);
    if Effect(s.w, d, c, argv, Clock(now, false)).dirty then
      MarksAfterEffect(ms, d, c, argv, now, IsStale(w, d, argv, past))
    else ms
  }

  /** A PERSIST of a key that the log lacks. */
  ghost predicate Revives(w: World, v: World, ms: seq<Marks>, d: nat, argv: Argv, past: int)
    requires d < |w| == |v| == |ms| && Runnable(argv)
  {
    Lookup(argv[0]).value == Persist && argv[1] !in ms[d].revived && Lacks(w[d], v[d], argv[1], past)
  }

  /** If the call sets a relative time to live by SET, then without an overflow, now or when the log is loaded. */
  predicate CallInTime(w: World, d: nat, argv: Argv, now: int, t: int)
    requires d < |w| && Runnable(argv)
  {
    SetsRelativeTime(w, d, argv, now) ==> InTime(AsSet(Command.Set, argv).value.ttl, now, t)
  }

  lemma DirtyInTime(w: World, d: nat, argv: Argv, now: int, t: int)
    requires d < |w| && Runnable(argv) && CallInTime(w, d, argv, now, t)
    ensures var c := Lookup(argv[0]).value; var s := Looked(Lazy(w, []), d, c, argv, now);
      Effect(s.w, d, c, argv, Clock(now, false)).dirty ==> NoOverflow(c, argv, now, t)
  {
    hide Lookup, Looked, Effect, AsSet, InTime;
  }

  lemma PersistLooks(w: World, d: nat, argv: Argv, now: int)
    requires d < |w| && ArityOk(Persist, |argv|)
    ensures Looked(Lazy(w, []), d, Persist, argv, now) == Lazy(w, [])
  {
  }

  /** Without a mark for the key, it is more than a lag. */
  lemma PersistCallBehind(w: World, v: World, ms: seq<Marks>, d: nat, argv: Argv, past: int, now: int, t: int)
    requires Behind(w, v, ms, t, past) && d < |w| && Runnable(argv) && Revives(w, v, ms, d, argv, past)
    ensures !Behind(Call(w, d, argv, now).w, CallBehind(w, v, d, argv, now, t), MarksAfterCall(ms, w, d, argv, now, 0),
                    t, past)
  {
    hide Lookup, Shift;
    var r, u, key := Call(w, d, argv, now).w, CallBehind(w, v, d, argv, now, t), argv[1];
    var n := MarksAfterCall(ms, w, d, argv, now, 0);
    PersistLooks(w, d, argv, now);
    assert !Like(r[d], u[d], n[d], key, t, past);
    assert !BehindDb(r[d], u[d], n[d], t, past);
  }

  /** A PERSIST of a key that the log has, or that is revived already. */
  lemma NotRevived(w: World, v: World, ms: seq<Marks>, t: int, d: nat, argv: Argv, past: int)
    requires Behind(w, v, ms, t, past) && d < |w| && Runnable(argv) && !Revives(w, v, ms, d, argv, past)
    ensures Lookup(argv[0]).value == Persist ==> AgreeIn(w, v, ms, t, d, argv[1])
  {
    BehindAt(w, v, ms, t, past, d);
    if Lookup(argv[0]).value == Persist { assert Like(w[d], v[d], ms[d], argv[1], t, past); }
  }

  lemma LookedOk(w: World, d: nat, c: Command, argv: Argv, now: int)
    requires WorldOk(w) && d < |w| && ArityOk(c, |argv|)
    ensures WorldOk(Looked(Lazy(w, []), d, c, argv, now).w)
  {
    hide Looked, WorldOk, RunAll;
    LookedExplained(w, false, 0, Lazy(w, []), d, c, argv, now);
  }

  lemma CallOk(w: World, d: nat, argv: Argv, now: int)
    requires WorldOk(w) && d < |w| && Runnable(argv) && IsTime(now)
    ensures WorldOk(Call(w, d, argv, now).w)
  {
    hide Call, WorldOk, Apply;
    CallReplays(w, d, argv, now, false, 0);
  }

  /** What the lookups of a call leave, on both sides. */
  lemma LookedBehind(w: World, v: World, ms: seq<Marks>, d: nat, argv: Argv, past: int, now: int, t: int)
    requires past <= now && WorldOk(w) && Behind(w, v, ms, t, past) && d < |w| && Runnable(argv)
    ensures var c := Lookup(argv[0]).value; var s := Looked(Lazy(w, []), d, c, argv, now);
      && WorldOk(s.w) && Behind(s.w, Without(v, s.gone), ms, t, past) && |v| == |w| == |ms| == |s.w|
      && (forall x :: x in s.gone ==> x.db < |v|)
      && if c == Persist then s == Lazy(w, []) else Settled(s.w, Without(v, s.gone), ms, t, d, c, argv, now)
  {
    hide Lookup, Effect, Looked, WorldOk, Settled, BehindDb, Agree;
    var c := Lookup(argv[0]).value;
    LookedOk(w, d, c, argv, now);
    if c == Persist { PersistLooks(w, d, argv, now); } else { LookedSettles(w, v, ms, t, d, c, argv, past, now); }
  }

  lemma CallIs(w: World, v: World, ms: seq<Marks>, d: nat, argv: Argv, now: int, t: int, since: int)
    requires d < |w| == |v| == |ms| && Runnable(argv)
    requires WorldOk(Looked(Lazy(w, []), d, Lookup(argv[0]).value, argv, now).w)
    ensures var c, clock := Lookup(argv[0]).value, Clock(now, false);
      var s := Looked(Lazy(w, []), d, c, argv, now);
      var r, u := Call(w, d, argv, now).w, CallBehind(w, v, d, argv, now, t);
      var n := MarksAfterCall(ms, w, d, argv, now, since);
      if Effect(s.w, d, c, argv, clock).dirty then
        && r == Effect(s.w, d, c, argv, clock).w
        && u == Effect(Without(v, s.gone), d, c, argv, LoadClock(c, argv, now, t)).w
        && n == MarksAfterEffect(ms, d, c, argv, now, IsStale(w, d, argv, since))
      else
        r == s.w && u == Without(v, s.gone) && n == ms
  {
    hide Lookup, Effect, Looked, Without, Translate, Deletions, LoadClock, MarksAfterEffect, IsStale, WorldOk;
    var c := Lookup(argv[0]).value;
    EffectOk(Looked(Lazy(w, []), d, c, argv, now).w, d, c, argv, Clock(now, false));
  }

  lemma StaleIsPersist(w: World, d: nat, argv: Argv, past: int)
    requires d < |w| && Runnable(argv) && IsStale(w, d, argv, past)
    ensures Lookup(argv[0]).value == Persist
  {
    hide Lookup;
  }

  /** A call leaves the databases and those that lag one behind the other; `since` is `past`, or no time at all if the
      log has the key that a PERSIST names. */
  lemma CallStaysBehind(w: World, v: World, ms: seq<Marks>, d: nat, argv: Argv, past: int, now: int, t: int, since: int)
    requires past <= now && WorldOk(w) && Behind(w, v, ms, t, past) && d < |w| && Runnable(argv)
    requires CallInTime(w, d, argv, now, t)
    requires |v| == |w| == |ms| && (since == past || (since == 0 && !Revives(w, v, ms, d, argv, past)))
    ensures Behind(Call(w, d, argv, now).w, CallBehind(w, v, d, argv, now, t),
                   MarksAfterCall(ms, w, d, argv, now, since), t, past)
  {
    var c := Lookup(argv[0]).value;
    assert ArityOk(c, |argv|);
    hide *;
    var stale, clock := IsStale(w, d, argv, since), Clock(now, false);
    var s := Looked(Lazy(w, []), d, c, argv, now);
    if stale { StaleIsPersist(w, d, argv, since); } else { NotStale(w, v, ms, t, d, argv, past, since); }
    LookedBehind(w, v, ms, d, argv, past, now, t);
    DirtyInTime(w, d, argv, now, t);
    CallIs(w, v, ms, d, argv, now, t, since);
    if Effect(s.w, d, c, argv, clock).dirty {
      if c == Persist { PersistSettled(w, v, ms, t, d, argv, now); }
      EffectBehind(s.w, Without(v, s.gone), ms, t, d, c, argv, past, now, stale);
    }
  }

  lemma NotStale(w: World, v: World, ms: seq<Marks>, t: int, d: nat, argv: Argv, past: int, since: int)
    requires Behind(w, v, ms, t, past) && d < |w| == |v| == |ms| && Runnable(argv) && !IsStale(w, d, argv, since)
    requires since == past || (since == 0 && !Revives(w, v, ms, d, argv, past))
    ensures Lookup(argv[0]).value == Persist ==> AgreeIn(w, v, ms, t, d, argv[1])
  {
    hide Lookup;
    NotRevived(w, v, ms, t, d, argv, past);
  }

  lemma PersistSettled(w: World, v: World, ms: seq<Marks>, t: int, d: nat, argv: Argv, now: int)
    requires d < |w| == |v| == |ms| && ArityOk(Persist, |argv|)
    ensures Without(v, []) == v
    ensures AgreeIn(w, v, ms, t, d, argv[1]) ==> Settled(w, v, ms, t, d, Persist, argv, now)
  {
  }

  lemma CallFedBehind(w: World, v: World, ms: seq<Marks>, d: nat, argv: Argv, past: int, now: int, multi: bool, t: int)
    requires past <= now && WorldOk(w) && Behind(w, v, ms, t, past) && d < |w| && Runnable(argv)
    ensures |v| == |w|
    ensures Apply(v, multi, Call(w, d, argv, now).fed, t) == Some(Fake(CallBehind(w, v, d, argv, now, t), 0, multi))
  {
    hide Lookup, RunAll, Effect, Translate, RelativeSet, Looked, WorldOk, Settled, Behind, Without, Agree, LoadClock;
    var c, clock := Lookup(argv[0]).value, Clock(now, false);
    var s := Looked(Lazy(w, []), d, c, argv, now);
    var u := Without(v, s.gone);
    LookedBehind(w, v, ms, d, argv, past, now, t);
    var o := Effect(s.w, d, c, argv, clock);
    RewrittenRunnable(s.w, d, argv, clock);
    DeletionsApply(v, multi, s.gone, t);
    var nil: seq<Record> := [];
    if o.dirty {
      var last := [Record(d, Translate(o.argv, now))];
      ApplyAppend(v, multi, Deletions(s.gone), last, t);
      assert last[1..] == nil;
      EffectFedBehind(s.w, u, ms, d, multi, argv, past, now, t);
    } else {
      assert Deletions(s.gone) + nil == Deletions(s.gone);
    }
  }

  /** One call, exactly. If it sets a time to live by SET with EX or PX, let no time overflow. What it feeds, loaded at
      time t into databases that lag, gives databases that lag behind what it leaves, with the marks it leaves; and a
      PERSIST has to mark its key as revived if and only if the log lacks the key. */
  lemma CallKeepsBehind(w: World, v: World, ms: seq<Marks>, d: nat, argv: Argv, past: int, now: int, multi: bool,
                        t: int)
    requires past <= now && WorldOk(w) && Behind(w, v, ms, t, past)
    requires d < |w| && Runnable(argv) && CallInTime(w, d, argv, now, t)
    ensures |v| == |w| == |ms|
    ensures var r, u := Call(w, d, argv, now), CallBehind(w, v, d, argv, now, t);
      && Apply(v, multi, r.fed, t) == Some(Fake(u, 0, multi))
      && Behind(r.w, u, MarksAfterCall(ms, w, d, argv, now, past), t, past)
      && (Behind(r.w, u, MarksAfterCall(ms, w, d, argv, now, 0), t, past) <==> !Revives(w, v, ms, d, argv, past))
  {
    SameWidth(w, v, ms, t, past);
    hide Call, CallBehind, MarksAfterCall, CallInTime, Behind, WorldOk, Revives;
    CallStaysBehind(w, v, ms, d, argv, past, now, t, past);
    CallFedBehind(w, v, ms, d, argv, past, now, multi, t);
    if Revives(w, v, ms, d, argv, past) { PersistCallBehind(w, v, ms, d, argv, past, now, t); }
    else { CallStaysBehind(w, v, ms, d, argv, past, now, t, 0); }
  }

  /** A PERSIST of a key that is not past its expire time revives nothing, and none does while no key was skipped. */
  lemma RevivesNothing(w: World, v: World, ms: seq<Marks>, t: int, past: int, d: nat, argv: Argv)
    requires Behind(w, v, ms, t, past) && d < |w| && Runnable(argv)
    requires past <= 0 || (Lookup(argv[0]).value == Persist ==> !Expired(w[d], argv[1], past))
    ensures !Revives(w, v, ms, d, argv, past) && !IsStale(w, d, argv, past)
  {
    hide Lookup;
  }
}
