/** What the commands on whole keys and on lists, sets and hashes do to the databases when they are called, said without
    the functions that do it. */
module KeyLaws {
  import opened Bytes
  import opened Wire
  import opened Strtol
  import opened Commands
  import opened Keyspace
  import opened Effects
  import opened Propagation
  import opened CommandLaws

  // ----- reading -----

  /** Commands that only read change nothing, but that a key they look at goes when it has expired. */
  lemma ReadLaw(w: World, d: nat, argv: Argv, now: int)
    requires d < |w| && Runnable(argv) && ReadOnly(Lookup(argv[0]).value)
    ensures var c := Lookup(argv[0]).value;
      var looks := c in {Get, Exists, Type} || (c == GetBit && BitOffset(argv[2]).Some?);
      && !Logged(w, d, argv, now)
      && After(w, d, argv, now) == if looks then w[d := Swept(w[d], argv[1], now)] else w
  {
    hide Lookup, After, Logged, Swept, BitOffset;
    SimpleCall(w, d, argv, now);
    assert w[d := w[d]] == w;
  }

  // ----- DEL, RENAME, MOVE, PERSIST -----

  lemma {:induction false} DeletedAre(db: Db, keys: Argv)
    ensures var gone := set k | k in keys;
      && DeleteAll(db, keys).0 == Db(db.dict - gone, db.expires - gone)
      && (DeleteAll(db, keys).1 <==> exists k :: k in keys && k in db.dict)
    decreases |keys|
  {
    var gone := set k | k in keys;
    if keys == [] {
      assert gone == {};
      assert db.dict - gone == db.dict && db.expires - gone == db.expires;
    } else {
      var first, rest := DbDelete(db, keys[0]), set k | k in keys[1..];
      DeletedAre(first, keys[1..]);
      assert forall k :: k in keys <==> k == keys[0] || k in keys[1..];
      assert gone == {keys[0]} + rest;
      assert db.dict - {keys[0]} - rest == db.dict - gone;
      assert db.expires - {keys[0]} - rest == db.expires - gone;
    }
  }

  /** DEL takes out all the keys it names, expired or not, and counts if there was one. */
  lemma DelLaw(w: World, d: nat, argv: Argv, now: int)
    requires d < |w| && Is(argv, Del)
    ensures var gone := set k | k in argv[1..];
      && After(w, d, argv, now) == w[d := Db(w[d].dict - gone, w[d].expires - gone)]
      && (Logged(w, d, argv, now) <==> exists k :: k in argv[1..] && k in w[d].dict)
  {
    hide Lookup, After, Logged, Swept, DeleteAll;
    SimpleCall(w, d, argv, now);
    DeletedAre(w[d], argv[1..]);
  }

  lemma BothTouched(w: World, d: nat, key: Bytestring, e: nat, other: Bytestring, now: int)
    requires d < |w| && e < |w| && (d != e || key != other)
    ensures TouchBoth(Lazy(w, []), d, key, e, other, now).w
         == if Present(w[d], key, now) then w[e := Swept(w[e], other, now)] else w[d := Swept(w[d], key, now)]
  {
    TouchIs(w, d, key, now);
    if Present(w[d], key, now) {
      assert w[d := w[d]] == w;
      TouchIs(w, e, other, now);
    }
  }

  /** The value and the expire time of one key moved to another, which loses its own. An expire time of -1 counts as
      none. */
  function Moved(db: Db, from: Bytestring, to: Bytestring): Db
    requires from in db.dict
  {
    Db((db.dict - {from})[to := db.dict[from]],
      if from in db.expires && db.expires[from] != -1 then (db.expires - {from})[to := db.expires[from]]
      else db.expires - {from, to})
  }

  lemma RenamedIs(db: Db, from: Bytestring, to: Bytestring, nx: bool, now: int)
    requires DbOk(db) && from != to && Present(db, from, now)
    ensures RenameGeneric(Swept(db, to, now), from, to, nx)
         == if nx && Present(db, to, now) then (db, false) else (Moved(db, from, to), true)
  {
    var seen := Swept(db, to, now);
    assert from in seen.dict && seen.dict[from] == db.dict[from];
    assert GetExpire(seen, from) == GetExpire(db, from);
    var v, e := db.dict[from], GetExpire(db, from);
    assert (db.dict - {to})[to := v] - {from} == (db.dict - {from})[to := v];
    assert db.dict[to := v] - {from} == (db.dict - {from})[to := v];
    assert (db.expires - {to})[to := e] - {from} == (db.expires - {from})[to := e];
    assert db.expires[to := e] - {from} == (db.expires - {from})[to := e];
    assert db.expires - {to} - {from} == db.expires - {from, to};
    assert to !in db.expires ==> db.expires - {from} == db.expires - {from, to};
    assert db.dict - {to} - {to} == db.dict - {to} && db.expires - {to} - {to} == db.expires - {to};
  }

  /** RENAME and RENAMENX go through if and only if the first key is there and is not the second, and for RENAMENX the
      second is not there. */
  lemma RenameLaw(w: World, d: nat, argv: Argv, now: int)
    requires WorldOk(w) && d < |w| && (Is(argv, Rename) || Is(argv, RenameNx))
    ensures var from, to := argv[1], argv[2];
      var goes := from != to && Present(w[d], from, now) && (Is(argv, RenameNx) ==> !Present(w[d], to, now));
      && (Logged(w, d, argv, now) <==> goes)
      && After(w, d, argv, now) ==
         if goes then w[d := Moved(w[d], from, to)]
         else if from != to && !Present(w[d], from, now) then w[d := Swept(w[d], from, now)]
         else w
  {
    hide Lookup, After, Logged;
    CallIs(w, d, argv, now);
    var from, to := argv[1], argv[2];
    assert w[d := w[d]] == w;
    if from != to {
      BothTouched(w, d, from, d, to, now);
      if Present(w[d], from, now) { RenamedIs(w[d], from, to, Is(argv, RenameNx), now); }
    }
    hide Swept, Moved, RenameGeneric, TouchBoth, DbOk;
  }

  lemma MovedIs(w: World, d: nat, key: Bytestring, id: nat, now: int)
    requires WorldOk(w) && d < |w| && id < |w| && id != d && Present(w[d], key, now)
    ensures var seen := w[id := Swept(w[id], key, now)];
      MoveKey(seen, d, key, id)
         == if Present(w[id], key, now) then (w, false)
            else (w[id := Holding(w[id], key, w[d].dict[key])][d := Without(w[d], key)], true)
  {
    var v := w[d].dict[key];
    var there := w[id];
    SweptHolding(there, key, v, 0, now);
    assert w[id := w[id]] == w;
    assert DbOk(there);
    assert (there.dict - {key})[key := v] == there.dict[key := v];
    assert key !in there.expires ==> there.expires - {key} == there.expires;
    assert !Present(there, key, now) ==> Overwrite(Swept(there, key, now), key, v) == Holding(there, key, v);
    var seen := w[id := Swept(there, key, now)];
    hide Swept, Present, Holding, Without, WorldOk, DbOk;
    assert seen[d] == w[d] && seen[id := Holding(there, key, v)] == w[id := Holding(there, key, v)];
  }

  /** MOVE goes through if and only if there is another database of that number, the key is there, and it is not there
      in the other one; the expire time of the key is lost. */
  lemma MoveLaw(w: World, d: nat, argv: Argv, now: int)
    requires WorldOk(w) && d < |w| && Is(argv, Move)
    ensures var key, id := argv[1], Atoi(argv[2]);
      var other := 0 <= id < |w| && id != d;
      var goes := other && Present(w[d], key, now) && !Present(w[id], key, now);
      && (Logged(w, d, argv, now) <==> goes)
      && After(w, d, argv, now) ==
         if goes then w[id := Holding(w[id], key, w[d].dict[key])][d := Without(w[d], key)]
         else if other && !Present(w[d], key, now) then w[d := Swept(w[d], key, now)]
         else w
  {
    hide Lookup, After, Logged, Atoi;
    CallIs(w, d, argv, now);
    var key, id := argv[1], Atoi(argv[2]);
    if 0 <= id < |w| && id != d {
      BothTouched(w, d, key, id, key, now);
      if Present(w[d], key, now) { MovedIs(w, d, key, id, now); }
    }
    hide TouchBoth, WorldOk, Holding, Without;
  }

  /** PERSIST drops the expire time, passed or not, and counts if there was one. */
  lemma PersistLaw(w: World, d: nat, argv: Argv, now: int)
    requires d < |w| && Is(argv, Persist)
    ensures After(w, d, argv, now) == w[d := Db(w[d].dict, w[d].expires - {argv[1]})]
    ensures Logged(w, d, argv, now) <==> argv[1] in w[d].expires
  {
    hide Lookup, After, Logged, Swept;
    SimpleCall(w, d, argv, now);
  }

  // ----- EXPIRE and its relatives -----

  /** The time asked for, in milliseconds since the epoch and 64-bit arithmetic: seconds or milliseconds, from now or
      absolute. */
  function Deadline(c: Command, n: int, now: int): int
    requires c in {Expire, PExpire, ExpireAt, PExpireAt}
  {
    if c == Expire then Wrap(Wrap(n * 1000) + now)
    else if c == PExpire then Wrap(n + now)
    else if c == ExpireAt then Wrap(n * 1000)
    else n
  }

  lemma ExpireEffect(db: Db, c: Command, argv: Argv, now: int)
    requires |argv| == 3 && c in {Expire, PExpire, ExpireAt, PExpireAt}
    ensures var key, n := argv[1], GetLongLong(argv[2]);
      var r := ExpireGeneric(if n.Some? then Swept(db, key, now) else db, c, argv, Clock(now, false));
      && (r.1 <==> n.Some? && Present(db, key, now)) && (When(c, argv[2], now).Some? <==> n.Some?)
      && r.0 ==
         if n == None then db
         else if !Present(db, key, now) then Swept(db, key, now)
         else if Deadline(c, n.value, now) <= now then Without(db, key)
         else Db(db.dict, db.expires[key := Deadline(c, n.value, now)])
  {
    hide GetLongLong, Wrap, Swept, Present;
    SweptHolding(db, argv[1], Str([]), 0, now);
  }

  /** The key is given the expire time, or deleted if that has come, if and only if it is there and the time is a
      number. */
  lemma ExpireLaw(w: World, d: nat, argv: Argv, now: int)
    requires d < |w| && Runnable(argv) && Lookup(argv[0]).value in {Expire, PExpire, ExpireAt, PExpireAt}
    ensures var c, key, n := Lookup(argv[0]).value, argv[1], GetLongLong(argv[2]);
      && (Logged(w, d, argv, now) <==> n.Some? && Present(w[d], key, now))
      && After(w, d, argv, now) ==
         if n == None then w
         else if !Present(w[d], key, now) then w[d := Swept(w[d], key, now)]
         else if Deadline(c, n.value, now) <= now then w[d := Without(w[d], key)]
         else w[d := Db(w[d].dict, w[d].expires[key := Deadline(c, n.value, now)])]
  {
    hide Lookup, After, Logged, Swept, GetLongLong, Wrap, Present, Deadline, ExpireGeneric, Without;
    SimpleCall(w, d, argv, now);
    ExpireEffect(w[d], Lookup(argv[0]).value, argv, now);
    assert w[d := w[d]] == w;
  }

  // ----- FLUSHDB, FLUSHALL -----

  lemma FlushLaw(w: World, d: nat, argv: Argv, now: int)
    requires d < |w| && (Is(argv, FlushDb) || Is(argv, FlushAll))
    ensures var v := After(w, d, argv, now);
      && |v| == |w| && (Logged(w, d, argv, now) <==> Is(argv, FlushAll) || w[d].dict != map[])
      && forall i :: 0 <= i < |w| ==> v[i] == if i == d || Is(argv, FlushAll) then Db(map[], map[]) else w[i]
  {
    hide Lookup, After, Logged, Swept;
    if Is(argv, FlushDb) { SimpleCall(w, d, argv, now); } else { CallIs(w, d, argv, now); }
  }

  // ----- RPUSH, SADD, HMSET -----

  /** The key with a value that keeps its expire time, unless that has passed. */
  function Changed(db: Db, key: Bytestring, v: Value, now: int): Db
  {
    Db(db.dict[key := v], if Past(db, key, now) then db.expires - {key} else db.expires)
  }

  lemma ChangedIs(db: Db, key: Bytestring, v: Value, now: int)
    ensures Overwrite(Swept(db, key, now), key, v) == Changed(db, key, v, now)
    ensures key in Swept(db, key, now).dict <==> Present(db, key, now)
    ensures Present(db, key, now) ==> Swept(db, key, now) == db
  {
    assert (db.dict - {key})[key := v] == db.dict[key := v];
  }

  /** RPUSH puts the items at the end of the list, or makes it; it goes through unless the key holds something else. */
  lemma RPushLaw(w: World, d: nat, argv: Argv, now: int)
    requires d < |w| && Is(argv, RPush)
    ensures var key := argv[1]; var there := Present(w[d], key, now);
      var goes := there ==> w[d].dict[key].List?;
      && (Logged(w, d, argv, now) <==> goes)
      && After(w, d, argv, now) ==
         if !goes then w
         else w[d := Changed(w[d], key, List((if there then w[d].dict[key].items else []) + argv[2..]), now)]
  {
    hide Lookup, After, Logged, Swept;
    SimpleCall(w, d, argv, now);
    var key := argv[1];
    ChangedIs(w[d], key, List((if Present(w[d], key, now) && w[d].dict[key].List? then w[d].dict[key].items else [])
      + argv[2..]), now);
    assert [] + argv[2..] == argv[2..];
    assert w[d := w[d]] == w;
    hide Changed, Overwrite;
  }

  /** SADD unites the set with the members, or makes it, and counts if it has grown. */
  lemma SAddLaw(w: World, d: nat, argv: Argv, now: int)
    requires d < |w| && Is(argv, SAdd)
    ensures var key := argv[1]; var there := Present(w[d], key, now);
      var goes := there ==> w[d].dict[key].Set?;
      var more, was := set x | x in argv[2..], if there && goes then w[d].dict[key].members else {};
      && (Logged(w, d, argv, now) <==> goes && (there ==> exists x :: x in argv[2..] && x !in was))
      && After(w, d, argv, now) == if !goes then w else w[d := Changed(w[d], key, Value.Set(was + more), now)]
  {
    hide Lookup, After, Logged, Swept;
    SimpleCall(w, d, argv, now);
    var key := argv[1];
    var was := if Present(w[d], key, now) && w[d].dict[key].Set? then w[d].dict[key].members else {};
    var more := Members(argv[2..]);
    ChangedIs(w[d], key, Value.Set(was + more), now);
    assert {} + more == more;
    assert w[d := w[d]] == w;
    assert more <= was <==> !exists x :: x in argv[2..] && x !in was;
    hide Changed, Overwrite;
  }

  /** The value that a list of fields and values gives to a field, the last of it. */
  function Assigned(pairs: Argv, f: Bytestring): Option<Bytestring>
    decreases |pairs|
  {
    if |pairs| < 2 then None
    else if Assigned(pairs[2..], f).Some? then Assigned(pairs[2..], f)
    else if pairs[0] == f then Some(pairs[1]) else None
  }

  /** The fields with what is assigned to them. */
  ghost predicate Updated(was: map<Bytestring, Bytestring>, now: map<Bytestring, Bytestring>, pairs: Argv)
  {
    forall f :: (f in now <==> f in was || Assigned(pairs, f).Some?)
      && (f in now ==> now[f] == if Assigned(pairs, f).Some? then Assigned(pairs, f).value else was[f])
  }

  lemma {:induction false} FieldsAreSet(fields: map<Bytestring, Bytestring>, pairs: Argv)
    ensures Updated(fields, SetFields(fields, pairs), pairs)
    decreases |pairs|
  {
    if |pairs| >= 2 { FieldsAreSet(fields[pairs[0] := pairs[1]], pairs[2..]); }
  }

  /** HMSET gives each field the last value named for it, and leaves the others. */
  lemma HMSetLaw(w: World, d: nat, argv: Argv, now: int)
    requires d < |w| && Is(argv, HMSet)
    ensures var key, v := argv[1], After(w, d, argv, now); var there := Present(w[d], key, now);
      var goes := |argv| % 2 == 0 && (there ==> w[d].dict[key].Hash?);
      && (Logged(w, d, argv, now) <==> goes) && (!goes ==> v == w)
      && (goes ==> exists fields ::
        && Updated(if there then w[d].dict[key].fields else map[], fields, argv[2..])
        && v == w[d := Changed(w[d], key, Hash(fields), now)])
  {
    hide Lookup, After, Logged, Swept;
    SimpleCall(w, d, argv, now);
    var key := argv[1];
    var was := if Present(w[d], key, now) && w[d].dict[key].Hash? then w[d].dict[key].fields else map[];
    FieldsAreSet(was, argv[2..]);
    hide Updated, SetFields;
    ChangedIs(w[d], key, Hash(SetFields(was, argv[2..])), now);
    assert w[d := w[d]] == w;
    assert (|argv| - 2) % 2 == |argv| % 2;
    hide Changed, Overwrite;
  }
}
