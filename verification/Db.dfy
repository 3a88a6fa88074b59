/** db.c, the string, bit, list, set and hash commands that write, redis.c call and multi.c EXEC, as
    they update the server in place. */
module Db {
  import opened Bytes
  import opened Decimal
  import opened Wire
  import opened Strtol
  import opened Commands
  import opened Keyspace
  import opened BitString
  import Bitops
  import opened Effects
  import opened Propagation
  import opened CallReplay
  import opened LogFile
  import opened LogMachine
  import opened Aof

  // ----- feeding in several goes -----

  lemma {:induction false} FeedAppend(selected: int, a: seq<Record>, b: seq<Record>)
    ensures Feed(selected, a + b) == Feed(selected, a) + Feed(LastDb(selected, a), b)
    decreases |a|
  {
    hide SelectCommand;
    if a == [] {
      assert a + b == b;
    } else {
      assert (a + b)[1..] == a[1..] + b;
      FeedAppend(a[0].db, a[1..], b);
      assert LastDb(a[0].db, a[1..]) == LastDb(selected, a);
    }
  }

  lemma LastDbAppend(selected: int, a: seq<Record>, b: seq<Record>)
    ensures LastDb(selected, a + b) == LastDb(LastDb(selected, a), b)
  {
  }

  lemma FedTwice(s: Server, a: seq<Record>, b: seq<Record>)
    ensures Fed(Fed(s, a), b) == Fed(s, a + b)
  {
    hide Feed, CatAll;
    FeedAppend(s.selected, a, b);
    LastDbAppend(s.selected, a, b);
    var x, y := CatAll(Feed(s.selected, a)), CatAll(Feed(LastDb(s.selected, a), b));
    CatAllAppend(Feed(s.selected, a), Feed(LastDb(s.selected, a), b));
    hide LastDb;
    assert s.buf + x + y == s.buf + (x + y) && s.diff + x + y == s.diff + (x + y);
  }

  lemma FedNothing(s: Server)
    ensures Fed(s, []) == s
  {
    assert s.buf + [] == s.buf && s.diff + [] == s.diff;
  }

  /** The server when a command's lookups have got to l. */
  function Reached(s: Server, l: Lazy): Server { Fed(s.(w := l.w), Deletions(l.gone)) }

  lemma AtTouch(s: Server, l: Lazy, d: nat, key: Bytestring, now: int)
    requires d < |l.w| && Expired(l.w[d], key, now)
    ensures Reached(s, Touch(l, d, key, now))
         == Fed(Reached(s, l).(w := l.w[d := DbDelete(l.w[d], key)]), [Record(d, [[DEL, key]])])
  {
    hide Feed, CatAll;
    var v := l.w[d := DbDelete(l.w[d], key)];
    DeletionsSnoc(l.gone, Target(d, key));
    FedTwice(s.(w := v), Deletions(l.gone), [Record(d, [[DEL, key]])]);
    hide Deletions;
  }

  /** A key just looked up has not expired. */
  lemma TouchAgain(l: Lazy, d: nat, key: Bytestring, now: int)
    requires d < |l.w|
    ensures Touch(Touch(l, d, key, now), d, key, now) == Touch(l, d, key, now)
  {
  }

  lemma DelTranslates(key: Bytestring, now: int)
    ensures Runnable([DEL, key]) && Translate([DEL, key], now) == [[DEL, key]]
  {
    hide Lookup, ExpireAtCommand;
    Names();
  }

  class RedisServer {
    var dbs: World
    var dirty: nat
    const aof: AppendOnlyFile

    ghost predicate Valid()
      reads this, aof
    {
      aof.Valid() && 0 < |dbs| <= MAX_DBS
    }

    ghost function View(): LogMachine.Server
      reads this, aof
    {
      aof.View(dbs)
    }

    constructor (dbnum: nat)
      requires 0 < dbnum <= MAX_DBS
      ensures Valid() && fresh(aof) && View() == Initial(dbnum)
    {
      dbs := EmptyWorld(dbnum);
      dirty := 0;
      aof := new AppendOnlyFile();
    }

    // ----- lookups -----

    /** propagateExpire. */
    method PropagateExpire(d: nat, key: Bytestring, now: int)
      requires Valid() && d < |dbs| && |key| <= INT64_MAX
      modifies aof
      ensures Valid() && View() == Fed(old(View()), [Record(d, [[DEL, key]])])
    {
      hide Fed, Lookup, Translate;
      DelTranslates(key, now);
      DelFits(key);
      if aof.mode != Off {
        aof.FeedAppendOnlyFile(d, [DEL, key], now, dbs);
      } else {
        OffFeedsNothing(View(), [Record(d, [[DEL, key]])]);
      }
    }

    /** expireIfNeeded; the lookups of the command so far have led from s to l. */
    method ExpireIfNeeded(d: nat, key: Bytestring, now: int, ghost s: Server, ghost l: Lazy) returns (gone: bool)
      requires Valid() && d < |dbs| && |key| <= INT64_MAX && View() == Reached(s, l)
      modifies this`dbs, aof
      ensures Valid() && dirty == old(dirty) && |dbs| == old(|dbs|)
      ensures View() == Reached(s, Touch(l, d, key, now)) && gone == Expired(l.w[d], key, now)
    {
      hide Fed, Deletions, Feed;
      AtWorld(s, l);
      var when := GetExpire(dbs[d], key);
      if when < 0 { return false; }
      if now <= when { return false; }
      AtTouch(s, l, d, key, now);
      ghost var w := dbs[d := DbDelete(dbs[d], key)];
      FedKeepsWorld(View(), [Record(d, [[DEL, key]])], w);
      PropagateExpire(d, key, now);
      dbs := dbs[d := DbDelete(dbs[d], key)];
      return true;
    }

    /** lookupKeyRead and lookupKeyWrite. */
    method LookupKey(d: nat, key: Bytestring, now: int, ghost s: Server, ghost l: Lazy) returns (v: Option<Value>)
      requires Valid() && d < |dbs| && |key| <= INT64_MAX && View() == Reached(s, l)
      modifies this`dbs, aof
      ensures Valid() && dirty == old(dirty) && |dbs| == old(|dbs|)
      ensures View() == Reached(s, Touch(l, d, key, now)) && dbs == Touch(l, d, key, now).w
      ensures v == if key in dbs[d].dict then Some(dbs[d].dict[key]) else None
    {
      AtWorld(s, l);
      hide Fed, Deletions, Reached, Touch;
      var gone := ExpireIfNeeded(d, key, now, s, l);
      AtWorld(s, Touch(l, d, key, now));
      v := if key in dbs[d].dict then Some(dbs[d].dict[key]) else None;
    }

    // ----- db.c -----

    /** setKey. */
    method SetKeyTo(d: nat, key: Bytestring, val: Value, now: int, ghost s: Server, ghost l: Lazy)
      requires Valid() && d < |dbs| && |key| <= INT64_MAX && View() == Reached(s, l)
      modifies this`dbs, aof
      ensures Valid() && dirty == old(dirty) && d < |l.w|
      ensures var t := Touch(l, d, key, now); View() == Reached(s, t).(w := t.w[d := SetKey(t.w[d], key, val)])
    {
      hide Fed, Deletions, Reached, Touch, DbOk;
      AtWorld(s, l);
      var o := LookupKey(d, key, now, s, l);
      // dbAdd or dbOverwrite, then removeExpire
      dbs := dbs[d := Overwrite(dbs[d], key, val)];
      dbs := dbs[d := dbs[d].(expires := dbs[d].expires - {key})];
      ghost var t := Touch(l, d, key, now);
      assert dbs == t.w[d := SetKey(t.w[d], key, val)];
    }

    /** setGenericCommand. */
    method SetGenericCommand(d: nat, r: SetRequest, now: int, ghost s: Server, ghost l: Lazy)
      requires Valid() && d < |dbs| && |r.key| <= INT64_MAX && View() == Reached(s, l)
      modifies this`dbs, this`dirty, aof
      ensures Valid() && d < |l.w|
      ensures var t := if Milliseconds(r.ttl) == None then l else Touch(l, d, r.key, now);
        var (db, changed) := SetGeneric(t.w[d], r, now);
        View() == Reached(s, t).(w := t.w[d := db]) && dirty == old(dirty) + (if changed then 1 else 0)
    {
      hide Fed, Deletions, Reached, Touch, DbOk, GetLongLong, SetKey;
      AtWorld(s, l);
      var milliseconds := 0;
      if r.ttl.Some? {
        var v := GetLongLong(r.ttl.value.text);
        if v == None || v.value <= 0 { assert dbs[d := dbs[d]] == dbs; return; }
        milliseconds := Wrap(v.value * r.ttl.value.unit);
      }
      TouchAgain(l, d, r.key, now);
      ghost var t := Touch(l, d, r.key, now);
      AtWorld(s, t);
      ghost var reached := l;
      if r.nx {
        var o := LookupKey(d, r.key, now, s, reached);
        reached := t;
        if o != None { assert dbs[d := dbs[d]] == dbs; return; }
      }
      if r.xx {
        var o := LookupKey(d, r.key, now, s, reached);
        reached := t;
        if o == None { assert dbs[d := dbs[d]] == dbs; return; }
      }
      SetKeyTo(d, r.key, Str(r.val), now, s, reached);
      dirty := dirty + 1;
      if r.ttl.Some? { dbs := dbs[d := SetExpire(dbs[d], r.key, Wrap(now + milliseconds))]; }
      ghost var (db, changed) := SetGeneric(t.w[d], r, now);
      assert dbs == t.w[d := db];
    }

    /** renameGenericCommand. */
    method RenameGenericCommand(d: nat, from: Bytestring, to: Bytestring, nx: bool, now: int, ghost s: Server,
        ghost l: Lazy)
      requires Valid() && d < |dbs| && |from| <= INT64_MAX && |to| <= INT64_MAX && View() == Reached(s, l)
      modifies this`dbs, this`dirty, aof
      ensures Valid() && d < |l.w|
      ensures var t := if from == to then l else TouchBoth(l, d, from, d, to, now);
        var (db, changed) := RenameGeneric(t.w[d], from, to, nx);
        View() == Reached(s, t).(w := t.w[d := db]) && dirty == old(dirty) + (if changed then 1 else 0)
    {
      hide Fed, Deletions, Reached, DbOk;
      AtWorld(s, l);
      if from == to { assert dbs[d := dbs[d]] == dbs; return; }
      var o := LookupKey(d, from, now, s, l);
      if o == None { assert dbs[d := dbs[d]] == dbs; return; }
      var expire := GetExpire(dbs[d], from);
      ghost var t := TouchBoth(l, d, from, d, to, now);
      var p := LookupKey(d, to, now, s, Touch(l, d, from, now));
      AtWorld(s, t);
      TouchOther(Touch(l, d, from, now), d, to, from, now);
      if p != None {
        if nx { assert dbs[d := dbs[d]] == dbs; return; }
        dbs := dbs[d := DbDelete(dbs[d], to)];
      }
      assert o.value == t.w[d].dict[from] && expire == GetExpire(t.w[d], from);
      dbs := dbs[d := Overwrite(dbs[d], to, o.value)];
      if expire != -1 { dbs := dbs[d := SetExpire(dbs[d], to, expire)]; }
      dbs := dbs[d := DbDelete(dbs[d], from)];
      dirty := dirty + 1;
      ghost var (db, changed) := RenameGeneric(t.w[d], from, to, nx);
      assert dbs == t.w[d := db];
    }

    /** moveCommand. */
    method MoveCommand(d: nat, key: Bytestring, text: Bytestring, now: int, ghost s: Server, ghost l: Lazy)
      requires Valid() && d < |dbs| && |key| <= INT64_MAX && View() == Reached(s, l)
      modifies this`dbs, this`dirty, aof
      ensures Valid() && d < |l.w|
      ensures var id := Atoi(text);
        var t := if id < 0 || id >= |l.w| || id == d then l else TouchBoth(l, d, key, id, key, now);
        var (w, changed) := MoveKey(t.w, d, key, id);
        View() == Reached(s, t).(w := w) && dirty == old(dirty) + (if changed then 1 else 0)
    {
      hide Fed, Deletions, Reached, DbOk, Atoi;
      AtWorld(s, l);
      var id := Atoi(text);
      if id < 0 || id >= |dbs| { return; }
      if id == d { return; }
      ghost var t := TouchBoth(l, d, key, id, key, now);
      AtWorld(s, t);
      var o := LookupKey(d, key, now, s, l);
      if o == None { return; }
      var p := LookupKey(id, key, now, s, Touch(l, d, key, now));
      if p != None { return; }
      assert o.value == t.w[d].dict[key];
      dbs := dbs[id := Overwrite(dbs[id], key, o.value)];
      dbs := dbs[d := DbDelete(dbs[d], key)];
      dirty := dirty + 1;
      assert dbs == MoveKey(t.w, d, key, id).0;
    }

    /** persistCommand. */
    method PersistCommand(d: nat, key: Bytestring)
      requires Valid() && d < |dbs| && DbOk(dbs[d])
      modifies this`dbs, this`dirty
      ensures Valid()
      ensures var (db, changed) := PersistKey(old(dbs)[d], key);
        dbs == old(dbs)[d := db] && dirty == old(dirty) + (if changed then 1 else 0)
    {
      hide NotEmpty, Int64;
      if key !in dbs[d].dict {
        assert dbs[d].expires - {key} == dbs[d].expires;
        assert dbs[d := dbs[d]] == dbs;
        return;
      }
      if key in dbs[d].expires {
        dbs := dbs[d := dbs[d].(expires := dbs[d].expires - {key})];
        dirty := dirty + 1;
      } else {
        assert dbs[d].expires - {key} == dbs[d].expires;
        assert dbs[d := dbs[d]] == dbs;
      }
    }

    /** delCommand. */
    method DelCommand(d: nat, keys: Argv)
      requires Valid() && d < |dbs| && DbOk(dbs[d])
      modifies this`dbs, this`dirty
      ensures Valid()
      ensures var (db, changed) := DeleteAll(old(dbs)[d], keys);
        dbs == old(dbs)[d := db] && dirty >= old(dirty) && (dirty > old(dirty) <==> changed)
    {
      hide NotEmpty, Int64;
      ghost var w := dbs;
      assert w[d := w[d]] == w;
      var rest := keys;
      while rest != []
        invariant d < |w| == |dbs| && dbs == w[d := dbs[d]] && DbOk(dbs[d])
        invariant dirty >= old(dirty)
        invariant var (db, more) := DeleteAll(dbs[d], rest);
          DeleteAll(w[d], keys) == (db, dirty > old(dirty) || more)
        decreases |rest|
      {
        var key := rest[0];
        assert key !in dbs[d].dict ==> DbDelete(dbs[d], key) == dbs[d];
        if key in dbs[d].dict { dirty := dirty + 1; }
        dbs := dbs[d := DbDelete(dbs[d], key)];
        rest := rest[1..];
      }
    }

    /** flushdbCommand and flushallCommand. */
    method FlushDbCommand(d: nat)
      requires Valid() && d < |dbs|
      modifies this`dbs, this`dirty
      ensures Valid() && dbs == old(dbs)[d := EMPTY_DB]
      ensures dirty >= old(dirty) && (dirty > old(dirty) <==> old(dbs)[d].dict != map[])
    {
      dirty := dirty + |dbs[d].dict|;
      assert |dbs[d].dict| == 0 <==> dbs[d].dict == map[];
      dbs := dbs[d := EMPTY_DB];
    }

    method FlushAllCommand()
      requires Valid()
      modifies this`dbs, this`dirty
      ensures Valid() && dbs == EmptyWorld(|old(dbs)|) && dirty > old(dirty)
    {
      var j := 0;
      ghost var n := |dbs|;
      while j < |dbs|
        invariant 0 <= j <= |dbs| == n && dirty >= old(dirty)
        invariant forall i :: 0 <= i < j ==> dbs[i] == EMPTY_DB
      {
        dirty := dirty + |dbs[j].dict|;
        dbs := dbs[j := EMPTY_DB];
        j := j + 1;
      }
      dirty := dirty + 1;
    }

    /** expireGenericCommand, which may rewrite the command to a DEL. */
    method ExpireGenericCommand(d: nat, c: Command, argv: Argv, now: int, ghost s: Server, ghost l: Lazy)
        returns (args: Argv)
      requires Valid() && d < |dbs| && |argv| == 3 && |argv[1]| <= INT64_MAX && View() == Reached(s, l)
      modifies this`dbs, this`dirty, aof
      ensures Valid() && d < |l.w|
      ensures var t := if When(c, argv[2], now) == None then l else Touch(l, d, argv[1], now);
        var (db, changed, a) := ExpireGeneric(t.w[d], c, argv, Clock(now, false));
        View() == Reached(s, t).(w := t.w[d := db]) && args == a && dirty == old(dirty) + (if changed then 1 else 0)
    {
      hide Fed, Deletions, Reached, DbOk, When, Touch, SetExpire, DbDelete;
      AtWorld(s, l);
      args := argv;
      var key := argv[1];
      var when := ExpireTime(c, argv[2], now);
      if when == None { assert dbs[d := dbs[d]] == dbs; return; }
      AtWorld(s, Touch(l, d, key, now));
      var o := LookupKey(d, key, now, s, l);
      if o == None { assert dbs[d := dbs[d]] == dbs; return; }
      if when.value <= now {
        dbs := dbs[d := DbDelete(dbs[d], key)];
        args := [DEL, key];
      } else {
        dbs := dbs[d := SetExpire(dbs[d], key, when.value)];
      }
      dirty := dirty + 1;
    }

    static method ExpireTime(c: Command, text: Bytestring, now: int) returns (when: Option<int>)
      ensures when == When(c, text, now)
    {
      hide GetLongLong, Wrap;
      var v := GetLongLong(text);
      if v == None { return None; }
      var ms := v.value;
      if c == Expire || c == ExpireAt { ms := Wrap(ms * 1000); }
      if c == Expire || c == PExpire { ms := Wrap(ms + now); }
      return Some(ms);
    }

    // ----- bitops.c -----

    static method WriteBit(s: Bytestring, offset: nat, on: nat) returns (r: Bytestring)
      ensures r == WithBit(s, offset, on)
    {
      hide Grow, ByteWithBit;
      var byte := offset / 8;
      r := Grow(s, byte + 1);
      var bit := 7 - offset % 8;
      r := r[byte := ByteWithBit(r[byte], bit, on)];
    }

    /** setbitCommand, its arguments parsed. */
    method SetBitCommand(d: nat, key: Bytestring, offset: nat, on: nat, now: int, ghost s: Server, ghost l: Lazy)
      requires Valid() && d < |dbs| && |key| <= INT64_MAX && View() == Reached(s, l)
      modifies this`dbs, this`dirty, aof
      ensures Valid() && d < |l.w|
      ensures var t := Touch(l, d, key, now); var (db, changed) := SetBitAt(t.w[d], key, offset, on);
        View() == Reached(s, t).(w := t.w[d := db]) && dirty == old(dirty) + (if changed then 1 else 0)
    {
      hide Fed, Deletions, Reached, DbOk, Touch, WithBit, Overwrite;
      AtWorld(s, l);
      AtWorld(s, Touch(l, d, key, now));
      var o := LookupKey(d, key, now, s, l);
      var ptr: Bytestring := [];
      if o.Some? {
        if !o.value.Str? { assert dbs[d := dbs[d]] == dbs; return; }
        ptr := o.value.bytes;
      }
      ptr := WriteBit(ptr, offset, on);
      dbs := dbs[d := Overwrite(dbs[d], key, Str(ptr))];
      dirty := dirty + 1;
    }

    /** The lookups of bitopCommand. */
    method LookupSources(d: nat, keys: Argv, now: int, ghost s: Server, ghost l: Lazy) returns (src: Option<seq<Bits>>)
      requires Valid() && d < |dbs| && (forall k :: k in keys ==> |k| <= INT64_MAX) && View() == Reached(s, l)
      modifies this`dbs, aof
      ensures Valid() && dirty == old(dirty) && d < |l.w| && |dbs| == old(|dbs|)
      ensures var t := TouchSources(l, d, keys, now); View() == Reached(s, t) && src == Sources(t.w[d], keys)
      decreases |keys|
    {
      hide Fed, Deletions, Reached, Touch, ToBits;
      AtWorld(s, l);
      if |keys| == 0 { return Some([]); }
      var key := keys[0];
      ghost var t := Touch(l, d, key, now);
      assert key in keys;
      AtWorld(s, t);
      var o := LookupKey(d, key, now, s, l);
      if o.Some? && !o.value.Str? { return None; }
      var more := LookupSources(d, keys[1..], now, s, t);
      ghost var u := TouchSources(t, d, keys[1..], now);
      StaysAfter(l, d, key, now);
      TouchedStays(t, d, keys[1..], key, now);
      if more == None { return None; }
      return Some([if o == None then ToBits([]) else ToBits(o.value.bytes)] + more.value);
    }

    /** bitopCommand: the sources, the result, then the target. */
    method BitOpCommand(d: nat, argv: Argv, now: int, ghost s: Server, ghost l: Lazy)
      requires Valid() && d < |dbs| && |argv| >= 4 && Fits(argv) && View() == Reached(s, l)
      modifies this`dbs, this`dirty, aof
      ensures Valid() && d < |l.w|
      ensures var t := TouchBitOp(l, d, argv, now); var (db, changed) := BitOpKeys(t.w[d], argv);
        View() == Reached(s, t).(w := t.w[d := db]) && dirty == old(dirty) + (if changed then 1 else 0)
    {
      hide Fed, Deletions, Reached, Touch, OperationOf, TouchSources, MaxLen, Result, Sources, SetKey, DbDelete,
        FromBits;
      AtWorld(s, l);
      ArgumentsFit(argv);
      var op := OperationOf(argv[1]);
      if op == None { assert dbs[d := dbs[d]] == dbs; return; }
      if op.value == Not && |argv| != 4 { assert dbs[d := dbs[d]] == dbs; return; }
      ghost var t := TouchSources(l, d, argv[3..], now);
      var src := LookupSources(d, argv[3..], now, s, l);
      AtWorld(s, t);
      if src == None { assert dbs[d := dbs[d]] == dbs; return; }
      SourcesSettled(l, d, argv[3..], argv[2], now);
      StoreResult(d, op.value, src.value, argv[2], now, s, t);
      dirty := dirty + 1;
    }

    method StoreResult(d: nat, op: Operation, src: seq<Bits>, target: Bytestring, now: int, ghost s: Server,
        ghost l: Lazy)
      requires Valid() && d < |dbs| && |target| <= INT64_MAX && src != [] && (op == Not ==> |src| == 1)
        && View() == Reached(s, l)
      modifies this`dbs, aof
      ensures Valid() && d < |l.w|
      ensures var t := if MaxLen(src) > 0 then Touch(l, d, target, now) else l;
        View() == Reached(s, t)
          .(w := t.w[d := if MaxLen(src) > 0 then SetKey(t.w[d], target, Str(FromBits(Result(op, src))))
                                              else DbDelete(t.w[d], target)])
    {
      hide Fed, Deletions, Reached, Touch, MaxLen, Result, SetKey, DbDelete, FromBits;
      AtWorld(s, l);
      var maxlen := MaxLen(src);
      if maxlen > 0 {
        var res := Bitops.BitOp(op, src);
        SetKeyTo(d, target, Str(FromBits(res)), now, s, l);
      } else {
        dbs := dbs[d := DbDelete(dbs[d], target)];
      }
    }

    // ----- lists, sets, hashes -----

    /** pushGenericCommand, at the tail. */
    method PushCommand(d: nat, key: Bytestring, items: Argv, now: int, ghost s: Server, ghost l: Lazy)
      requires Valid() && d < |dbs| && |key| <= INT64_MAX && items != [] && View() == Reached(s, l)
      modifies this`dbs, this`dirty, aof
      ensures Valid() && d < |l.w|
      ensures var t := Touch(l, d, key, now); var (db, changed) := PushTail(t.w[d], key, items);
        View() == Reached(s, t).(w := t.w[d := db]) && dirty >= old(dirty) && (dirty > old(dirty) <==> changed)
    {
      hide Fed, Deletions, Reached, Touch;
      AtWorld(s, l);
      AtWorld(s, Touch(l, d, key, now));
      var o := LookupKey(d, key, now, s, l);
      if o.Some? && !o.value.List? { assert dbs[d := dbs[d]] == dbs; return; }
      var lobj := if o == None then [] else o.value.items;
      ghost var before := lobj;
      var j := 0;
      while j < |items|
        invariant 0 <= j <= |items| && lobj == before + items[..j]
      {
        assert before + items[..j] + [items[j]] == before + items[..j + 1];
        lobj := lobj + [items[j]];
        j := j + 1;
      }
      assert items[..|items|] == items && [] + items == items;
      dbs := dbs[d := Overwrite(dbs[d], key, List(lobj))];
      dirty := dirty + |items|;
    }

    /** saddCommand. */
    method SAddCommand(d: nat, key: Bytestring, items: Argv, now: int, ghost s: Server, ghost l: Lazy)
      requires Valid() && d < |dbs| && |key| <= INT64_MAX && items != [] && View() == Reached(s, l)
      modifies this`dbs, this`dirty, aof
      ensures Valid() && d < |l.w|
      ensures var t := Touch(l, d, key, now); var (db, changed) := AddMembers(t.w[d], key, items);
        View() == Reached(s, t).(w := t.w[d := db]) && dirty >= old(dirty) && (dirty > old(dirty) <==> changed)
    {
      hide Fed, Deletions, Reached, Touch;
      AtWorld(s, l);
      AtWorld(s, Touch(l, d, key, now));
      var o := LookupKey(d, key, now, s, l);
      if o.Some? && !o.value.Set? { assert dbs[d := dbs[d]] == dbs; return; }
      var members: set<Bytestring> := if o == None then {} else o.value.members;
      var all, added := AddAll(members, items);
      assert items[0] in Members(items);
      assert {} + Members(items) == Members(items);
      hide Members;
      dbs := dbs[d := Overwrite(dbs[d], key, Value.Set(all))];
      dirty := dirty + added;
    }

    /** The loop of saddCommand. */
    static method AddAll(members: set<Bytestring>, items: Argv) returns (all: set<Bytestring>, added: nat)
      ensures all == members + Members(items) && (added == 0 <==> Members(items) <= members)
    {
      all, added := members, 0;
      var j := 0;
      while j < |items|
        invariant 0 <= j <= |items| && all == members + Members(items[..j])
        invariant added == 0 <==> Members(items[..j]) <= members
      {
        MembersSnoc(items, j);
        if items[j] !in all { added := added + 1; }
        all := all + {items[j]};
        j := j + 1;
      }
      assert items[..|items|] == items;
    }

    /** hmsetCommand, its arguments in pairs. */
    method HMSetCommand(d: nat, key: Bytestring, pairs: Argv, now: int, ghost s: Server, ghost l: Lazy)
      requires Valid() && d < |dbs| && |key| <= INT64_MAX && |pairs| % 2 == 0 && View() == Reached(s, l)
      modifies this`dbs, this`dirty, aof
      ensures Valid() && d < |l.w|
      ensures var t := Touch(l, d, key, now); var (db, changed) := SetHash(t.w[d], key, pairs);
        View() == Reached(s, t).(w := t.w[d := db]) && dirty == old(dirty) + (if changed then 1 else 0)
    {
      hide Fed, Deletions, Reached, Touch;
      AtWorld(s, l);
      AtWorld(s, Touch(l, d, key, now));
      var o := LookupKey(d, key, now, s, l);
      if o.Some? && !o.value.Hash? { assert dbs[d := dbs[d]] == dbs; return; }
      var fields: map<Bytestring, Bytestring> := if o == None then map[] else o.value.fields;
      ghost var before := fields;
      var rest := pairs;
      while rest != []
        invariant |rest| % 2 == 0 && SetFields(fields, rest) == SetFields(before, pairs)
        decreases |rest|
      {
        fields := fields[rest[0] := rest[1]];
        rest := rest[2..];
      }
      dbs := dbs[d := Overwrite(dbs[d], key, Hash(fields))];
      dirty := dirty + 1;
    }

    // ----- redis.c -----

    /** The option loop of setCommand. */
    static method ParseSet(argv: Argv) returns (r: Option<SetRequest>)
      requires |argv| >= 3
      ensures r == AsSet(Command.Set, argv)
    {
      hide IsWord;
      var req := SetRequest(argv[1], argv[2], false, false, None);
      var rest := argv[3..];
      while rest != []
        invariant SetOptions(req, rest) == AsSet(Command.Set, argv)
        decreases |rest|
      {
        var a, next := rest[0], |rest| > 1;
        if IsWord(a, "nx") {
          req, rest := req.(nx := true), rest[1..];
        } else if IsWord(a, "xx") {
          req, rest := req.(xx := true), rest[1..];
        } else if IsWord(a, "ex") && next {
          req, rest := req.(ttl := Some(Ttl(rest[1], 1000))), rest[2..];
        } else if IsWord(a, "px") && next {
          req, rest := req.(ttl := Some(Ttl(rest[1], 1))), rest[2..];
        } else {
          return None;
        }
      }
      return Some(req);
    }

    method SetFamily(d: nat, c: Command, argv: Argv, now: int)
      requires Valid() && d < |dbs| && ArityOk(c, |argv|) && Fits(argv) && c in {Command.Set, SetNx, SetEx, PSetEx}
      modifies this`dbs, this`dirty, aof
      ensures Valid() && Did(old(View()), View(), d, c, argv, now, argv, dirty - old(dirty))
    {
      ghost var s, l := View(), Lazy(dbs, []);
      hide Fed, Deletions, Touch, SetGeneric, SetOptions, Milliseconds;
      StartsHere(s);
      assert argv[1] in argv;
      var r;
      match c {
        case Set => r := ParseSet(argv);
        case SetNx => r := Some(SetRequest(argv[1], argv[2], true, false, None));
        case SetEx => r := Some(SetRequest(argv[1], argv[3], false, false, Some(Ttl(argv[2], 1000))));
        case PSetEx => r := Some(SetRequest(argv[1], argv[3], false, false, Some(Ttl(argv[2], 1))));
      }
      assert r == AsSet(c, argv);
      hide AsSet;
      assert dbs[d := dbs[d]] == dbs;
      if r == None { return; }
      SetsFirst(c, argv);
      SetGenericCommand(d, r.value, now, s, l);
    }

    method DeleteFamily(d: nat, c: Command, argv: Argv, now: int)
      requires Valid() && WorldOk(dbs) && d < |dbs| && ArityOk(c, |argv|) && c in {Del, Persist, FlushDb, FlushAll}
      modifies this`dbs, this`dirty
      ensures Valid() && Did(old(View()), View(), d, c, argv, now, argv, dirty - old(dirty))
    {
      ghost var s, l := View(), Lazy(dbs, []);
      hide Fed, Deletions, Reached, DeleteAll, PersistKey, DbOk;
      StartsHere(s);
      match c
      case Del => DelCommand(d, argv[1..]);
      case Persist => PersistCommand(d, argv[1]);
      case FlushDb => FlushDbCommand(d);
      case FlushAll => FlushAllCommand();
    }

    method RenameFamily(d: nat, c: Command, argv: Argv, now: int)
      requires Valid() && d < |dbs| && ArityOk(c, |argv|) && Fits(argv) && c in {Rename, RenameNx, Move}
      modifies this`dbs, this`dirty, aof
      ensures Valid() && Did(old(View()), View(), d, c, argv, now, argv, dirty - old(dirty))
    {
      ghost var s, l := View(), Lazy(dbs, []);
      hide Fed, Deletions, Reached, TouchBoth, RenameGeneric, MoveKey, Atoi;
      StartsHere(s);
      ArgumentsShort(argv);
      match c
      case Rename => RenameGenericCommand(d, argv[1], argv[2], false, now, s, l);
      case RenameNx => RenameGenericCommand(d, argv[1], argv[2], true, now, s, l);
      case Move => MoveCommand(d, argv[1], argv[2], now, s, l);
    }

    method ExpireFamily(d: nat, c: Command, argv: Argv, now: int) returns (args: Argv)
      requires Valid() && d < |dbs| && ArityOk(c, |argv|) && Fits(argv) && c in {Expire, PExpire, ExpireAt, PExpireAt}
      modifies this`dbs, this`dirty, aof
      ensures Valid() && Did(old(View()), View(), d, c, argv, now, args, dirty - old(dirty))
    {
      ghost var s, l := View(), Lazy(dbs, []);
      hide Fed, Deletions, Touch, Reached, ExpireGeneric, When;
      StartsHere(s);
      ArgumentsShort(argv);
      args := ExpireGenericCommand(d, c, argv, now, s, l);
    }

    method GetSetCommand(d: nat, argv: Argv, now: int)
      requires Valid() && d < |dbs| && ArityOk(GetSet, |argv|) && Fits(argv)
      modifies this`dbs, this`dirty, aof
      ensures Valid() && Did(old(View()), View(), d, GetSet, argv, now, argv, dirty - old(dirty))
    {
      ghost var s, l := View(), Lazy(dbs, []);
      hide Fed, Deletions, Touch, Reached, SetKey;
      StartsHere(s);
      ArgumentsShort(argv);
      ghost var t := Touch(l, d, argv[1], now);
      AtWorld(s, t);
      TouchAgain(l, d, argv[1], now);
      var o := LookupKey(d, argv[1], now, s, l);
      assert dbs[d := dbs[d]] == dbs;
      if o.Some? && !o.value.Str? { return; }
      SetKeyTo(d, argv[1], Str(argv[2]), now, s, t);
      dirty := dirty + 1;
    }

    method BitFamily(d: nat, c: Command, argv: Argv, now: int)
      requires Valid() && d < |dbs| && ArityOk(c, |argv|) && Fits(argv) && c in {SetBit, BitOp}
      modifies this`dbs, this`dirty, aof
      ensures Valid() && Did(old(View()), View(), d, c, argv, now, argv, dirty - old(dirty))
    {
      ghost var s, l := View(), Lazy(dbs, []);
      hide Fed, Deletions, Touch, Reached, TouchBitOp, SetBitAt, BitOpKeys, BitOffset, BitValue;
      StartsHere(s);
      ArgumentsShort(argv);
      assert dbs[d := dbs[d]] == dbs;
      if c == BitOp { BitOpCommand(d, argv, now, s, l); return; }
      var offset, on := BitOffset(argv[2]), BitValue(argv[3]);
      if offset == None || on == None { return; }
      SetBitCommand(d, argv[1], offset.value, on.value, now, s, l);
    }

    method CollectionFamily(d: nat, c: Command, argv: Argv, now: int)
      requires Valid() && d < |dbs| && ArityOk(c, |argv|) && Fits(argv) && c in {RPush, SAdd, HMSet}
      modifies this`dbs, this`dirty, aof
      ensures Valid() && Did(old(View()), View(), d, c, argv, now, argv, dirty - old(dirty))
    {
      ghost var s, l := View(), Lazy(dbs, []);
      hide Fed, Deletions, Touch, Reached, PushTail, AddMembers, SetHash;
      StartsHere(s);
      ArgumentsShort(argv);
      assert dbs[d := dbs[d]] == dbs;
      match c
      case RPush => PushCommand(d, argv[1], argv[2..], now, s, l);
      case SAdd => SAddCommand(d, argv[1], argv[2..], now, s, l);
      case HMSet =>
        if |argv| % 2 == 1 { HashOdd(dbs[d], argv); return; }
        HMSetCommand(d, argv[1], argv[2..], now, s, l);
    }

    /** The commands that only look. */
    method ReadFamily(d: nat, c: Command, argv: Argv, now: int)
      requires Valid() && d < |dbs| && ArityOk(c, |argv|) && Fits(argv)
      requires c in {Get, Exists, Type, GetBit, Select, Multi, Exec}
      modifies this`dbs, aof
      ensures Valid() && dirty == old(dirty) && Did(old(View()), View(), d, c, argv, now, argv, 0)
    {
      ghost var s, l := View(), Lazy(dbs, []);
      hide Fed, Deletions, Touch, Reached, BitOffset;
      StartsHere(s);
      ArgumentsShort(argv);
      assert dbs[d := dbs[d]] == dbs;
      if c == Select || c == Multi || c == Exec { return; }
      if c == GetBit && BitOffset(argv[2]) == None { return; }
      ghost var t := Touch(l, d, argv[1], now);
      AtWorld(s, t);
      var o := LookupKey(d, argv[1], now, s, l);
      assert dbs[d := dbs[d]] == dbs;
    }

    /** c->cmd->proc. */
    method Proc(d: nat, c: Command, argv: Argv, now: int) returns (args: Argv)
      requires Valid() && WorldOk(dbs) && d < |dbs| && ArityOk(c, |argv|) && Fits(argv)
      modifies this`dbs, this`dirty, aof
      ensures Valid() && dirty >= old(dirty) && Did(old(View()), View(), d, c, argv, now, args, dirty - old(dirty))
    {
      hide Did, WorldOk, Fits, ArityOk;
      args := argv;
      match c {
        case Set | SetNx | SetEx | PSetEx => SetFamily(d, c, argv, now);
        case GetSet => GetSetCommand(d, argv, now);
        case SetBit | BitOp => BitFamily(d, c, argv, now);
        case RPush | SAdd | HMSet => CollectionFamily(d, c, argv, now);
        case Del | Persist | FlushDb | FlushAll => DeleteFamily(d, c, argv, now);
        case Rename | RenameNx | Move => RenameFamily(d, c, argv, now);
        case Expire | PExpire | ExpireAt | PExpireAt => args := ExpireFamily(d, c, argv, now);
        case Get | Exists | Type | GetBit | Select | Multi | Exec => ReadFamily(d, c, argv, now);
      }
      DidMore(old(View()), View(), d, c, argv, now, args, dirty - old(dirty));
    }

    /** call, with propagate. */
    method CallCommand(d: nat, argv: Argv, now: int)
      requires Valid() && WorldOk(dbs) && d < |dbs| && Runnable(argv) && Fits(argv)
      modifies this`dbs, this`dirty, aof
      ensures Valid() && dirty >= old(dirty)
      ensures var r := Call(old(dbs), d, argv, now); View() == Fed(old(View()).(w := r.w), r.fed)
    {
      hide Did, Fed, Translate, Lookup, WorldOk, Fits;
      var before := dirty;
      ghost var s := View();
      var args := Proc(d, Lookup(argv[0]).value, argv, now);
      DidRecords(s, View(), d, argv, now, args, dirty - before);
      if dirty - before != 0 && aof.mode != Off {
        aof.FeedAppendOnlyFile(d, args, now, dbs);
      } else if dirty - before != 0 {
        OffFeedsNothing(View(), [Record(d, Translate(args, now))]);
      }
    }

    /** The deletions of activeExpireCycle and freeMemoryIfNeeded. */
    method DropKey(d: nat, key: Bytestring, now: int)
      requires Valid() && d < |dbs| && |key| <= INT64_MAX
      modifies this`dbs, aof
      ensures Valid() && View() == Step(old(View()), Drop(d, key))
    {
      hide Fed;
      ghost var w := dbs[d := DbDelete(dbs[d], key)];
      FedKeepsWorld(View(), [Record(d, [[DEL, key]])], w);
      PropagateExpire(d, key, now);
      dbs := dbs[d := DbDelete(dbs[d], key)];
    }

    // ----- multi.c -----

    /** execCommandPropagateMulti. */
    method PropagateMulti(d: nat, now: int)
      requires Valid() && d < |dbs|
      modifies aof
      ensures Valid() && View() == Fed(old(View()), [Record(d, [[MULTI]])])
    {
      hide Fed, Lookup, Translate;
      MultiTranslates(now);
      if aof.mode != Off {
        aof.FeedAppendOnlyFile(d, [MULTI], now, dbs);
      } else {
        OffFeedsNothing(View(), [Record(d, [[MULTI]])]);
      }
    }

    /** execCommand, not aborted, and the propagation of EXEC itself by call: the queue is run, and
        MULTI and EXEC are fed around it if anything but reads is in it. */
    method ExecCommand(d: nat, queue: seq<Queued>, exec: Argv) returns (db: nat)
      requires Valid() && WorldOk(dbs) && d < |dbs| && Runnable(exec) && Lookup(exec[0]).value == Exec && Fits(exec)
      requires GoodQueue(queue)
      modifies this`dbs, this`dirty, aof
      ensures Valid() && db == ExecQueue(Txn(old(dbs), d, [], false), queue).db
      ensures var r := Transaction(old(dbs), d, queue, exec); View() == Fed(old(View()).(w := r.w), r.fed)
    {
      hide Fed, Lookup, WorldOk, Fits, GoodQueue, ExecQueue;
      ghost var s, start := View(), Txn(dbs, d, [], false);
      var mustPropagate;
      db, mustPropagate := ExecLoop(d, queue, s);
      PropagateExec(db, exec, mustPropagate, s, ExecQueue(start, queue));
    }

    method ExecLoop(d: nat, queue: seq<Queued>, ghost s: Server) returns (db: nat, mustPropagate: bool)
      requires Valid() && WorldOk(dbs) && d < |dbs| && GoodQueue(queue) && View() == s
      modifies this`dbs, this`dirty, aof
      ensures var x := ExecQueue(Txn(s.w, d, [], false), queue);
        Valid() && db == x.db && mustPropagate == x.open && dbs == x.w && View() == Fed(s.(w := x.w), x.fed)
    {
      hide Fed, Lookup, WorldOk, GoodQueue, ExecQueue, ExecOne, Runnable;
      db, mustPropagate := d, false;
      ghost var x := Txn(dbs, d, [], false);
      ghost var all := ExecQueue(x, queue);
      FedNothing(s);
      var rest := queue;
      while rest != []
        invariant Valid() && WorldOk(dbs) && db < |dbs| && GoodQueue(rest)
        invariant x.w == dbs && x.db == db && x.open == mustPropagate && ExecQueue(x, rest) == all
        invariant View() == Fed(s.(w := x.w), x.fed)
        decreases |rest|
      {
        var q := rest[0];
        GoodHead(rest);
        ExecQueueStep(x, rest);
        ghost var y := ExecOne(x, q);
        db, mustPropagate := ExecStep(db, q, mustPropagate, s, x);
        x, rest := y, rest[1..];
      }
      ExecQueueEnd(x);
    }

    /** EXEC goes to the log if MULTI did. */
    method PropagateExec(db: nat, exec: Argv, mustPropagate: bool, ghost s: Server, ghost x: Txn)
      requires Valid() && db < |dbs| && Runnable(exec) && Lookup(exec[0]).value == Exec && Fits(exec)
      requires x.db == db && View() == Fed(s.(w := x.w), x.fed)
      modifies this`dirty, aof
      ensures Valid()
      ensures View() == Fed(s.(w := x.w), x.fed + (if mustPropagate then [Record(db, [exec])] else []))
    {
      hide Fed, Lookup, Fits, Translate;
      if mustPropagate {
        dirty := dirty + 1;
        FedTwice(s.(w := x.w), x.fed, [Record(db, [exec])]);
        ExecTranslates(exec, 0);
        if aof.mode != Off {
          aof.FeedAppendOnlyFile(db, exec, 0, dbs);
        } else {
          OffFeedsNothing(View(), [Record(db, [exec])]);
        }
      } else {
        var nil: seq<Record> := [];
        assert x.fed + nil == x.fed;
      }
    }

    /** One queued command: MULTI before the first that is not a read, then call. */
    method ExecStep(db: nat, q: Queued, mustPropagate: bool, ghost s: Server, ghost x: Txn) returns (e: nat, must: bool)
      requires Valid() && WorldOk(dbs) && db < |dbs| && Queueable(q) && Fits(q.argv) && IsTime(q.now)
      requires x.w == dbs && x.db == db && x.open == mustPropagate && View() == Fed(s.(w := x.w), x.fed)
      modifies this`dbs, this`dirty, aof
      ensures Valid() && WorldOk(dbs) && e < |dbs|
      ensures var y := ExecOne(x, q); y.w == dbs && y.db == e && y.open == must && View() == Fed(s.(w := y.w), y.fed)
    {
      hide Fed, Lookup, WorldOk, Fits, Call, IsTime, SelectedDb;
      ExecOneOk(x, q);
      var c := Lookup(q.argv[0]).value;
      must := mustPropagate || !ReadOnly(c);
      if !mustPropagate && !ReadOnly(c) { PropagateMulti(db, q.now); }
      e := if c == Select then SelectedDb(q.argv[1], db, |dbs|) else db;
      CallInTxn(db, q, s, x);
    }

    method CallInTxn(db: nat, q: Queued, ghost s: Server, ghost x: Txn)
      requires Valid() && WorldOk(dbs) && db < |dbs| && Queueable(q) && Fits(q.argv)
      requires x.w == dbs && x.db == db
      requires View() == Fed(Fed(s.(w := x.w), x.fed), Opening(x, Lookup(q.argv[0]).value)) ||
               (Opening(x, Lookup(q.argv[0]).value) == [] && View() == Fed(s.(w := x.w), x.fed))
      modifies this`dbs, this`dirty, aof
      ensures Valid()
      ensures var y := ExecOne(x, q); y.w == dbs && View() == Fed(s.(w := y.w), y.fed)
    {
      hide Fed, Lookup, WorldOk, Fits, Call, SelectedDb;
      ghost var open := Opening(x, Lookup(q.argv[0]).value);
      hide Opening;
      FedNothing(View());
      FedTwice(s.(w := x.w), x.fed, open);
      assert View() == Fed(s.(w := x.w), x.fed + open);
      CallCommand(db, q.argv, q.now);
      ghost var r := Call(x.w, db, q.argv, q.now);
      FedKeepsWorld(s.(w := x.w), x.fed + open, r.w);
      FedTwice(s.(w := r.w), x.fed + open, r.fed);
      AtLeastWorld(s.(w := r.w), x.fed + open + r.fed);
    }
  }

  /** Commands as processCommand queues them, each run at some time. */
  ghost predicate GoodQueue(queue: seq<Queued>)
    ensures GoodQueue(queue) ==> forall q :: q in queue ==> Queueable(q)
  {
    forall q :: q in queue ==> Queueable(q) && Fits(q.argv) && IsTime(q.now)
  }

  lemma GoodHead(queue: seq<Queued>)
    requires GoodQueue(queue) && queue != []
    ensures Queueable(queue[0]) && Runnable(queue[0].argv) && Fits(queue[0].argv) && IsTime(queue[0].now)
      && GoodQueue(queue[1..])
  {
    hide Runnable, Fits;
    assert queue[0] in queue;
  }

  lemma ExecQueueStep(x: Txn, queue: seq<Queued>)
    requires x.db < |x.w| && GoodQueue(queue) && queue != [] && Queueable(queue[0]) && GoodQueue(queue[1..])
    ensures ExecQueue(x, queue) == ExecQueue(ExecOne(x, queue[0]), queue[1..])
  {
    hide GoodQueue, ExecOne;
  }

  lemma ExecQueueEnd(x: Txn)
    requires x.db < |x.w|
    ensures ExecQueue(x, []) == x
  {
  }

  lemma AtLeastWorld(s: Server, fed: seq<Record>)
    ensures Fed(s, fed).w == s.w
  {
  }

  lemma ExecOneOk(x: Txn, q: Queued)
    requires WorldOk(x.w) && x.db < |x.w| && Queueable(q) && IsTime(q.now)
    ensures var y := ExecOne(x, q); WorldOk(y.w) && y.db < |y.w| == |x.w|
  {
    hide Call, Lookup, WorldOk, SetsRelativeTime;
    CallReplays(x.w, x.db, q.argv, q.now, false, 0);
  }

  lemma ExecTranslates(exec: Argv, now: int)
    requires Runnable(exec) && Lookup(exec[0]).value == Exec
    ensures Translate(exec, now) == [exec]
  {
    hide Lookup;
  }

  lemma MultiTranslates(now: int)
    ensures Runnable([MULTI]) && Fits([MULTI]) && Translate([MULTI], now) == [[MULTI]]
  {
    hide Lookup, ExpireAtCommand;
    Names();
  }

  lemma DidMore(s: Server, v: Server, d: nat, c: Command, argv: Argv, now: int, args: Argv, changes: int)
    requires d < |s.w| && ArityOk(c, |argv|) && Did(s, v, d, c, argv, now, args, changes)
    ensures changes >= 0
  {
    hide Looked, Effect, Reached;
  }

  /** What is fed afterwards completes the call. */
  lemma DidRecords(s: Server, v: Server, d: nat, argv: Argv, now: int, args: Argv, changes: int)
    requires d < |s.w| && Runnable(argv) && Fits(argv)
    requires Did(s, v, d, Lookup(argv[0]).value, argv, now, args, changes)
    ensures Runnable(args) && Fits(args)
    ensures var r := Call(s.w, d, argv, now);
      Fed(s.(w := r.w), r.fed) == if changes == 0 then v else Fed(v, [Record(d, Translate(args, now))])
  {
    hide Lookup, Looked, Effect, Translate, Fed, Fits, Deletions;
    var c := Lookup(argv[0]).value;
    var t := Looked(Lazy(s.w, []), d, c, argv, now);
    var o := Effect(t.w, d, c, argv, Clock(now, false));
    RewrittenRunnable(t.w, d, argv, Clock(now, false));
    RewrittenFits(argv);
    FedKeepsWorld(s.(w := t.w), Deletions(t.gone), o.w);
    var nil: seq<Record> := [];
    assert Deletions(t.gone) + nil == Deletions(t.gone);
    FedTwice(s.(w := o.w), Deletions(t.gone), [Record(d, Translate(o.argv, now))]);
  }

  /** The server s became v by a command: its lookups and then its effect, the argument vector left
      as `args`, and `changes` added to server.dirty. */
  ghost predicate Did(s: Server, v: Server, d: nat, c: Command, argv: Argv, now: int, args: Argv, changes: int)
    requires d < |s.w| && ArityOk(c, |argv|)
  {
    var t := Looked(Lazy(s.w, []), d, c, argv, now);
    var o := Effect(t.w, d, c, argv, Clock(now, false));
    v == Reached(s, t).(w := o.w) && args == o.argv && changes >= 0 && (changes > 0 <==> o.dirty)
  }

  lemma StartsHere(s: Server)
    ensures Reached(s, Lazy(s.w, [])) == s
  {
    FedNothing(s);
  }

  lemma ArgumentsShort(argv: Argv)
    requires Fits(argv)
    ensures forall i :: 0 <= i < |argv| ==> |argv[i]| <= INT64_MAX
  {
  }

  lemma SetsFirst(c: Command, argv: Argv)
    requires ArityOk(c, |argv|) && AsSet(c, argv).Some?
    ensures AsSet(c, argv).value.key == argv[1]
  {
    if c == Command.Set { OptionsKeepKey(SetRequest(argv[1], argv[2], false, false, None), argv[3..]); }
  }

  lemma {:induction false} OptionsKeepKey(r: SetRequest, rest: Argv)
    requires SetOptions(r, rest).Some?
    ensures SetOptions(r, rest).value.key == r.key
    decreases |rest|
  {
    hide IsWord;
    if rest == [] {
    } else if IsWord(rest[0], "nx") {
      OptionsKeepKey(r.(nx := true), rest[1..]);
    } else if IsWord(rest[0], "xx") {
      OptionsKeepKey(r.(xx := true), rest[1..]);
    } else if IsWord(rest[0], "ex") {
      OptionsKeepKey(r.(ttl := Some(Ttl(rest[1], 1000))), rest[2..]);
    } else {
      OptionsKeepKey(r.(ttl := Some(Ttl(rest[1], 1))), rest[2..]);
    }
  }

  lemma HashOdd(db: Db, argv: Argv)
    requires |argv| >= 4 && |argv| % 2 == 1
    ensures SetHash(db, argv[1], argv[2..]) == (db, false)
  {
  }

  lemma MembersSnoc(items: Argv, j: nat)
    requires j < |items|
    ensures Members(items[..j + 1]) == Members(items[..j]) + {items[j]}
  {
    assert items[..j + 1] == items[..j] + [items[j]];
  }

  lemma ArgumentsFit(argv: Argv)
    requires Fits(argv) && |argv| >= 4
    ensures |argv[2]| <= INT64_MAX && forall k :: k in argv[3..] ==> |k| <= INT64_MAX
  {
    assert argv[2] in argv;
  }

  /** Once the sources have been looked up and are all strings, looking up the target does not
      change them. */
  lemma SourcesSettled(l: Lazy, d: nat, keys: Argv, target: Bytestring, now: int)
    requires d < |l.w|
    ensures var t := TouchSources(l, d, keys, now);
      Sources(t.w[d], keys).Some? ==> Sources(Touch(t, d, target, now).w[d], keys) == Sources(t.w[d], keys)
  {
    var t := TouchSources(l, d, keys, now);
    if Sources(t.w[d], keys).Some? {
      SourcesClean(l, d, keys, now);
      SourcesStay(t, d, keys, target, now);
    }
  }

  lemma {:induction false} SourcesClean(l: Lazy, d: nat, keys: Argv, now: int)
    requires d < |l.w| && Sources(TouchSources(l, d, keys, now).w[d], keys).Some?
    ensures forall k :: k in keys ==> !Expired(TouchSources(l, d, keys, now).w[d], k, now)
    decreases |keys|
  {
    if keys != [] {
      var t := Touch(l, d, keys[0], now);
      StaysAfter(l, d, keys[0], now);
      hide Touch, Expired, StringOf;
      if StringOf(t.w[d], keys[0]) != None {
        SourcesClean(t, d, keys[1..], now);
        CleanStays(t, d, keys[1..], keys[0], now);
      }
    }
  }

  lemma {:induction false} CleanStays(l: Lazy, d: nat, keys: Argv, key: Bytestring, now: int)
    requires d < |l.w| && !Expired(l.w[d], key, now)
    ensures !Expired(TouchSources(l, d, keys, now).w[d], key, now)
    decreases |keys|
  {
    if keys != [] {
      TouchStays(l, d, keys[0], key, now);
      hide Touch, StringOf, Expired;
      CleanStays(Touch(l, d, keys[0], now), d, keys[1..], key, now);
    }
  }

  lemma {:induction false} SourcesStay(l: Lazy, d: nat, keys: Argv, target: Bytestring, now: int)
    requires d < |l.w| && forall k :: k in keys ==> !Expired(l.w[d], k, now)
    ensures Sources(Touch(l, d, target, now).w[d], keys) == Sources(l.w[d], keys)
    decreases |keys|
  {
    if keys != [] {
      assert keys[0] in keys;
      TouchStays(l, d, target, keys[0], now);
      hide Touch, StringOf, Expired;
      SourcesStay(l, d, keys[1..], target, now);
    }
  }

  /** A key that holds a string and has not expired still does after further lookups. */
  lemma {:induction false} TouchedStays(l: Lazy, d: nat, keys: Argv, key: Bytestring, now: int)
    requires d < |l.w| && !Expired(l.w[d], key, now)
    ensures var t := TouchSources(l, d, keys, now); StringOf(t.w[d], key) == StringOf(l.w[d], key)
    decreases |keys|
  {
    if keys != [] {
      TouchStays(l, d, keys[0], key, now);
      hide Touch, StringOf, Expired;
      TouchedStays(Touch(l, d, keys[0], now), d, keys[1..], key, now);
    }
  }

  lemma TouchStays(l: Lazy, d: nat, other: Bytestring, key: Bytestring, now: int)
    requires d < |l.w| && !Expired(l.w[d], key, now)
    ensures var t := Touch(l, d, other, now);
      StringOf(t.w[d], key) == StringOf(l.w[d], key) && !Expired(t.w[d], key, now)
  {
  }

  lemma StaysAfter(l: Lazy, d: nat, key: Bytestring, now: int)
    requires d < |l.w|
    ensures !Expired(Touch(l, d, key, now).w[d], key, now)
  {
  }

  /** Looking up one key leaves the others alone. */
  lemma TouchOther(l: Lazy, d: nat, key: Bytestring, other: Bytestring, now: int)
    requires d < |l.w| && key != other
    ensures var t := Touch(l, d, key, now);
      && (other in t.w[d].dict <==> other in l.w[d].dict) && GetExpire(t.w[d], other) == GetExpire(l.w[d], other)
      && (other in l.w[d].dict ==> t.w[d].dict[other] == l.w[d].dict[other])
  {
  }

  lemma DelFits(key: Bytestring)
    requires |key| <= INT64_MAX
    ensures Fits([DEL, key])
  {
  }

  lemma OffFeedsNothing(s: Server, fed: seq<Record>)
    requires s.mode == Off
    ensures Fed(s, fed) == s
  {
  }

  lemma AtWorld(s: Server, l: Lazy)
    ensures Reached(s, l).w == l.w
  {
  }

  lemma FedKeepsWorld(s: Server, fed: seq<Record>, w: World)
    ensures Fed(s.(w := w), fed) == Fed(s, fed).(w := w)
  {
  }
}
