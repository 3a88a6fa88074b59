/** What SETBIT and BITOP do to the databases when they are called, said bit by bit. */
module BitLaws {
  import opened Bytes
  import opened Wire
  import opened Strtol
  import opened Commands
  import opened Keyspace
  import opened BitString
  import opened Effects
  import opened Propagation
  import Bit = SetBit
  import opened CommandLaws
  import opened KeyLaws

  /** The string that a command finds at a key; none is the empty one. */
  function Found(db: Db, key: Bytestring, now: int): Bytestring
  {
    if Present(db, key, now) && db.dict[key].Str? then db.dict[key].bytes else []
  }

  /** The key holds something else than a string. */
  predicate Wrong(db: Db, key: Bytestring, now: int) { Present(db, key, now) && !db.dict[key].Str? }

  lemma FoundIs(db: Db, key: Bytestring, now: int)
    ensures StringOf(Swept(db, key, now), key) == if Wrong(db, key, now) then None else Some(Found(db, key, now))
  {
  }

  // ----- SETBIT -----

  /** The string with one bit written, and no longer than that takes. */
  ghost predicate BitSet(was: Bytestring, now: Bytestring, offset: nat, on: bool)
  {
    && |now| == (if |was| > offset / 8 then |was| else offset / 8 + 1)
    && forall i: nat :: Bit.GetBit(now, i) <==> if i == offset then on else Bit.GetBit(was, i)
  }

  lemma WithBitIs(s: Bytestring, offset: nat, on: nat)
    requires on <= 1
    ensures BitSet(s, WithBit(s, offset, on), offset, on == 1)
  {
    hide Bit.GetBit, ByteWithBit;
    assert |WithBit(s, offset, on)| == if |s| > offset / 8 then |s| else offset / 8 + 1;
    hide WithBit;
    forall i: nat ensures Bit.GetBit(WithBit(s, offset, on), i) <==> if i == offset then on == 1 else Bit.GetBit(s, i) {
      Bit.SetThenGet(s, offset, on, i);
    }
  }

  lemma BitOfByte(bit: nat)
    requires bit < 8
    ensures ByteWithBit(0, bit, 1) == [1, 2, 4, 8, 16, 32, 64, 128][bit]
  {
    Bit.Masks(bit);
    Bit.OnAt(bit, 1);
    assert (0 & !Bit.Mask(bit)) | Bit.Mask(bit) == Bit.Mask(bit);
    if bit == 0 {} else if bit == 1 {} else if bit == 2 {} else if bit == 3 {}
    else if bit == 4 {} else if bit == 5 {} else if bit == 6 {} else {}
  }

  /** The first bit of a byte is its highest. */
  lemma FirstBits(o: nat)
    requires o < 8
    ensures WithBit([], o, 1) == [[128, 64, 32, 16, 8, 4, 2, 1][o]]
  {
    BitOfByte(7 - o);
    hide ByteWithBit;
    assert Grow([], 1) == [0];
  }

  /** The offset is a number from 0 to 2^32 - 1, and the bit is 0 or 1. */
  predicate BitNamed(offset: Option<int>, bit: Option<int>)
  {
    offset.Some? && 0 <= offset.value < 0x1_0000_0000 && (bit == Some(0) || bit == Some(1))
  }

  lemma BitParsed(offset: Bytestring, bit: Bytestring)
    ensures BitNamed(GetLongLong(offset), GetLongLong(bit)) <==> BitOffset(offset).Some? && BitValue(bit).Some?
    ensures BitOffset(offset).Some? ==> Some(BitOffset(offset).value as int) == GetLongLong(offset)
    ensures BitValue(bit).Some? ==> Some(BitValue(bit).value as int) == GetLongLong(bit) && BitValue(bit).value <= 1
  {
    hide GetLongLong;
  }

  lemma SetBitEffect(db: Db, argv: Argv, now: int) returns (s: Bytestring)
    requires |argv| == 4
    ensures var key, o, b := argv[1], GetLongLong(argv[2]), GetLongLong(argv[3]);
      var looks := BitOffset(argv[2]).Some? && BitValue(argv[3]).Some?;
      var r := InDb(if looks then Swept(db, key, now) else db, Command.SetBit, argv, Clock(now, false));
      if BitNamed(o, b) && !Wrong(db, key, now) then
        r.1 && BitSet(Found(db, key, now), s, o.value, b == Some(1)) && r.0 == Changed(db, key, Str(s), now)
      else !r.1 && r.0 == db
  {
    var key, o, b := argv[1], BitOffset(argv[2]), BitValue(argv[3]);
    BitParsed(argv[2], argv[3]);
    FoundIs(db, key, now);
    s := Found(db, key, now);
    if o.Some? && b.Some? {
      WithBitIs(s, o.value, b.value);
      s := WithBit(s, o.value, b.value);
      ChangedIs(db, key, Str(s), now);
    }
    if Wrong(db, key, now) { SweptPresent(db, key, now); }
    hide GetLongLong, WithBit, BitSet, Overwrite, StringOf, Found, Changed, Swept, Wrong, BitOffset, BitValue, BitNamed;
  }

  /** SETBIT goes through if and only if the offset is a number from 0 to 2^32 - 1, the bit is 0 or 1, and the key holds
      nothing else than a string; the expire time of the key stays. */
  lemma SetBitLaw(w: World, d: nat, argv: Argv, now: int) returns (s: Bytestring)
    requires d < |w| && Is(argv, Command.SetBit)
    ensures var key, o, b, v := argv[1], GetLongLong(argv[2]), GetLongLong(argv[3]), After(w, d, argv, now);
      if BitNamed(o, b) && !Wrong(w[d], key, now) then
        && Logged(w, d, argv, now) && BitSet(Found(w[d], key, now), s, o.value, b == Some(1))
        && v == w[d := Changed(w[d], key, Str(s), now)]
      else !Logged(w, d, argv, now) && v == w
  {
    hide Lookup, After, Logged, GetLongLong, BitSet, Found, Changed, Swept, Wrong, BitOffset, BitValue, BitNamed;
    SimpleCall(w, d, argv, now);
    s := SetBitEffect(w[d], argv, now);
    assert w[d := w[d]] == w;
  }

  // ----- BITOP -----

  lemma CombinedBits(op: Operation, a: bv8, b: bv8, at: nat)
    requires at < 8
    ensures var x, y, z := Bit.IsSet(a, at), Bit.IsSet(b, at), Bit.IsSet(Combine(op, a, b), at);
      match op case And => z == (x && y) case Or => z == (x || y) case Xor => z == (x != y) case Not => z == x
  {
    Bit.Masks(at);
    if at == 0 {} else if at == 1 {} else if at == 2 {} else if at == 3 {}
    else if at == 4 {} else if at == 5 {} else if at == 6 {} else {}
  }

  lemma NegatedBits(a: bv8, at: nat)
    requires at < 8
    ensures Bit.IsSet(!a, at) == !Bit.IsSet(a, at)
  {
    Bit.Masks(at);
    if at == 0 {} else if at == 1 {} else if at == 2 {} else if at == 3 {}
    else if at == 4 {} else if at == 5 {} else if at == 6 {} else {}
  }

  /** The number of strings that have the bit. */
  function Having(strings: seq<Bytestring>, i: nat): nat
    decreases |strings|
  {
    if strings == [] then 0
    else Having(strings[..|strings| - 1], i) + if Bit.GetBit(strings[|strings| - 1], i) then 1 else 0
  }

  /** What the operation makes of one bit of all the strings. */
  predicate Together(op: Operation, strings: seq<Bytestring>, i: nat)
  {
    match op
    case And => Having(strings, i) == |strings|
    case Or => Having(strings, i) > 0
    case Xor => Having(strings, i) % 2 == 1
    case Not => Having(strings, i) == 0
  }

  lemma {:induction false} HavingBounds(strings: seq<Bytestring>, i: nat)
    ensures Having(strings, i) <= |strings|
    decreases |strings|
  {
    if strings != [] { HavingBounds(strings[..|strings| - 1], i); }
  }

  function AllBits(strings: seq<Bytestring>): (r: seq<Bits>)
    ensures |r| == |strings| && forall k :: 0 <= k < |r| ==> r[k] == ToBits(strings[k])
  {
    seq(|strings|, k requires 0 <= k < |strings| => ToBits(strings[k]))
  }

  lemma PaddedBit(s: Bytestring, i: nat)
    ensures Bit.IsSet(Padded(ToBits(s), i / 8), 7 - i % 8) == Bit.GetBit(s, i)
  {
    var at := 7 - i % 8;
    Bit.Masks(at);
  }

  lemma {:induction false} ColumnBit(op: Operation, strings: seq<Bytestring>, i: nat)
    requires strings != [] && (op == Not ==> |strings| == 1)
    ensures Bit.IsSet(Column(op, AllBits(strings), i / 8), 7 - i % 8) == Together(op, strings, i)
    decreases |strings|
  {
    hide Bit.IsSet, Bit.GetBit, Combine, Padded;
    var n, j, at := |strings| - 1, i / 8, 7 - i % 8;
    PaddedBit(strings[n], i);
    if n == 0 {
      NegatedBits(Padded(ToBits(strings[0]), j), at);
      assert Having(strings[..0], i) == 0;
    } else {
      var front := strings[..n];
      assert AllBits(strings)[..n] == AllBits(front);
      ColumnBit(op, front, i);
      HavingBounds(front, i);
      CombinedBits(op, Column(op, AllBits(front), j), Padded(ToBits(strings[n]), j), at);
    }
  }

  ghost predicate Longest(strings: seq<Bytestring>, n: nat)
  {
    (forall s :: s in strings ==> |s| <= n) && (n > 0 ==> exists s :: s in strings && |s| == n)
  }

  /** The result of an operation: as long as the longest string, and each bit what the operation makes of theirs. */
  ghost predicate Combined(op: Operation, strings: seq<Bytestring>, r: Bytestring)
  {
    Longest(strings, |r|) && forall i: nat :: i < 8 * |r| ==> (Bit.GetBit(r, i) <==> Together(op, strings, i))
  }

  lemma LongestIs(strings: seq<Bytestring>)
    ensures Longest(strings, MaxLen(AllBits(strings)))
  {
    var all, n := AllBits(strings), MaxLen(AllBits(strings));
    forall s | s in strings ensures |s| <= n {
      var k :| 0 <= k < |strings| && strings[k] == s;
      assert all[k] in all;
    }
    if n > 0 {
      var b :| b in all && |b| == n;
      var k :| 0 <= k < |all| && all[k] == b;
      assert strings[k] in strings;
    }
  }

  lemma ResultBit(op: Operation, strings: seq<Bytestring>, i: nat)
    requires strings != [] && (op == Not ==> |strings| == 1) && i < 8 * MaxLen(AllBits(strings))
    ensures Bit.GetBit(FromBits(Result(op, AllBits(strings))), i) == Together(op, strings, i)
  {
    var r := Result(op, AllBits(strings));
    ColumnBit(op, strings, i);
    Bit.ByteKept(r[i / 8]);
    hide Bit.IsSet, Together, Column, AllBits;
  }

  lemma ResultIs(op: Operation, strings: seq<Bytestring>)
    requires strings != [] && (op == Not ==> |strings| == 1)
    ensures Combined(op, strings, FromBits(Result(op, AllBits(strings))))
  {
    hide Bit.GetBit, Together, FromBits, Longest;
    var r := FromBits(Result(op, AllBits(strings)));
    LongestIs(strings);
    forall i: nat | i < 8 * |r| ensures Bit.GetBit(r, i) <==> Together(op, strings, i) { ResultBit(op, strings, i); }
  }

  /** The operation that a word names. */
  predicate Names(text: Bytestring, op: Operation)
  {
    match op
    case And => Reads(text, "and")
    case Or => Reads(text, "or")
    case Xor => Reads(text, "xor")
    case Not => Reads(text, "not")
  }

  lemma OperationIs(text: Bytestring, op: Operation)
    ensures OperationOf(text) == Some(op) <==> Names(text, op)
  {
    ReadsIsWord(text, "and");
    ReadsIsWord(text, "or");
    ReadsIsWord(text, "xor");
    ReadsIsWord(text, "not");
    hide IsWord;
    if |text| >= 2 {
      assert Reads(text, "and") ==> text[0] as int == "and"[0] as int || text[0] as int + 32 == "and"[0] as int;
      assert Reads(text, "or") ==> text[0] as int == "or"[0] as int || text[0] as int + 32 == "or"[0] as int;
      assert Reads(text, "xor") ==> text[0] as int == "xor"[0] as int || text[0] as int + 32 == "xor"[0] as int;
      assert Reads(text, "not") ==> text[0] as int == "not"[0] as int || text[0] as int + 32 == "not"[0] as int;
    }
  }

  /** The strings at the keys. */
  function FoundAll(db: Db, keys: Argv, now: int): (r: seq<Bytestring>)
    ensures |r| == |keys| && forall k :: 0 <= k < |r| ==> r[k] == Found(db, keys[k], now)
  {
    seq(|keys|, k requires 0 <= k < |keys| => Found(db, keys[k], now))
  }

  /** The database after a look at the keys. */
  function SweptAll(db: Db, keys: Argv, now: int): Db
  {
    var gone := set k | k in keys && Past(db, k, now);
    Db(db.dict - gone, db.expires - gone)
  }

  /** The target holds the result, unless that is empty. */
  function Replaced(db: Db, target: Bytestring, r: Bytestring): Db
  {
    if r == [] then Without(db, target) else Holding(db, target, Str(r))
  }

  lemma SweptFirst(db: Db, keys: Argv, now: int)
    requires keys != []
    ensures SweptAll(Swept(db, keys[0], now), keys[1..], now) == SweptAll(db, keys, now)
  {
    var first := Swept(db, keys[0], now);
    var gone, rest := set k | k in keys && Past(db, k, now), set k | k in keys[1..] && Past(first, k, now);
    assert forall k :: k in keys <==> k == keys[0] || k in keys[1..];
    assert gone == rest + if Past(db, keys[0], now) then {keys[0]} else {};
    assert first.dict - rest == db.dict - gone && first.expires - rest == db.expires - gone;
  }

  lemma WrongAfter(db: Db, key: Bytestring, other: Bytestring, now: int)
    ensures Wrong(Swept(db, key, now), other, now) == Wrong(db, other, now)
  {
  }

  /** The sources are looked at one after the other, up to the first that is no string. */
  lemma {:induction false} SourcesTouched(s: Lazy, d: nat, keys: Argv, now: int, k: nat)
    requires d < |s.w| && k <= |keys| && forall j :: 0 <= j < k ==> !Wrong(s.w[d], keys[j], now)
    requires k < |keys| ==> Wrong(s.w[d], keys[k], now)
    ensures TouchSources(s, d, keys, now).w == s.w[d := SweptAll(s.w[d], keys[..k], now)]
    decreases |keys|
  {
    hide Past;
    if keys == [] {
      NoneSwept(s.w[d], now);
      assert keys[..k] == [] && s.w[d := s.w[d]] == s.w;
    } else {
      var t := Touch(s, d, keys[0], now);
      FirstTouched(s, d, keys[0], now);
      FoundIs(s.w[d], keys[0], now);
      if k == 0 {
        NoneSwept(s.w[d], now);
        SweptPresent(s.w[d], keys[0], now);
        assert keys[..k] == [] && s.w[d := s.w[d]] == s.w;
      } else {
        forall j | 0 <= j < k - 1 ensures !Wrong(t.w[d], keys[1..][j], now) {
          WrongAfter(s.w[d], keys[0], keys[j + 1], now);
        }
        if k < |keys| { WrongAfter(s.w[d], keys[0], keys[k], now); }
        SourcesTouched(t, d, keys[1..], now, k - 1);
        SweptFirst(s.w[d], keys[..k], now);
        assert keys[..k][1..] == keys[1..][..k - 1];
        hide Wrong, Swept, SweptAll, StringOf, Touch;
      }
    }
  }

  lemma NoneSwept(db: Db, now: int)
    ensures SweptAll(db, [], now) == db
  {
    var none: set<Bytestring> := {};
    assert (set k | k in [] && Past(db, k, now)) == none;
    assert db.dict - none == db.dict && db.expires - none == db.expires;
  }

  lemma FirstTouched(s: Lazy, d: nat, key: Bytestring, now: int)
    requires d < |s.w|
    ensures Touch(s, d, key, now).w == s.w[d := Swept(s.w[d], key, now)]
  {
    assert s.w[d := s.w[d]] == s.w;
  }

  lemma {:induction false} SourcesFound(seen: Db, db: Db, keys: Argv, now: int)
    requires forall k :: k in keys ==> StringOf(seen, k) == Some(Found(db, k, now))
    ensures Sources(seen, keys) == Some(AllBits(FoundAll(db, keys, now)))
    decreases |keys|
  {
    hide StringOf, Found;
    if keys == [] {
      assert AllBits(FoundAll(db, keys, now)) == [];
    } else {
      assert keys[0] in keys;
      SourcesFound(seen, db, keys[1..], now);
      var s := Found(db, keys[0], now);
      assert AllBits(FoundAll(db, keys, now)) == [ToBits(s)] + AllBits(FoundAll(db, keys[1..], now));
    }
  }

  lemma {:induction false} SourcesMissing(seen: Db, keys: Argv, k: nat)
    requires k < |keys| && StringOf(seen, keys[k]) == None
    ensures Sources(seen, keys) == None
    decreases |keys|
  {
    hide StringOf;
    if k > 0 { SourcesMissing(seen, keys[1..], k - 1); }
  }

  lemma FoundSwept(db: Db, keys: Argv, key: Bytestring, now: int)
    ensures Wrong(db, key, now) ==> StringOf(SweptAll(db, keys, now), key) == None
    ensures key in keys && !Wrong(db, key, now) ==> StringOf(SweptAll(db, keys, now), key) == Some(Found(db, key, now))
  {
  }

  /** A look at one more key changes nothing for the others. */
  lemma TargetSwept(db: Db, keys: Argv, target: Bytestring, key: Bytestring, now: int)
    requires key in keys && !Wrong(db, key, now)
    ensures StringOf(Swept(SweptAll(db, keys, now), target, now), key) == Some(Found(db, key, now))
  {
  }

  /** BITOP with a word that names no operation, or NOT with several sources, does nothing. */
  lemma BitOpSyntax(w: World, d: nat, argv: Argv, now: int)
    requires d < |w| && Is(argv, Command.BitOp)
    requires forall op :: Names(argv[1], op) ==> op == Not && |argv| != 4
    ensures !Logged(w, d, argv, now) && After(w, d, argv, now) == w
  {
    OperationIs(argv[1], And);
    OperationIs(argv[1], Or);
    OperationIs(argv[1], Xor);
    OperationIs(argv[1], Not);
    hide Lookup, After, Logged, OperationOf, Names, Sources, MaxLen;
    CallIs(w, d, argv, now);
    assert w[d := w[d]] == w;
  }

  /** Where a source is no string it does nothing; the sources before it have been looked at. */
  lemma BitOpWrong(w: World, d: nat, argv: Argv, now: int, op: Operation, k: nat)
    requires d < |w| && Is(argv, Command.BitOp) && Names(argv[1], op) && (op == Not ==> |argv| == 4)
    requires k < |argv| - 3 && Wrong(w[d], argv[3 + k], now)
    requires forall key :: key in argv[3..3 + k] ==> !Wrong(w[d], key, now)
    ensures !Logged(w, d, argv, now)
    ensures After(w, d, argv, now) == w[d := SweptAll(w[d], argv[3..3 + k], now)]
  {
    OperationIs(argv[1], op);
    hide Lookup, After, Logged, OperationOf, Names, Sources, MaxLen, TouchSources, Wrong, SweptAll, StringOf;
    CallIs(w, d, argv, now);
    var keys := argv[3..];
    assert keys[..k] == argv[3..3 + k];
    forall j | 0 <= j < k ensures !Wrong(w[d], keys[j], now) { assert keys[..k][j] in keys[..k]; }
    SourcesTouched(Lazy(w, []), d, keys, now, k);
    FoundSwept(w[d], keys[..k], keys[k], now);
    SourcesMissing(SweptAll(w[d], keys[..k], now), keys, k);
    var v := w[d := SweptAll(w[d], keys[..k], now)];
    assert v[d := v[d]] == v;
  }

  /** Otherwise every bit of the result is what the operation makes of the bits of all sources, a key that is not there
      counting as the empty string; the result takes the place of the target and its expire time, or the target goes
      when all sources are empty. */
  lemma BitOpLaw(w: World, d: nat, argv: Argv, now: int, op: Operation) returns (r: Bytestring)
    requires d < |w| && Is(argv, Command.BitOp) && Names(argv[1], op) && (op == Not ==> |argv| == 4)
    requires forall k :: k in argv[3..] ==> !Wrong(w[d], k, now)
    ensures Logged(w, d, argv, now) && Combined(op, FoundAll(w[d], argv[3..], now), r)
    ensures After(w, d, argv, now) == w[d := Replaced(SweptAll(w[d], argv[3..], now), argv[2], r)]
  {
    hide Lookup, After, Logged, OperationOf, Names, Sources, TouchSources, Wrong, SweptAll, StringOf, Swept, Replaced,
      Result, FromBits, AllBits, Combined, Found;
    OperationIs(argv[1], op);
    var keys, strings := argv[3..], FoundAll(w[d], argv[3..], now);
    r := FromBits(Result(op, AllBits(strings)));
    ResultIs(op, strings);
    SourcesSeen(w, d, keys, argv[2], now);
    BitOpCall(w, d, argv, now, op, SweptAll(w[d], keys, now), strings);
  }

  lemma SourcesSeen(w: World, d: nat, keys: Argv, target: Bytestring, now: int)
    requires d < |w| && forall k :: k in keys ==> !Wrong(w[d], k, now)
    ensures var seen, bits := SweptAll(w[d], keys, now), AllBits(FoundAll(w[d], keys, now));
      && TouchSources(Lazy(w, []), d, keys, now).w == w[d := seen]
      && Sources(seen, keys) == Some(bits) && Sources(Swept(seen, target, now), keys) == Some(bits)
  {
    hide Wrong, SweptAll, StringOf, Swept, AllBits, Found, TouchSources, Sources;
    var seen := SweptAll(w[d], keys, now);
    SourcesTouched(Lazy(w, []), d, keys, now, |keys|);
    assert keys[..|keys|] == keys;
    forall k | k in keys ensures StringOf(seen, k) == Some(Found(w[d], k, now))
      && StringOf(Swept(seen, target, now), k) == Some(Found(w[d], k, now)) {
      FoundSwept(w[d], keys, k, now);
      TargetSwept(w[d], keys, target, k, now);
    }
    SourcesFound(seen, w[d], keys, now);
    SourcesFound(Swept(seen, target, now), w[d], keys, now);
  }

  lemma DeletedIs(db: Db, key: Bytestring)
    ensures DbDelete(db, key) == Without(db, key)
  {
  }

  lemma BitOpCall(w: World, d: nat, argv: Argv, now: int, op: Operation, seen: Db, strings: seq<Bytestring>)
    requires d < |w| && Is(argv, Command.BitOp) && OperationOf(argv[1]) == Some(op) && (op == Not ==> |argv| == 4)
    requires TouchSources(Lazy(w, []), d, argv[3..], now).w == w[d := seen] && strings != []
    requires Sources(seen, argv[3..]) == Some(AllBits(strings))
    requires Sources(Swept(seen, argv[2], now), argv[3..]) == Some(AllBits(strings))
    ensures Logged(w, d, argv, now)
    ensures After(w, d, argv, now) == w[d := Replaced(seen, argv[2], FromBits(Result(op, AllBits(strings))))]
  {
    hide Lookup, After, Logged, OperationOf, Sources, TouchSources, Swept, StringOf, FromBits, Result, Touch, Holding,
      Without, AllBits;
    CallIs(w, d, argv, now);
    var t := TouchSources(Lazy(w, []), d, argv[3..], now);
    FirstTouched(t, d, argv[2], now);
    SweptHolding(seen, argv[2], Str(FromBits(Result(op, AllBits(strings)))), 0, now);
    DeletedIs(seen, argv[2]);
    var v := w[d := seen];
    assert v[d := Swept(seen, argv[2], now)] == w[d := Swept(seen, argv[2], now)];
  }
}
