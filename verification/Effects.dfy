/** What each command does to the databases, apart from lazy expiry: a function of the databases,
    the arguments and the clock. */
module Effects {
  import opened Bytes
  import opened Decimal
  import opened Wire
  import opened Strtol
  import opened Commands
  import opened Keyspace
  import opened BitString

  /** The one reading a command takes of the clock, and whether the server is loading a log. */
  datatype Clock = Clock(now: int, loading: bool)

  /** Signed 64-bit arithmetic. */
  function Wrap(v: int): (w: int)
    ensures Int64(w) && (Int64(v) ==> w == v)
  {
    (v + 0x8000_0000_0000_0000) % 0x1_0000_0000_0000_0000 - 0x8000_0000_0000_0000
  }

  /** The databases afterwards, whether the command counted as a change, and the argument vector as
      the command left it. */
  datatype Outcome = Outcome(w: World, dirty: bool, argv: Argv)

  // ----- SET, SETNX, SETEX, PSETEX -----

  /** A time to live as written: the text and its unit in milliseconds. */
  datatype Ttl = Ttl(text: Bytestring, unit: int)

  datatype SetRequest = SetRequest(key: Bytestring, val: Bytestring, nx: bool, xx: bool, ttl: Option<Ttl>)

  /** The option loop of setCommand; None is a syntax error. */
  function SetOptions(r: SetRequest, rest: Argv): Option<SetRequest>
    decreases |rest|
  {
    if rest == [] then Some(r)
    else if IsWord(rest[0], "nx") then SetOptions(r.(nx := true), rest[1..])
    else if IsWord(rest[0], "xx") then SetOptions(r.(xx := true), rest[1..])
    else if IsWord(rest[0], "ex") && |rest| > 1 then SetOptions(r.(ttl := Some(Ttl(rest[1], 1000))), rest[2..])
    else if IsWord(rest[0], "px") && |rest| > 1 then SetOptions(r.(ttl := Some(Ttl(rest[1], 1))), rest[2..])
    else None
  }

  function AsSet(c: Command, argv: Argv): Option<SetRequest>
    requires ArityOk(c, |argv|)
  {
    match c
    case Set => SetOptions(SetRequest(argv[1], argv[2], false, false, None), argv[3..])
    case SetNx => Some(SetRequest(argv[1], argv[2], true, false, None))
    case SetEx => Some(SetRequest(argv[1], argv[3], false, false, Some(Ttl(argv[2], 1000))))
    case PSetEx => Some(SetRequest(argv[1], argv[3], false, false, Some(Ttl(argv[2], 1))))
    case _ => None
  }

  /** Whatever the options, the key is the first argument. */
  lemma RequestKey(c: Command, argv: Argv)
    requires ArityOk(c, |argv|) && AsSet(c, argv).Some?
    ensures AsSet(c, argv).value.key == argv[1]
  {
    if c == Command.Set { OptionsKey(SetRequest(argv[1], argv[2], false, false, None), argv[3..]); }
  }

  lemma {:induction false} OptionsKey(r: SetRequest, rest: Argv)
    requires SetOptions(r, rest).Some?
    ensures SetOptions(r, rest).value.key == r.key
    decreases |rest|
  {
    hide IsWord;
    if rest != [] {
      if IsWord(rest[0], "nx") { OptionsKey(r.(nx := true), rest[1..]); }
      else if IsWord(rest[0], "xx") { OptionsKey(r.(xx := true), rest[1..]); }
      else if IsWord(rest[0], "ex") && |rest| > 1 { OptionsKey(r.(ttl := Some(Ttl(rest[1], 1000))), rest[2..]); }
      else { OptionsKey(r.(ttl := Some(Ttl(rest[1], 1))), rest[2..]); }
    }
  }

  /** The time to live in milliseconds; None is an error, Some(None) is no time to live. */
  function Milliseconds(ttl: Option<Ttl>): Option<Option<int>>
  {
    match ttl
    case None => Some(None)
    case Some(t) =>
      match GetLongLong(t.text)
      case None => None
      case Some(v) => if v <= 0 then None else Some(Some(Wrap(v * t.unit)))
  }

  function SetGeneric(db: Db, r: SetRequest, now: int): (Db, bool)
  {
    match Milliseconds(r.ttl)
    case None => (db, false)
    case Some(ms) =>
      if (r.nx && r.key in db.dict) || (r.xx && r.key !in db.dict) then (db, false)
      else
        var done := SetKey(db, r.key, Str(r.val));
        (if ms == None then done else SetExpire(done, r.key, Wrap(now + ms.value)), true)
  }

  // ----- EXPIRE and its relatives -----

  /** The expire time asked for, in absolute milliseconds. */
  function When(c: Command, text: Bytestring, now: int): (r: Option<int>)
    ensures r.Some? ==> Int64(r.value)
  {
    match GetLongLong(text)
    case None => None
    case Some(v) =>
      var ms := if c == Expire || c == ExpireAt then Wrap(v * 1000) else v;
      Some(if c == Expire || c == PExpire then Wrap(ms + now) else ms)
  }

  /** A time in the past deletes the key, and the command becomes a DEL; not while loading. */
  function ExpireGeneric(db: Db, c: Command, argv: Argv, clock: Clock): (Db, bool, Argv)
    requires |argv| == 3
  {
    match When(c, argv[2], clock.now)
    case None => (db, false, argv)
    case Some(when) =>
      if argv[1] !in db.dict then (db, false, argv)
      else if when <= clock.now && !clock.loading then (DbDelete(db, argv[1]), true, [DEL, argv[1]])
      else (SetExpire(db, argv[1], when), true, argv)
  }

  // ----- DEL, RENAME, MOVE, PERSIST -----

  function DeleteAll(db: Db, keys: Argv): (Db, bool)
    decreases |keys|
  {
    if keys == [] then (db, false)
    else
      var (d, dirty) := DeleteAll(DbDelete(db, keys[0]), keys[1..]);
      (d, dirty || keys[0] in db.dict)
  }

  function RenameGeneric(db: Db, from: Bytestring, to: Bytestring, nx: bool): (Db, bool)
  {
    if from == to || from !in db.dict || (nx && to in db.dict) then (db, false)
    else
      var expire := GetExpire(db, from);
      var added := Overwrite(if to in db.dict then DbDelete(db, to) else db, to, db.dict[from]);
      (DbDelete(if expire == -1 then added else SetExpire(added, to, expire), from), true)
  }

  /** The expire time of the key stays behind, and is lost. */
  function MoveKey(w: World, d: nat, key: Bytestring, id: int): (World, bool)
    requires d < |w|
  {
    if id < 0 || id >= |w| || id == d || key !in w[d].dict || key in w[id].dict then (w, false)
    else (w[id := Overwrite(w[id], key, w[d].dict[key])][d := DbDelete(w[d], key)], true)
  }

  function PersistKey(db: Db, key: Bytestring): (Db, bool)
  {
    (db.(expires := db.expires - {key}), key in db.expires)
  }

  // ----- SETBIT, BITOP -----

  const MAX_STRING := 536870912

  /** getBitOffsetFromArgument. */
  function BitOffset(text: Bytestring): Option<nat>
  {
    match GetLongLong(text)
    case None => None
    case Some(v) => if v < 0 || v / 8 >= MAX_STRING then None else Some(v)
  }

  function BitValue(text: Bytestring): Option<nat>
  {
    match GetLongLong(text) case None => None case Some(v) => if v == 0 || v == 1 then Some(v) else None
  }

  /** sdsgrowzero. */
  function Grow(s: Bytestring, n: nat): (r: Bytestring)
    ensures |r| >= n && |r| >= |s| && r[..|s|] == s
  {
    if n <= |s| then s else s + seq(n - |s|, i => 0)
  }

  /** Bit 7 is the first. */
  function SetBitOf(b: bv8, bit: nat, on: nat): bv8
    requires bit < 8
  {
    (b & !((1 as bv8) << bit)) | ((if on == 1 then 1 else 0) as bv8 << bit)
  }

  function ByteWithBit(b: Byte, bit: nat, on: nat): Byte
    requires bit < 8
  {
    SetBitOf(b as bv8, bit, on) as Byte
  }

  function WithBit(s: Bytestring, offset: nat, on: nat): Bytestring
  {
    var i := offset / 8;
    var g := Grow(s, i + 1);
    g[i := ByteWithBit(g[i], 7 - offset % 8, on)]
  }

  function StringOf(db: Db, key: Bytestring): Option<Bytestring>
  {
    if key !in db.dict then Some([]) else if db.dict[key].Str? then Some(db.dict[key].bytes) else None
  }

  function SetBitAt(db: Db, key: Bytestring, offset: nat, on: nat): (Db, bool)
  {
    match StringOf(db, key)
    case None => (db, false)
    case Some(s) =>
      (Overwrite(db, key, Str(WithBit(s, offset, on))), true)
  }

  function OperationOf(text: Bytestring): Option<Operation>
  {
    if IsWord(text, "and") then Some(And) else if IsWord(text, "or") then Some(Or)
    else if IsWord(text, "xor") then Some(Xor) else if IsWord(text, "not") then Some(Not) else None
  }

  /** The operation, unless the arguments are in error. */
  function BitOpOf(argv: Argv): Option<Operation>
    requires |argv| >= 4
  {
    match OperationOf(argv[1])
    case None => None
    case Some(op) => if op == Not && |argv| != 4 then None else Some(op)
  }

  /** The source strings, unless one of the keys holds something else. */
  function Sources(db: Db, keys: Argv): (r: Option<seq<Bits>>)
    ensures r.Some? ==> |r.value| == |keys|
  {
    if keys == [] then Some([])
    else
      match StringOf(db, keys[0])
      case None => None
      case Some(s) =>
        match Sources(db, keys[1..]) case None => None case Some(t) => Some([ToBits(s)] + t)
  }

  function BitOpKeys(db: Db, argv: Argv): (Db, bool)
    requires |argv| >= 4
  {
    match BitOpOf(argv)
    case None => (db, false)
    case Some(op) =>
      match Sources(db, argv[3..])
      case None => (db, false)
      case Some(srcs) =>
        if MaxLen(srcs) > 0 then (SetKey(db, argv[2], Str(FromBits(Result(op, srcs)))), true)
        else (DbDelete(db, argv[2]), true)
  }

  // ----- RPUSH, SADD, HMSET -----

  function PushTail(db: Db, key: Bytestring, items: Argv): (Db, bool)
  {
    if key !in db.dict then (Overwrite(db, key, List(items)), true)
    else if !db.dict[key].List? then (db, false)
    else (Overwrite(db, key, List(db.dict[key].items + items)), true)
  }

  function Members(items: Argv): set<Bytestring> { set x | x in items }

  function AddMembers(db: Db, key: Bytestring, items: Argv): (Db, bool)
  {
    if key !in db.dict then (Overwrite(db, key, Value.Set(Members(items))), true)
    else if !db.dict[key].Set? then (db, false)
    else (Overwrite(db, key, Value.Set(db.dict[key].members + Members(items))),
      !(Members(items) <= db.dict[key].members))
  }

  function SetFields(fields: map<Bytestring, Bytestring>, pairs: Argv): map<Bytestring, Bytestring>
    decreases |pairs|
  {
    if |pairs| < 2 then fields else SetFields(fields[pairs[0] := pairs[1]], pairs[2..])
  }

  function SetHash(db: Db, key: Bytestring, pairs: Argv): (Db, bool)
  {
    if |pairs| % 2 == 1 then (db, false)
    else if key !in db.dict then (Overwrite(db, key, Hash(SetFields(map[], pairs))), true)
    else if !db.dict[key].Hash? then (db, false)
    else (Overwrite(db, key, Hash(SetFields(db.dict[key].fields, pairs))), true)
  }

  // ----- all of them -----

  /** A command that stays inside its own database. */
  function InDb(db: Db, c: Command, argv: Argv, clock: Clock): (Db, bool, Argv)
    requires ArityOk(c, |argv|)
  {
    match c
    case Set | SetNx | SetEx | PSetEx =>
      (match AsSet(c, argv)
       case None => (db, false, argv)
       case Some(r) => var (d, dirty) := SetGeneric(db, r, clock.now); (d, dirty, argv))
    case GetSet =>
      if StringOf(db, argv[1]) == None then (db, false, argv) else (SetKey(db, argv[1], Str(argv[2])), true, argv)
    case Del => var (d, dirty) := DeleteAll(db, argv[1..]); (d, dirty, argv)
    case Rename | RenameNx =>
      var (d, dirty) := RenameGeneric(db, argv[1], argv[2], c == RenameNx); (d, dirty, argv)
    case Expire | PExpire | ExpireAt | PExpireAt => ExpireGeneric(db, c, argv, clock)
    case Persist => var (d, dirty) := PersistKey(db, argv[1]); (d, dirty, argv)
    case FlushDb => (EMPTY_DB, db.dict != map[], argv)
    case SetBit =>
      if BitOffset(argv[2]) == None || BitValue(argv[3]) == None then (db, false, argv)
      else
        var (d, dirty) := SetBitAt(db, argv[1], BitOffset(argv[2]).value, BitValue(argv[3]).value);
        (d, dirty, argv)
    case BitOp => var (d, dirty) := BitOpKeys(db, argv); (d, dirty, argv)
    case RPush => var (d, dirty) := PushTail(db, argv[1], argv[2..]); (d, dirty, argv)
    case SAdd => var (d, dirty) := AddMembers(db, argv[1], argv[2..]); (d, dirty, argv)
    case HMSet => var (d, dirty) := SetHash(db, argv[1], argv[2..]); (d, dirty, argv)
    case _ => (db, false, argv)
  }

  function Effect(w: World, d: nat, c: Command, argv: Argv, clock: Clock): (o: Outcome)
    requires d < |w| && ArityOk(c, |argv|)
    ensures |o.w| == |w|
  {
    match c
    case FlushAll => Outcome(EmptyWorld(|w|), true, argv)
    case Move => var (v, dirty) := MoveKey(w, d, argv[1], Atoi(argv[2])); Outcome(v, dirty, argv)
    case _ => var (db, dirty, a) := InDb(w[d], c, argv, clock); Outcome(w[d := db], dirty, a)
  }

  /** Nothing but the arguments and the databases matters, unless the command asks for the time. */
  predicate AsksTime(c: Command, argv: Argv)
    requires ArityOk(c, |argv|)
  {
    || c in {Expire, PExpire, ExpireAt, PExpireAt}
    || (AsSet(c, argv).Some? && AsSet(c, argv).value.ttl.Some?)
  }

  lemma TimelessEffect(w: World, d: nat, c: Command, argv: Argv, clock: Clock, other: Clock)
    requires d < |w| && ArityOk(c, |argv|) && !AsksTime(c, argv)
    ensures Effect(w, d, c, argv, clock) == Effect(w, d, c, argv, other)
  {
    hide SetKey, StringOf, DeleteAll, RenameGeneric, PersistKey, SetBitAt, BitOpKeys, PushTail, AddMembers, SetHash,
      MoveKey;
    hide BitOffset, BitValue, GetLongLong, EmptyWorld, Atoi;
  }
}
