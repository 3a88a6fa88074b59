/** What each command does to the databases when it is called, said without the functions that do it: which keys it
    looks at, when it goes through, and what the databases are afterwards. */
module CommandLaws {
  import opened Bytes
  import opened Wire
  import opened Strtol
  import opened Commands
  import opened Keyspace
  import opened Effects
  import opened Propagation

  /** The key has an expire time, and it has passed. */
  predicate Past(db: Db, key: Bytestring, now: int) { key in db.expires && 0 <= db.expires[key] < now }

  /** The key is there, for whoever looks it up. */
  predicate Present(db: Db, key: Bytestring, now: int) { key in db.dict && !Past(db, key, now) }

  /** The database after a look at the key. */
  function Swept(db: Db, key: Bytestring, now: int): Db
  {
    if Past(db, key, now) then Without(db, key) else db
  }

  function Without(db: Db, key: Bytestring): Db { Db(db.dict - {key}, db.expires - {key}) }

  /** The key with a value and no expire time. */
  function Holding(db: Db, key: Bytestring, v: Value): Db { Db(db.dict[key := v], db.expires - {key}) }

  /** The key with a value and an expire time. */
  function HoldingUntil(db: Db, key: Bytestring, v: Value, when: int): Db
  {
    Db(db.dict[key := v], db.expires[key := when])
  }

  /** The argument vector is a command of this name. */
  ghost predicate Is(argv: Argv, c: Command) { Runnable(argv) && Lookup(argv[0]) == Some(c) }

  /** The databases after the call. */
  ghost function After(w: World, d: nat, argv: Argv, now: int): World
    requires d < |w| && Runnable(argv)
  {
    Call(w, d, argv, now).w
  }

  /** The call is fed to the log, besides the deletions of what it found expired. */
  ghost predicate Logged(w: World, d: nat, argv: Argv, now: int)
    requires d < |w| && Runnable(argv)
  {
    |Call(w, d, argv, now).fed| > |Looked(Lazy(w, []), d, Lookup(argv[0]).value, argv, now).gone|
  }

  lemma {:induction false} DeletionsSize(gone: seq<Target>)
    ensures |Deletions(gone)| == |gone|
  {
    if gone != [] { DeletionsSize(gone[1..]); }
  }

  /** A call is its lookups, and then its effect. */
  lemma CallIs(w: World, d: nat, argv: Argv, now: int)
    requires d < |w| && Runnable(argv)
    ensures var c := Lookup(argv[0]).value;
      var o := Effect(Looked(Lazy(w, []), d, c, argv, now).w, d, c, argv, Clock(now, false));
      After(w, d, argv, now) == o.w && (Logged(w, d, argv, now) <==> o.dirty)
  {
    hide Lookup, Looked, Effect, Deletions, Translate;
    DeletionsSize(Looked(Lazy(w, []), d, Lookup(argv[0]).value, argv, now).gone);
  }

  lemma TouchIs(w: World, d: nat, key: Bytestring, now: int)
    requires d < |w|
    ensures Touch(Lazy(w, []), d, key, now).w == w[d := Swept(w[d], key, now)]
  {
    assert w[d := w[d]] == w;
  }

  /** A command that looks at its first key only, and stays in its database. */
  predicate Simple(c: Command) { c !in {Rename, RenameNx, Move, BitOp, FlushAll} }

  lemma SimpleCall(w: World, d: nat, argv: Argv, now: int)
    requires d < |w| && Runnable(argv) && Simple(Lookup(argv[0]).value)
    ensures var c := Lookup(argv[0]).value;
      var seen := if LooksUp(c, argv, now) then Swept(w[d], argv[1], now) else w[d];
      var r := InDb(seen, c, argv, Clock(now, false));
      After(w, d, argv, now) == w[d := r.0] && (Logged(w, d, argv, now) <==> r.1)
  {
    hide Lookup, InDb, Touch, After, Logged, Swept, AsSet, Milliseconds, When, BitOffset, BitValue;
    CallIs(w, d, argv, now);
    var c := Lookup(argv[0]).value;
    if LooksUp(c, argv, now) {
      TouchIs(w, d, argv[1], now);
    }
    assert w[d := w[d]] == w;
  }

  lemma SweptHolding(db: Db, key: Bytestring, v: Value, when: int, now: int)
    ensures SetKey(Swept(db, key, now), key, v) == Holding(db, key, v)
    ensures SetExpire(SetKey(Swept(db, key, now), key, v), key, when) == HoldingUntil(db, key, v, when)
    ensures key in Swept(db, key, now).dict <==> Present(db, key, now)
    ensures Present(db, key, now) ==> Swept(db, key, now) == db
  {
    assert (db.dict - {key})[key := v] == db.dict[key := v];
    assert (db.expires - {key}) - {key} == db.expires - {key};
    assert (db.expires - {key})[key := when] == db.expires[key := when];
  }

  // ----- SETNX, SETEX, PSETEX, GETSET -----

  /** The time to live of a request is none, or a positive number. */
  predicate Lasts(ttl: Option<Ttl>)
  {
    ttl == None || (GetLongLong(ttl.value.text).Some? && GetLongLong(ttl.value.text).value > 0)
  }

  /** When a time to live ends, in 64-bit arithmetic. */
  function End(ttl: Ttl, now: int): int
    requires Lasts(Some(ttl))
  {
    Wrap(now + Wrap(GetLongLong(ttl.text).value * ttl.unit))
  }

  /** What is stored, until then or for ever. */
  function Stored(db: Db, key: Bytestring, v: Value, ttl: Option<Ttl>, now: int): Db
    requires Lasts(ttl)
  {
    if ttl == None then Holding(db, key, v) else HoldingUntil(db, key, v, End(ttl.value, now))
  }

  lemma RequestIs(db: Db, r: SetRequest, now: int)
    ensures Milliseconds(r.ttl).Some? == Lasts(r.ttl)
    ensures var there := Present(db, r.key, now); var seen := Swept(db, r.key, now);
      if !Lasts(r.ttl) then SetGeneric(db, r, now) == (db, false)
      else if (r.nx && there) || (r.xx && !there) then SetGeneric(seen, r, now) == (seen, false)
      else SetGeneric(seen, r, now) == (Stored(db, r.key, Str(r.val), r.ttl, now), true)
  {
    SweptHolding(db, r.key, Str(r.val), if r.ttl.Some? && Lasts(r.ttl) then End(r.ttl.value, now) else 0, now);
    hide Swept, SetKey, SetExpire, Holding, HoldingUntil, Present, GetLongLong, Wrap;
  }

  /** A SET of any kind, as it is called. */
  lemma SetCall(w: World, d: nat, argv: Argv, now: int, r: SetRequest)
    requires d < |w| && Runnable(argv) && Lookup(argv[0]).value in {Command.Set, SetNx, SetEx, PSetEx}
    requires AsSet(Lookup(argv[0]).value, argv) == Some(r) && r.key == argv[1]
    ensures var there := Present(w[d], r.key, now);
      if !Lasts(r.ttl) then !Logged(w, d, argv, now) && After(w, d, argv, now) == w
      else if (r.nx && there) || (r.xx && !there) then
        !Logged(w, d, argv, now) && After(w, d, argv, now) == w[d := Swept(w[d], r.key, now)]
      else
        Logged(w, d, argv, now) && After(w, d, argv, now) == w[d := Stored(w[d], r.key, Str(r.val), r.ttl, now)]
  {
    RequestIs(w[d], r, now);
    hide Lookup, After, Logged, Swept, SetGeneric, Stored, Present, Lasts, Milliseconds, AsSet;
    SimpleCall(w, d, argv, now);
    assert w[d := w[d]] == w;
  }

  lemma SweptPresent(db: Db, key: Bytestring, now: int)
    requires Present(db, key, now)
    ensures Swept(db, key, now) == db
  {
  }

  /** SETNX goes through if and only if the key is not there. */
  lemma SetNxLaw(w: World, d: nat, argv: Argv, now: int)
    requires d < |w| && Is(argv, SetNx)
    ensures Logged(w, d, argv, now) <==> !Present(w[d], argv[1], now)
    ensures After(w, d, argv, now)
         == if Present(w[d], argv[1], now) then w else w[d := Holding(w[d], argv[1], Str(argv[2]))]
  {
    hide Lookup, After, Logged, Swept, Present;
    SetCall(w, d, argv, now, SetRequest(argv[1], argv[2], true, false, None));
    if Present(w[d], argv[1], now) { SweptPresent(w[d], argv[1], now); }
    assert w[d := w[d]] == w;
  }

  /** SETEX and PSETEX take the time to live before the value, in seconds and in milliseconds, in 64-bit arithmetic, and
      want it to be positive. */
  lemma SetExLaw(w: World, d: nat, argv: Argv, now: int)
    requires d < |w| && (Is(argv, SetEx) || Is(argv, PSetEx))
    ensures var n, unit := GetLongLong(argv[2]), if Is(argv, SetEx) then 1000 else 1;
      if n == None || n.value <= 0 then !Logged(w, d, argv, now) && After(w, d, argv, now) == w
      else
        && Logged(w, d, argv, now)
        && After(w, d, argv, now)
           == w[d := HoldingUntil(w[d], argv[1], Str(argv[3]), Wrap(now + Wrap(n.value * unit)))]
  {
    hide Lookup, After, Logged, Swept, GetLongLong, Wrap, Present;
    var unit := if Is(argv, SetEx) then 1000 else 1;
    SetCall(w, d, argv, now, SetRequest(argv[1], argv[3], false, false, Some(Ttl(argv[2], unit))));
  }

  /** GETSET replaces strings only. */
  lemma GetSetLaw(w: World, d: nat, argv: Argv, now: int)
    requires d < |w| && Is(argv, GetSet)
    ensures var wrong := Present(w[d], argv[1], now) && !w[d].dict[argv[1]].Str?;
      && (Logged(w, d, argv, now) <==> !wrong)
      && After(w, d, argv, now) == if wrong then w else w[d := Holding(w[d], argv[1], Str(argv[2]))]
  {
    hide Lookup, After, Logged, Swept;
    SimpleCall(w, d, argv, now);
    SweptHolding(w[d], argv[1], Str(argv[2]), 0, now);
    assert w[d := w[d]] == w;
  }

  // ----- SET with options -----

  /** The options of SET: only if the key is absent, only if it is present, a time to live and its unit in
      milliseconds. */
  datatype Choice = IfAbsent | IfPresent | Lives(ttl: Ttl)

  /** The text is the word, in letters of either case, up to its end or a NUL. */
  predicate Reads(s: Bytestring, word: string)
  {
    && |s| >= |word| && (|s| == |word| || s[|word|] == 0)
    && (forall i :: 0 <= i < |word| ==> s[i] as int == word[i] as int || s[i] as int + 32 == word[i] as int)
  }

  /** The arguments are these options. */
  predicate Spelt(options: seq<Choice>, rest: Argv)
    decreases |options|
  {
    if options == [] then rest == []
    else
      match options[0]
      case IfAbsent => rest != [] && Reads(rest[0], "nx") && Spelt(options[1..], rest[1..])
      case IfPresent => rest != [] && Reads(rest[0], "xx") && Spelt(options[1..], rest[1..])
      case Lives(Ttl(text, unit)) =>
        && |rest| > 1 && rest[1] == text && Spelt(options[1..], rest[2..])
        && ((unit == 1000 && Reads(rest[0], "ex")) || (unit == 1 && Reads(rest[0], "px")))
  }

  /** The last time to live counts. */
  function Life(options: seq<Choice>): Option<Ttl>
    decreases |options|
  {
    if options == [] then None
    else
      var last := options[|options| - 1];
      if last.Lives? then Some(last.ttl) else Life(options[..|options| - 1])
  }

  predicate LowerCase(word: string) { forall i :: 0 <= i < |word| ==> 'a' <= word[i] <= 'z' }

  lemma ReadsIsWord(s: Bytestring, word: string)
    requires LowerCase(word)
    ensures Reads(s, word) <==> IsWord(s, word)
  {
    if |s| < |word| {
      assert Lower(At(s, |s|)) != word[|s|] as int;
    } else if IsWord(s, word) {
      forall i | 0 <= i < |word| ensures s[i] as int == word[i] as int || s[i] as int + 32 == word[i] as int {
        assert At(s, i) == s[i];
      }
    }
    if Reads(s, word) {
      forall i | 0 <= i < |word| ensures Lower(At(s, i)) == word[i] as int { assert At(s, i) == s[i]; }
    }
  }

  /** The four words of SET. */
  lemma OptionWords(s: Bytestring)
    ensures Reads(s, "nx") == IsWord(s, "nx") && Reads(s, "xx") == IsWord(s, "xx")
    ensures Reads(s, "ex") == IsWord(s, "ex") && Reads(s, "px") == IsWord(s, "px")
    ensures Reads(s, "nx") ==> !Reads(s, "xx") && !Reads(s, "ex") && !Reads(s, "px")
    ensures Reads(s, "xx") ==> !Reads(s, "ex") && !Reads(s, "px")
    ensures Reads(s, "ex") ==> !Reads(s, "px")
  {
    ReadsIsWord(s, "nx");
    ReadsIsWord(s, "xx");
    ReadsIsWord(s, "ex");
    ReadsIsWord(s, "px");
    hide IsWord;
    if |s| >= 2 {
      assert Reads(s, "nx") ==> s[0] as int == "nx"[0] as int || s[0] as int + 32 == "nx"[0] as int;
      assert Reads(s, "xx") ==> s[0] as int == "xx"[0] as int || s[0] as int + 32 == "xx"[0] as int;
      assert Reads(s, "ex") ==> s[0] as int == "ex"[0] as int || s[0] as int + 32 == "ex"[0] as int;
      assert Reads(s, "px") ==> s[0] as int == "px"[0] as int || s[0] as int + 32 == "px"[0] as int;
    }
  }

  lemma {:induction false} LifeAfter(first: Choice, rest: seq<Choice>)
    ensures Life([first] + rest)
         == if Life(rest) != None then Life(rest) else if first.Lives? then Some(first.ttl) else None
    decreases |rest|
  {
    var all := [first] + rest;
    if rest == [] {
      assert all[..0] == [];
    } else {
      assert all[..|all| - 1] == [first] + rest[..|rest| - 1];
      LifeAfter(first, rest[..|rest| - 1]);
    }
  }

  /** What the option loop makes of options as they are spelt. */
  function Chosen(r: SetRequest, options: seq<Choice>): SetRequest
  {
    SetRequest(r.key, r.val, r.nx || IfAbsent in options, r.xx || IfPresent in options,
      if Life(options) == None then r.ttl else Life(options))
  }

  lemma {:induction false} LoopReads(r: SetRequest, options: seq<Choice>, rest: Argv)
    requires Spelt(options, rest)
    ensures SetOptions(r, rest) == Some(Chosen(r, options))
    decreases |options|
  {
    if options != [] {
      OptionWords(rest[0]);
      hide IsWord, Reads;
      var first, more := options[0], options[1..];
      assert options == [first] + more;
      LifeAfter(first, more);
      match first
      case IfAbsent => LoopReads(r.(nx := true), more, rest[1..]);
      case IfPresent => LoopReads(r.(xx := true), more, rest[1..]);
      case Lives(ttl) => LoopReads(r.(ttl := Some(ttl)), more, rest[2..]);
    }
  }

  lemma {:induction false} LoopAccepts(r: SetRequest, rest: Argv) returns (options: seq<Choice>)
    requires SetOptions(r, rest).Some?
    ensures Spelt(options, rest)
    decreases |rest|
  {
    options := [];
    if rest != [] {
      OptionWords(rest[0]);
      hide IsWord, Reads;
      if Reads(rest[0], "nx") {
        var more := LoopAccepts(r.(nx := true), rest[1..]);
        options := [IfAbsent] + more;
      } else if Reads(rest[0], "xx") {
        var more := LoopAccepts(r.(xx := true), rest[1..]);
        options := [IfPresent] + more;
      } else if Reads(rest[0], "ex") {
        var more := LoopAccepts(r.(ttl := Some(Ttl(rest[1], 1000))), rest[2..]);
        options := [Lives(Ttl(rest[1], 1000))] + more;
      } else {
        var more := LoopAccepts(r.(ttl := Some(Ttl(rest[1], 1))), rest[2..]);
        options := [Lives(Ttl(rest[1], 1))] + more;
      }
    }
  }

  /** SET with anything but options behind the value does nothing. */
  lemma SetSyntax(w: World, d: nat, argv: Argv, now: int)
    requires d < |w| && Is(argv, Command.Set) && forall options :: !Spelt(options, argv[3..])
    ensures !Logged(w, d, argv, now) && After(w, d, argv, now) == w
  {
    hide Lookup, After, Logged, Swept, SetOptions, Spelt;
    if AsSet(Command.Set, argv).Some? {
      var options := LoopAccepts(SetRequest(argv[1], argv[2], false, false, None), argv[3..]);
      assert false;
    }
    SimpleCall(w, d, argv, now);
    assert w[d := w[d]] == w;
  }

  /** SET with options. A time to live has to be a positive number, and is in 64-bit arithmetic; otherwise not even the
      key is looked at. With NX it goes through if and only if the key is not there, with XX if and only if it is. It
      leaves the key with the new value, and with the expire time asked for or none. */
  lemma SetLaw(w: World, d: nat, argv: Argv, now: int, options: seq<Choice>)
    requires d < |w| && Is(argv, Command.Set) && Spelt(options, argv[3..])
    ensures var key, life := argv[1], Life(options);
      var there := Present(w[d], key, now);
      if !Lasts(life) then !Logged(w, d, argv, now) && After(w, d, argv, now) == w
      else if (IfAbsent in options && there) || (IfPresent in options && !there) then
        !Logged(w, d, argv, now) && After(w, d, argv, now) == w[d := Swept(w[d], key, now)]
      else
        Logged(w, d, argv, now) && After(w, d, argv, now) == w[d := Stored(w[d], key, Str(argv[2]), life, now)]
  {
    var r := SetRequest(argv[1], argv[2], false, false, None);
    LoopReads(r, options, argv[3..]);
    hide Lookup, After, Logged, Swept, SetOptions, Spelt, GetLongLong, Wrap, Life, Present, Lasts, Stored;
    SetCall(w, d, argv, now, Chosen(r, options));
  }
}
