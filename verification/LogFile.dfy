/** aof.c, loadAppendOnlyFile: the bytes of a log back into commands, and the commands back into
    databases. */
module LogFile {
  import opened Bytes
  import opened Decimal
  import opened Wire
  import opened Strtol
  import opened Keyspace
  import opened Propagation

  /** fgets with a buffer of 128: how many bytes it takes. */
  const LINE_ROOM := 127

  function LineLength(s: Bytestring, room: nat): (n: nat)
    ensures n <= |s| && n <= room && (s != [] && room > 0 ==> n > 0)
    decreases |s|
  {
    if s == [] || room == 0 then 0 else if s[0] == LF then 1 else 1 + LineLength(s[1..], room - 1)
  }

  function Line(s: Bytestring): (l: Bytestring)
    ensures s != [] ==> l != [] && l[0] == s[0]
    ensures |l| <= |s|
  {
    s[..LineLength(s, LINE_ROOM)]
  }

  /** One argument: a length line, that many bytes, and two more that are not looked at. */
  function ParseArg(s: Bytestring): (r: Option<(Bytestring, Bytestring)>)
    ensures r.Some? ==> |r.value.1| < |s|
  {
    if s == [] || s[0] != DOLLAR then None
    else
      var n, len := |Line(s)|, Strtoll(Line(s)[1..]);
      if len < 0 || |s| < n + len + 2 then None else Some((s[n..n + len], s[n + len + 2..]))
  }

  function ParseArgs(s: Bytestring, argc: nat): (r: Option<(Argv, Bytestring)>)
    ensures r.Some? ==> |r.value.1| <= |s| && |r.value.0| == argc
  {
    if argc == 0 then Some(([], s))
    else
      match ParseArg(s)
      case None => None
      case Some((a, rest)) =>
        match ParseArgs(rest, argc - 1) case None => None case Some((t, more)) => Some(([a] + t, more))
  }

  function ParseCommand(s: Bytestring): (r: Option<(Argv, Bytestring)>)
    ensures r.Some? ==> |r.value.1| < |s|
  {
    if s == [] || s[0] != STAR then None
    else
      var argc := Atoi(Line(s)[1..]);
      if argc < 1 then None else ParseArgs(s[|Line(s)|..], argc)
  }

  /** All commands of the log; None is a format error. */
  function ParseAll(s: Bytestring): Option<seq<Argv>>
    decreases |s|
  {
    if s == [] then Some([])
    else
      match ParseCommand(s)
      case None => None
      case Some((argv, rest)) => match ParseAll(rest) case None => None case Some(t) => Some([argv] + t)
  }

  /** A log that ends inside MULTI is refused. */
  function Load(n: nat, cmds: seq<Argv>, t: int): (r: Option<World>)
    requires n > 0
    ensures r.Some? ==> |r.value| == n
  {
    match RunAll(Fake(EmptyWorld(n), 0, false), cmds, t)
    case None => None
    case Some(f) => if f.multi then None else Some(f.w)
  }

  /** Loading the file into n empty databases; None is a fatal error. */
  function LoadFile(n: nat, file: Bytestring, t: int): (r: Option<World>)
    requires n > 0
    ensures r.Some? ==> |r.value| == n
  {
    match ParseAll(file) case None => None case Some(cmds) => Load(n, cmds, t)
  }

  // ----- the round trip -----

  /** An argument vector small enough for int and long, which everything in memory is. */
  ghost predicate Fits(argv: Argv)
  {
    1 <= |argv| <= 0x7FFF_FFFF && forall a :: a in argv ==> |a| <= INT64_MAX
  }

  lemma {:induction false} LineLengthOf(d: Bytestring, rest: Bytestring, room: nat)
    requires |d| < room && LF !in d
    ensures LineLength(d + [LF] + rest, room) == |d| + 1
  {
    var s := d + [LF] + rest;
    if d != [] {
      assert s[1..] == d[1..] + [LF] + rest;
      assert d[0] in d;
      LineLengthOf(d[1..], rest, room - 1);
    }
  }

  /** A header line is taken as a whole. */
  lemma HeaderLineIs(prefix: Byte, n: nat, rest: Bytestring)
    requires n <= INT64_MAX && prefix != LF
    ensures Line(Header(prefix, n) + rest) == Header(prefix, n)
    ensures Strtoll(Header(prefix, n)[1..]) == n
  {
    assert Ten(19) > INT64_MAX by { TenNineteen(); }
    PrintShort(n, 19);
    var d := [prefix] + Print(n) + [CR];
    assert Header(prefix, n) + rest == d + [LF] + rest;
    LineLengthOf(d, rest, LINE_ROOM);
    NumberOfPrint(n, CRLF);
    assert Header(prefix, n)[1..] == Print(n) + CRLF;
  }

  lemma BulkParses(a: Bytestring, rest: Bytestring)
    requires |a| <= INT64_MAX
    ensures ParseArg(Bulk(a) + rest) == Some((a, rest))
  {
    hide Line, Strtoll, Header;
    var h := Header(DOLLAR, |a|);
    var s := Bulk(a) + rest;
    assert s == h + (a + CRLF + rest);
    HeaderLineIs(DOLLAR, |a|, a + CRLF + rest);
    HeaderStarts(DOLLAR, |a|);
    assert s[0] == h[0] == DOLLAR;
    assert s[|h|..|h| + |a|] == a && s[|h| + |a| + 2..] == rest;
  }

  lemma HeaderStarts(prefix: Byte, n: int)
    ensures Header(prefix, n) != [] && Header(prefix, n)[0] == prefix
  {
  }

  lemma {:induction false} BulksParse(argv: Argv, rest: Bytestring)
    requires forall a :: a in argv ==> |a| <= INT64_MAX
    ensures ParseArgs(Bulks(argv) + rest, |argv|) == Some((argv, rest))
  {
    hide ParseArg, Bulk;
    if argv == [] {
      assert Bulks(argv) + rest == rest;
    } else {
      var a, more := argv[0], Bulks(argv[1..]) + rest;
      assert a in argv;
      assert Bulks(argv) + rest == Bulk(a) + more;
      assert [a] + argv[1..] == argv;
      hide Bulks;
      BulkParses(a, more);
      BulksParse(argv[1..], rest);
    }
  }

  lemma CommandParses(argv: Argv, rest: Bytestring)
    requires Fits(argv)
    ensures ParseCommand(Cat(argv) + rest) == Some((argv, rest))
  {
    hide Line, Strtoll, Header, ParseArgs, Bulks;
    var h := Header(STAR, |argv|);
    HeaderLineIs(STAR, |argv|, Bulks(argv) + rest);
    HeaderStarts(STAR, |argv|);
    assert Cat(argv) + rest == h + (Bulks(argv) + rest);
    assert (Cat(argv) + rest)[|h|..] == Bulks(argv) + rest;
    BulksParse(argv, rest);
    SmallIsInt(|argv|);
  }

  /** What is written is what is read back. */
  lemma {:induction false} LogParses(cmds: seq<Argv>)
    requires forall argv :: argv in cmds ==> Fits(argv)
    ensures ParseAll(CatAll(cmds)) == Some(cmds)
  {
    hide ParseCommand, Cat, Fits;
    if cmds != [] {
      assert cmds[0] in cmds;
      CommandParses(cmds[0], CatAll(cmds[1..]));
      LogParses(cmds[1..]);
      assert [cmds[0]] + cmds[1..] == cmds;
      assert CatAll(cmds) != [];
    }
  }
}
