/** redis-check-aof on any file at all: exactly when the loader takes what the tool keeps. */
module CheckAofKept {
  import opened Bytes
  import opened Decimal
  import opened Wire
  import opened Strtol
  import opened Commands
  import opened Keyspace
  import opened Propagation
  import opened LogFile
  import opened CheckAofModel
  import opened CheckAofTheorem

  const INT_MAX := 0x7FFF_FFFF

  /** One command as the tool reads it: its count, what is left, and the state of MULTI. */
  function ReadCommand(s: Bytestring, multi: nat): (r: Option<(int, Bytestring, nat)>)
    ensures r.Some? ==> |r.value.1| < |s|
  {
    match ReadLong(s, STAR)
    case None => None
    case Some((argc, rest)) =>
      match ReadArgs(rest, argc, true, multi) case None => None case Some((more, m)) => Some((argc, more, m))
  }

  /** Reading to the very end; None where the tool would stop before. */
  function ReadAll(s: Bytestring, multi: nat): Option<nat>
    decreases |s|
  {
    if s == [] then Some(multi)
    else match ReadCommand(s, multi) case None => None case Some((_, more, m)) => ReadAll(more, m)
  }

  /** The counts of the commands that are read. */
  function Counts(s: Bytestring, multi: nat): seq<int>
    decreases |s|
  {
    match ReadCommand(s, multi) case None => [] case Some((argc, more, m)) => [argc] + Counts(more, m)
  }

  /** A count that is the same number as an int, and is not too small for a command. */
  predicate GoodCount(argc: int) { 1 <= argc <= INT_MAX }

  predicate GoodCounts(counts: seq<int>) { forall argc :: argc in counts ==> GoodCount(argc) }

  // ----- what the tool reads the loader reads alike -----

  lemma ArgIsParsed(s: Bytestring)
    requires ReadString(s).Some?
    ensures ParseArg(s) == ReadString(s) && s != [] && s[0] == DOLLAR
  {
    hide Line, Strtoll, AtNewline, Number;
    var n, len := |Line(s)|, Strtoll(Line(s)[1..]);
    assert s[n..][..len] == s[n..n + len] && s[n..][len + 2..] == s[n + len + 2..];
  }

  lemma {:induction false} ArgsAreParsed(s: Bytestring, left: nat, first: bool, multi: nat)
    requires ReadArgs(s, left, first, multi).Some?
    ensures var (more, m) := ReadArgs(s, left, first, multi).value; var p := ParseArgs(s, left);
      && p.Some? && p.value.1 == more
      && (if first && left > 0 then Enter(p.value.0[0], multi) == Some(m) else m == multi)
    decreases left
  {
    hide ReadString, ParseArg, Enter;
    if left > 0 {
      ArgIsParsed(s);
      var (a, rest) := ReadString(s).value;
      var k := if first then Enter(a, multi).value else multi;
      ArgsAreParsed(rest, left - 1, false, k);
    }
  }

  /** Any fewer arguments than the tool reads leave the loader before a '$'. */
  lemma {:induction false} FewerArgs(s: Bytestring, left: int, first: bool, multi: nat, n: nat)
    requires n < left && ReadArgs(s, left, first, multi).Some?
    ensures var p := ParseArgs(s, n); p.Some? && p.value.1 != [] && p.value.1[0] == DOLLAR
    decreases n
  {
    hide ReadString, ParseArg, Enter;
    ArgIsParsed(s);
    if n > 0 {
      var (a, rest) := ReadString(s).value;
      var k := if first then Enter(a, multi).value else multi;
      FewerArgs(rest, left - 1, false, k, n - 1);
    }
  }

  lemma GoodIsInt(argc: int)
    requires Int64Range(argc)
    ensures GoodCount(argc) ==> AsInt(argc) == argc
    ensures !GoodCount(argc) && AsInt(argc) >= 1 ==> AsInt(argc) < argc || argc <= 0
  {
  }

  predicate Int64Range(v: int) { -INT64_MAX - 1 <= v <= INT64_MAX }

  lemma CountIsRead(s: Bytestring)
    requires ReadLong(s, STAR).Some?
    ensures s != [] && s[0] == STAR && Int64Range(ReadLong(s, STAR).value.0)
    ensures ReadLong(s, STAR).value == (Strtoll(Line(s)[1..]), s[|Line(s)|..])
  {
    hide Line, Number, AtNewline, Strtoll;
  }

  lemma GoodCommand(s: Bytestring, multi: nat)
    requires ReadCommand(s, multi).Some? && GoodCount(ReadCommand(s, multi).value.0)
    ensures var (_, more, m) := ReadCommand(s, multi).value; var p := ParseCommand(s);
      p.Some? && p.value.1 == more && p.value.0 != [] && Enter(p.value.0[0], multi) == Some(m)
  {
    CountIsRead(s);
    hide Line, ReadLong, ReadArgs, ParseArgs, Strtoll, Enter;
    var argc := Strtoll(Line(s)[1..]);
    var rest := s[|Line(s)|..];
    GoodIsInt(argc);
    ArgsAreParsed(rest, argc, true, multi);
  }

  /** After a count that is no good the loader goes wrong, now or at the next command. */
  lemma BadCommand(s: Bytestring, multi: nat)
    requires ReadCommand(s, multi).Some? && !GoodCount(ReadCommand(s, multi).value.0)
    requires var more := ReadCommand(s, multi).value.1; more != [] ==> more[0] == STAR
    ensures ParseAll(s) == None
  {
    CountIsRead(s);
    hide Line, ReadLong, Strtoll, Enter, ReadString;
    var argc := Strtoll(Line(s)[1..]);
    var rest := s[|Line(s)|..];
    GoodIsInt(argc);
    var a := AsInt(argc);
    if a >= 1 {
      if argc <= 0 {
        assert ParseArg(rest) == None;
      } else {
        hide ReadArgs, ParseArgs;
        FewerArgs(rest, argc, true, multi, a);
        assert ParseCommand(ParseArgs(rest, a).value.1) == None;
      }
    }
  }

  lemma ReadAllStarts(s: Bytestring, multi: nat)
    requires ReadAll(s, multi).Some? && s != []
    ensures s[0] == STAR
  {
    CountIsRead(s);
  }

  /** What the tool reads to the end, the loader can read if and only if every count is good, and then both
      have seen the same MULTI and EXEC. */
  lemma {:induction false} ReadIsParsed(s: Bytestring, multi: nat)
    requires ReadAll(s, multi).Some?
    ensures ParseAll(s).Some? <==> GoodCounts(Counts(s, multi))
    ensures ParseAll(s).Some? ==> MultiAfter(ParseAll(s).value, multi) == ReadAll(s, multi)
    decreases |s|
  {
    hide ReadCommand, ParseCommand, Enter, GoodCount;
    if s == [] {
      NothingRead(multi);
    } else {
      var (argc, more, m) := ReadCommand(s, multi).value;
      if more != [] { ReadAllStarts(more, m); }
      ReadIsParsed(more, m);
      var counts := Counts(more, m);
      assert Counts(s, multi) == [argc] + counts;
      assert GoodCounts([argc] + counts) <==> GoodCount(argc) && GoodCounts(counts);
      if GoodCount(argc) { GoodCommand(s, multi); } else { BadCommand(s, multi); }
    }
  }

  lemma NothingRead(multi: nat)
    ensures Counts([], multi) == []
  {
  }

  // ----- the part that is kept is read to its end -----

  /** Without its last d bytes. */
  function Less(s: Bytestring, d: nat): Bytestring
    requires d <= |s|
  {
    s[..|s| - d]
  }

  lemma {:induction false} LineLengthLess(s: Bytestring, d: nat, room: nat)
    requires d <= |s| && LineLength(s, room) <= |s| - d
    ensures LineLength(Less(s, d), room) == LineLength(s, room)
    decreases |s|
  {
    var t := Less(s, d);
    if s != [] && room > 0 {
      if t != [] && s[0] != LF {
        assert t[1..] == Less(s[1..], d);
        LineLengthLess(s[1..], d, room - 1);
      }
    }
  }

  lemma LongLess(s: Bytestring, prefix: Byte, d: nat)
    requires ReadLong(s, prefix).Some? && d <= |ReadLong(s, prefix).value.1|
    ensures var (v, rest) := ReadLong(s, prefix).value; ReadLong(Less(s, d), prefix) == Some((v, Less(rest, d)))
  {
    hide Number, AtNewline, Strtoll, LineLength;
    LineLengthLess(s, d, LINE_ROOM);
    var n, t := LineLength(s, LINE_ROOM), Less(s, d);
    assert t[..n] == s[..n];
    assert t[n..] == Less(s[n..], d);
  }

  lemma StringLess(s: Bytestring, d: nat)
    requires ReadString(s).Some? && d <= |ReadString(s).value.1|
    ensures var (a, rest) := ReadString(s).value; ReadString(Less(s, d)) == Some((a, Less(rest, d)))
  {
    hide ReadLong;
    LongLess(s, DOLLAR, d);
    var (len, rest) := ReadLong(s, DOLLAR).value;
    var t := Less(rest, d);
    assert t[..len] == rest[..len] && t[len + 2..] == Less(rest[len + 2..], d);
    assert t[len] == rest[len] && t[len + 1] == rest[len + 1];
  }

  lemma {:induction false} ArgsLess(s: Bytestring, left: int, first: bool, multi: nat, d: nat)
    requires ReadArgs(s, left, first, multi).Some? && d <= |ReadArgs(s, left, first, multi).value.0|
    ensures var (more, m) := ReadArgs(s, left, first, multi).value;
      ReadArgs(Less(s, d), left, first, multi) == Some((Less(more, d), m))
    decreases left
  {
    hide ReadString, Enter, Less;
    if left > 0 {
      StringLess(s, d);
      var (a, rest) := ReadString(s).value;
      var k := if first then Enter(a, multi).value else multi;
      ArgsLess(rest, left - 1, false, k, d);
    }
  }

  lemma CommandLess(s: Bytestring, multi: nat, d: nat)
    requires ReadCommand(s, multi).Some? && d <= |ReadCommand(s, multi).value.1|
    ensures var (argc, more, m) := ReadCommand(s, multi).value;
      ReadCommand(Less(s, d), multi) == Some((argc, Less(more, d), m))
  {
    hide ReadLong, ReadArgs, Less;
    LongLess(s, STAR, d);
    var (argc, rest) := ReadLong(s, STAR).value;
    ArgsLess(rest, argc, true, multi, d);
  }

  /** The tool's position is either where it was when the transaction now open began, or the end of something
      that is read to its end with no transaction open. */
  lemma {:induction false} ProcessReads(s: Bytestring, at: nat, pos: nat, multi: nat)
    ensures var r := Process(s, at, pos, multi);
      (multi != 0 && r == pos) || (at <= r <= at + |s| && ReadAll(s[..r - at], multi) == Some(0))
    decreases |s|
  {
    hide ReadLong, ReadArgs, Enter;
    var r := Process(s, at, pos, multi);
    var p := if multi == 0 then at else pos;
    assert s[..0] == [];
    match ReadCommand(s, multi)
    case None =>
    case Some((argc, more, m)) =>
      var next := at + |s| - |more|;
      assert r == Process(more, next, p, m);
      ProcessReads(more, next, p, m);
      if !(m != 0 && r == p) {
        var d := |more| - (r - next);
        CommandLess(s, multi, d);
        assert Less(s, d) == s[..r - at] && Less(more, d) == more[..r - next];
        assert s[..r - at] != [];
      }
  }

  /** The part of the file that the tool keeps. */
  function Kept(file: Bytestring): Bytestring
  {
    ProcessReads(file, 0, 0, 0);
    file[..SafeLength(file)]
  }

  lemma KeptIsRead(file: Bytestring)
    ensures ReadAll(Kept(file), 0) == Some(0)
  {
    hide Process, ReadAll;
    ProcessReads(file, 0, 0, 0);
    assert file[..SafeLength(file) - 0] == Kept(file);
  }

  // ----- the agreement of the tool and the loader -----

  lemma {:induction false} RunsOnlyRunnable(f: Fake, cmds: seq<Argv>, t: int)
    requires f.db < |f.w| && RunAll(f, cmds, t).Some?
    ensures forall argv :: argv in cmds ==> Runnable(argv)
    decreases |cmds|
  {
    if cmds != [] {
      OnlyRunnable(f, cmds[0], t);
      hide RunOne, Runnable;
      RunsOnlyRunnable(RunOne(f, cmds[0], t).value, cmds[1..], t);
      assert forall argv :: argv in cmds ==> argv == cmds[0] || argv in cmds[1..];
    }
  }

  lemma OnlyRunnable(f: Fake, argv: Argv, t: int)
    requires f.db < |f.w| && RunOne(f, argv, t).Some?
    ensures Runnable(argv)
  {
  }

  /** For every file, damaged in whatever way: what the tool keeps is a well-formed log if and only if every
      count it accepted is between 1 and 2^31 - 1. */
  lemma KeptParses(file: Bytestring)
    ensures ParseAll(Kept(file)).Some? <==> GoodCounts(Counts(Kept(file), 0))
  {
    KeptIsRead(file);
    ReadIsParsed(Kept(file), 0);
  }

  /** And it is loaded if and only if, besides, the loader knows and can run every command in it. */
  lemma KeptLoads(file: Bytestring, n: nat, t: int)
    requires n > 0
    ensures ParseAll(Kept(file)).Some? <==> GoodCounts(Counts(Kept(file), 0))
    ensures LoadFile(n, Kept(file), t).Some? <==>
      ParseAll(Kept(file)).Some? && forall argv :: argv in ParseAll(Kept(file)).value ==> Runnable(argv)
  {
    hide Kept, Counts, ReadAll, ParseAll, GoodCounts, Runnable, RunAll, MultiAfter;
    var kept := Kept(file);
    KeptIsRead(file);
    ReadIsParsed(kept, 0);
    if ParseAll(kept).Some? {
      var f := Fake(EmptyWorld(n), 0, false);
      var cmds := ParseAll(kept).value;
      if RunAll(f, cmds, t).Some? { RunsOnlyRunnable(f, cmds, t); }
      if forall argv :: argv in cmds ==> Runnable(argv) { RunsToItsEnd(f, cmds, t); }
    }
  }

  // ----- files on which they part -----

  /** The header of a command of no arguments, or of fewer, is a file that the tool keeps whole and the loader
      refuses. */
  lemma HeaderAlone(n: int)
    requires Int64Range(n) && n <= 0
    ensures var file := Header(STAR, n); SafeLength(file) == |file| && Kept(file) == file && ParseAll(file) == None
  {
    var file := Header(STAR, n);
    HeaderReads(n);
    hide Header, ReadLong;
    var nil: Bytestring := [];
    assert ReadArgs(nil, n, true, 0) == Some((nil, 0));
    NothingRead(0);
    assert ReadCommand(file, 0) == Some((n, nil, 0));
    NothingToRead();
    assert Process(nil, |file|, 0, 0) == |file|;
    assert Process(file, 0, 0, 0) == |file|;
    assert Counts(file, 0) == [n] + Counts(nil, 0);
    assert n in Counts(file, 0);
    assert !GoodCount(n);
    assert file[..|file|] == file;
    hide Kept, ParseAll, Counts, SafeLength;
    KeptParses(file);
  }

  lemma NothingToRead()
    ensures ReadLong([], STAR) == None
  {
  }

  lemma HeaderReads(n: int)
    requires Int64Range(n) && n <= 0
    ensures ReadLong(Header(STAR, n), STAR) == Some((n, []))
  {
    var h, d, nil: Bytestring := Header(STAR, n), [STAR] + Print(n) + [CR], [];
    assert h == d + [LF] + nil && h[1..] == Print(n) + CRLF;
    PrintHasNoNewline(n);
    hide Print;
    LineLengthOf(d, nil, LINE_ROOM);
    NumberOfPrint(n, CRLF);
    hide Number, LineLength;
    var i := |Print(n)|;
    assert h[1..][i] == CR && h[1..][i + 1] == LF;
    assert h[..|h|] == h && h[|h|..] == nil;
  }

  lemma PrintHasNoNewline(n: int)
    requires Int64Range(n)
    ensures LF !in Print(n) && |Print(n)| <= 21
  {
    TenNineteen();
    assert Ten(20) == 10 * Ten(19);
    PrintShort(if n < 0 then -n else n, 20);
    var d := PrintNat(if n < 0 then -n else n);
    hide PrintNat;
    forall i | 0 <= i < |d| ensures d[i] != LF { assert Digit(d[i]); }
  }
}
