/** redis-check-aof.c, on values: how far a log that was cut short can be kept. */
module CheckAofModel {
  import opened Bytes
  import opened Decimal
  import opened Wire
  import opened Strtol
  import opened Commands
  import opened Propagation
  import opened LogFile

  // ----- the reader -----

  /** consumeNewline. */
  predicate AtNewline(s: Bytestring, i: nat)
  {
    At(s, i) == CR && At(s, i + 1) == LF
  }

  /** readLong: a line with this prefix and a number that CR LF follows. */
  function ReadLong(s: Bytestring, prefix: Byte): (r: Option<(int, Bytestring)>)
    ensures r.Some? ==> |r.value.1| < |s|
  {
    if s == [] || s[0] != prefix then None
    else
      var number := Line(s)[1..];
      if AtNewline(number, Number(number).1) then Some((Strtoll(number), s[|Line(s)|..])) else None
  }

  /** readString: the length line, the bytes, and the CR LF after them. */
  function ReadString(s: Bytestring): (r: Option<(Bytestring, Bytestring)>)
    ensures r.Some? ==> |r.value.1| < |s|
  {
    match ReadLong(s, DOLLAR)
    case None => None
    case Some((len, rest)) =>
      if len < 0 || |rest| < len + 2 || !AtNewline(rest, len) then None else Some((rest[..len], rest[len + 2..]))
  }

  /** The first argument decides whether a transaction begins or ends; None where that is wrong. */
  function Enter(name: Bytestring, multi: nat): Option<nat>
  {
    if IsWord(name, "multi") then (if multi > 0 then None else Some(1))
    else if IsWord(name, "exec") then (if multi == 1 then Some(0) else None)
    else Some(multi)
  }

  /** The loop over the arguments that are still to come: what is left, and the state of MULTI. */
  function ReadArgs(s: Bytestring, left: int, first: bool, multi: nat): (r: Option<(Bytestring, nat)>)
    ensures r.Some? ==> |r.value.0| <= |s|
    decreases left
  {
    if left <= 0 then Some((s, multi))
    else
      match ReadString(s)
      case None => None
      case Some((a, rest)) =>
        if first then
          match Enter(a, multi) case None => None case Some(m) => ReadArgs(rest, left - 1, false, m)
        else ReadArgs(rest, left - 1, false, multi)
  }

  /** The loop of process: `at` bytes are read, and up to `pos` the log can be kept. */
  function Process(s: Bytestring, at: nat, pos: nat, multi: nat): nat
    decreases |s|
  {
    var p := if multi == 0 then at else pos;
    match ReadLong(s, STAR)
    case None => p
    case Some((argc, rest)) =>
      match ReadArgs(rest, argc, true, multi)
      case None => p
      case Some((more, m)) => Process(more, at + |s| - |more|, p, m)
  }

  /** The length to which the file is cut. */
  function SafeLength(file: Bytestring): nat { Process(file, 0, 0, 0) }

  // ----- logs as the server writes them -----

  /** MULTI and EXEC in the log, read one after the other: whether one is open at the end; None where
      they do not match. */
  function MultiAfter(cmds: seq<Argv>, multi: nat): Option<nat>
    decreases |cmds|
  {
    if cmds == [] then Some(multi)
    else if cmds[0] == [] then None
    else match Enter(cmds[0][0], multi) case None => None case Some(m) => MultiAfter(cmds[1..], m)
  }

  /** Commands that can be read, with MULTI and EXEC in pairs. */
  ghost predicate WellFormed(cmds: seq<Argv>, multi: nat)
  {
    (forall argv :: argv in cmds ==> Fits(argv)) && MultiAfter(cmds, multi).Some?
  }

  lemma ReadLongReads(prefix: Byte, n: nat, rest: Bytestring)
    requires n <= INT64_MAX && prefix != LF
    ensures ReadLong(Header(prefix, n) + rest, prefix) == Some((n, rest))
  {
    var h := Header(prefix, n);
    HeaderLineIs(prefix, n, rest);
    HeaderStarts(prefix, n);
    NumberThenNewline(prefix, n);
    hide Line, Header, Print, Number, Strtoll, AtNewline;
    assert (h + rest)[0] == h[0] && (h + rest)[|h|..] == rest;
  }

  lemma NumberThenNewline(prefix: Byte, n: nat)
    ensures var number := Header(prefix, n)[1..]; AtNewline(number, Number(number).1)
  {
    assert Header(prefix, n)[1..] == Print(n) + CRLF;
    NumberOfPrint(n, CRLF);
    hide Print, Number;
  }

  lemma BodyParts(a: Bytestring, rest: Bytestring)
    ensures var body := a + CRLF + rest;
      body[..|a|] == a && body[|a| + 2..] == rest && AtNewline(body, |a|)
  {
    var body := a + CRLF + rest;
    assert body[|a|] == CR && body[|a| + 1] == LF;
  }

  lemma ReadStringReads(a: Bytestring, rest: Bytestring)
    requires |a| <= INT64_MAX
    ensures ReadString(Bulk(a) + rest) == Some((a, rest))
  {
    var h, body := Header(DOLLAR, |a|), a + CRLF + rest;
    assert Bulk(a) + rest == h + body;
    hide Header, ReadLong, Bulk, AtNewline;
    ReadLongReads(DOLLAR, |a|, body);
    BodyParts(a, rest);
  }

  lemma {:induction false} ReadArgsReads(argv: Argv, rest: Bytestring, first: bool, multi: nat)
    requires forall a :: a in argv ==> |a| <= INT64_MAX
    ensures ReadArgs(Bulks(argv) + rest, |argv|, first, multi)
         == (if argv == [] || !first then Some((rest, multi))
             else match Enter(argv[0], multi) case None => None case Some(m) => Some((rest, m)))
    decreases |argv|
  {
    hide ReadString, Bulk, Enter;
    if argv == [] {
      assert Bulks(argv) + rest == rest;
    } else {
      var a, more := argv[0], Bulks(argv[1..]) + rest;
      assert a in argv;
      assert Bulks(argv) + rest == Bulk(a) + more;
      hide Bulks;
      ReadStringReads(a, more);
      match Enter(a, multi)
      case None => ReadArgsReads(argv[1..], rest, false, multi);
      case Some(m) =>
        ReadArgsReads(argv[1..], rest, false, m);
        ReadArgsReads(argv[1..], rest, false, multi);
    }
  }

  /** One whole command is read as such. */
  lemma ProcessStep(argv: Argv, rest: Bytestring, at: nat, pos: nat, multi: nat)
    requires Fits(argv)
    ensures var p := if multi == 0 then at else pos;
      Process(Cat(argv) + rest, at, pos, multi)
      == (match Enter(argv[0], multi) case None => p case Some(m) => Process(rest, at + |Cat(argv)|, p, m))
  {
    hide ReadLong, ReadArgs, Enter, Header, Bulks;
    var h, body := Header(STAR, |argv|), Bulks(argv) + rest;
    assert Cat(argv) + rest == h + body;
    ReadLongReads(STAR, |argv|, body);
    ReadArgsReads(argv, rest, true, multi);
  }

  // ----- a command cut short -----

  /** t is the beginning of s, and not all of it. */
  predicate Cut(t: Bytestring, s: Bytestring) { |t| < |s| && t == s[..|t|] }

  lemma HeaderHasNoNewline(prefix: Byte, n: nat, i: nat)
    requires prefix != LF && i < |Header(prefix, n)| - 1
    ensures Header(prefix, n)[i] != LF
  {
    var d := PrintNat(n);
    var h := Header(prefix, n);
    assert h == [prefix] + d + CRLF;
    hide PrintNat, Header;
    if 0 < i <= |d| { assert h[i] == d[i - 1] && Digit(d[i - 1]); }
  }

  lemma {:induction false} WholeLine(s: Bytestring, room: nat)
    requires LF !in s && |s| <= room
    ensures LineLength(s, room) == |s|
    decreases |s|
  {
    if s != [] {
      assert s[0] in s;
      WholeLine(s[1..], room - 1);
    }
  }

  /** A header line cut short has no newline, and is taken as it is. */
  lemma CutHeader(prefix: Byte, n: nat, t: Bytestring)
    requires n <= INT64_MAX && prefix != LF && Cut(t, Header(prefix, n))
    ensures LF !in t && Line(t) == t
  {
    TenNineteen();
    PrintShort(n, 19);
    var h := Header(prefix, n);
    assert |h| <= 22;
    forall i | 0 <= i < |t| ensures t[i] != LF {
      HeaderHasNoNewline(prefix, n, i);
      assert t[i] == h[..|t|][i];
    }
    hide Header, PrintNat;
    WholeLine(t, LINE_ROOM);
  }

  lemma CutHeaderUnread(prefix: Byte, n: nat, t: Bytestring)
    requires n <= INT64_MAX && prefix != LF && Cut(t, Header(prefix, n))
    ensures ReadLong(t, prefix) == None
  {
    CutHeader(prefix, n, t);
    hide Header, Number, Line;
    if t != [] {
      var number := Line(t)[1..];
      var i := Number(number).1 + 1;
      if i < |number| { assert number[i] == t[i + 1]; }
    }
  }

  /** A cut either falls into the first part or leaves it whole. */
  lemma CutWhere(t: Bytestring, a: Bytestring, b: Bytestring)
    requires Cut(t, a + b)
    ensures if |t| < |a| then Cut(t, a) else Cut(t[|a|..], b) && t == a + t[|a|..]
  {
    if |t| < |a| {
      assert (a + b)[..|t|] == a[..|t|];
    } else {
      assert (a + b)[..|t|] == a + b[..|t| - |a|];
    }
  }

  lemma CutBulk(a: Bytestring, t: Bytestring)
    requires |a| <= INT64_MAX && Cut(t, Bulk(a))
    ensures ReadString(t) == None && ParseArg(t) == None
  {
    var h := Header(DOLLAR, |a|);
    assert Bulk(a) == h + (a + CRLF);
    CutWhere(t, h, a + CRLF);
    if |t| < |h| {
      CutHeader(DOLLAR, |a|, t);
      CutHeaderUnread(DOLLAR, |a|, t);
      hide Header, Line, ReadLong, Strtoll;
    } else {
      ReadLongReads(DOLLAR, |a|, t[|h|..]);
      HeaderLineIs(DOLLAR, |a|, t[|h|..]);
      hide Header, Line, ReadLong, Strtoll;
    }
  }

  lemma CutFirst(argv: Argv, t: Bytestring)
    requires Cut(t, Bulks(argv))
    ensures argv != []
    ensures var b := Bulk(argv[0]);
      if |t| < |b| then Cut(t, b) else Cut(t[|b|..], Bulks(argv[1..])) && t == b + t[|b|..]
  {
    CutWhere(t, Bulk(argv[0]), Bulks(argv[1..]));
    hide Bulk, Bulks, Cut;
  }

  lemma {:induction false} CutBulks(argv: Argv, t: Bytestring, first: bool, multi: nat)
    requires (forall a :: a in argv ==> |a| <= INT64_MAX) && Cut(t, Bulks(argv))
    ensures ReadArgs(t, |argv|, first, multi) == None
    decreases |argv|
  {
    hide ReadString, Enter, Bulk, Bulks, Cut;
    CutFirst(argv, t);
    var a := argv[0];
    assert a in argv;
    if |t| < |Bulk(a)| {
      CutBulk(a, t);
    } else {
      var u := t[|Bulk(a)|..];
      ReadStringReads(a, u);
      match Enter(a, multi)
      case None => CutBulks(argv[1..], u, false, multi);
      case Some(m) =>
        CutBulks(argv[1..], u, false, m);
        CutBulks(argv[1..], u, false, multi);
    }
  }

  lemma {:induction false} CutBulksUnparsed(argv: Argv, t: Bytestring)
    requires (forall a :: a in argv ==> |a| <= INT64_MAX) && Cut(t, Bulks(argv))
    ensures ParseArgs(t, |argv|) == None
    decreases |argv|
  {
    hide ParseArg, Bulk, Bulks, Cut;
    CutFirst(argv, t);
    var a := argv[0];
    assert a in argv;
    if |t| < |Bulk(a)| {
      CutBulk(a, t);
    } else {
      var u := t[|Bulk(a)|..];
      BulkParses(a, u);
      CutBulksUnparsed(argv[1..], u);
    }
  }

  /** A command cut short ends the reading, and makes the log unloadable. */
  lemma CutCommand(argv: Argv, t: Bytestring, at: nat, pos: nat, multi: nat)
    requires Fits(argv) && Cut(t, Cat(argv))
    ensures Process(t, at, pos, multi) == if multi == 0 then at else pos
    ensures t != [] ==> ParseCommand(t) == None
  {
    var h := Header(STAR, |argv|);
    CutWhere(t, h, Bulks(argv));
    if |t| < |h| {
      CutHeader(STAR, |argv|, t);
      CutHeaderUnread(STAR, |argv|, t);
      hide Header, Line, ReadLong, Atoi;
      assert |t[|t|..]| == 0;
    } else {
      var u := t[|h|..];
      ReadLongReads(STAR, |argv|, u);
      HeaderLineIs(STAR, |argv|, u);
      HeaderStarts(STAR, |argv|);
      CutBulks(argv, u, true, multi);
      CutBulksUnparsed(argv, u);
      SmallIsInt(|argv|);
      hide Header, Line, ReadLong, ReadArgs, ParseArgs, Strtoll, Bulks;
    }
  }
}
