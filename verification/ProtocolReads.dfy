/** networking.c, readQueryFromClient: how much is read at a time, and why the size limit never strikes a
    client that is served after every read. */
module ProtocolReads {
  import opened Bytes
  import opened Decimal
  import opened Wire
  import opened Protocol
  import opened ProtocolRuns

  const IOBUF_LEN := 16384

  /** readlen: inside a big argument, nothing past its end. */
  function ReadLimit(c: Core, rest: Bytestring): nat
  {
    if c.reqtype == Multibulk && c.multibulklen != 0 && c.bulklen >= MBULK_BIG_ARG
      && c.bulklen + 2 - |rest| < IOBUF_LEN then
      (if c.bulklen + 2 < |rest| then 0 else c.bulklen + 2 - |rest|)
    else IOBUF_LEN
  }

  /** Something is asked for whenever what has come is parsed as far as it goes: 16384 bytes, or what is missing of a
      big argument where that is less. */
  lemma SomethingAsked(c: Core, rest: Bytestring)
    requires CoreOk(c) && c.error == None && !OneStep(c, rest).Next?
    ensures ReadLimit(c, rest) > 0
    ensures ReadLimit(c, rest) == 16384 || (c.bulklen >= 32768 && |rest| + ReadLimit(c, rest) == c.bulklen + 2)
  {
    hide FindCrlf, HeaderLine, Words;
  }

  /** Each read takes at most what is asked for. */
  ghost predicate Asked(c: Core, rest: Bytestring, chunks: seq<Bytestring>)
    requires CoreOk(c)
    decreases |chunks|
  {
    chunks != [] ==>
      && |chunks[0]| <= ReadLimit(c, rest)
      && Asked(Process(c, rest + chunks[0], 0).0, Process(c, rest + chunks[0], 0).1, chunks[1..])
  }

  lemma {:induction false} OneMoreRead(c: Core, rest: Bytestring, chunks: seq<Bytestring>, chunk: Bytestring, d: Core,
                                       left: Bytestring)
    requires CoreOk(c) && CoreOk(d) && Reads(c, rest, chunks) == (d, left)
    requires Asked(c, rest, chunks) && |chunk| <= ReadLimit(d, left)
    ensures Asked(c, rest, chunks + [chunk]) && Flatten(chunks + [chunk]) == Flatten(chunks) + chunk
    ensures Reads(c, rest, chunks + [chunk]) == Process(d, left + chunk, 0)
    decreases |chunks|
  {
    hide Process, CoreOk, ReadLimit;
    var more := chunks + [chunk];
    if chunks == [] {
      assert more == [chunk] && more[1..] == [];
      assert Flatten(more) == chunk + [];
    } else {
      assert more[0] == chunks[0] && more[1..] == chunks[1..] + [chunk];
      var (e, r) := Process(c, rest + chunks[0], 0);
      OneMoreRead(e, r, chunks[1..], chunk, d, left);
    }
  }

  // ----- what is unread while a valid stream comes in -----

  /** The client is somewhere inside a stream of sendable commands, with s of it still to come: between
      commands, before an argument, or inside one. */
  ghost predicate Inside(c: Core, s: Bytestring, left: Argv, cmds: seq<Argv>)
  {
    && CoreOk(c) && c.error == None
    && (forall a :: a in cmds ==> Sendable(a)) && (forall a :: a in left ==> |a| <= MAX_BULK)
    && if left == [] then c == Idle(c.executed) && s == CatAll(cmds)
       else if c.bulklen == -1 then Reading(c, left) && s == Bulks(left) + CatAll(cmds)
       else Reading(c.(bulklen := -1), left) && c.bulklen == |left[0]|
            && s == left[0] + CRLF + (Bulks(left[1..]) + CatAll(cmds))
  }

  /** Nothing is unread but less than an argument, or part of a header line. */
  predicate Short(c: Core, rest: Bytestring)
  {
    && c.error == None
    && if c.bulklen >= 0 then c.reqtype == Multibulk && c.multibulklen > 0 && |rest| < c.bulklen + 2
       else |rest| <= 32
  }

  lemma HeaderShort(prefix: Byte, n: nat)
    requires n <= MAX_BULK
    ensures |Header(prefix, n)| <= 32
  {
    TenNineteen();
    PrintShort(n, 19);
  }

  /** What has come of a header line and what follows it: all of the line, or little. */
  lemma InHeader(prefix: Byte, n: nat, tail: Bytestring, p: Bytestring)
    requires prefix != CR && prefix != NUL && n <= MAX_BULK && p <= Header(prefix, n) + tail && p != []
    ensures p[0] == prefix && (HeaderLine(p) == Line(Some(n), |Header(prefix, n)|) || |p| <= 32)
  {
    var h := Header(prefix, n);
    HeaderShort(prefix, n);
    HeaderReads(prefix, n, tail);
    if |p| >= |h| {
      HeaderReads(prefix, n, p[|h|..]);
      hide Header, HeaderLine;
      assert p == h + p[|h|..];
    }
  }

  lemma BulksFirst(left: Argv, rest: Bytestring)
    requires left != []
    ensures Bulks(left) + rest == Bulk(left[0]) + (Bulks(left[1..]) + rest)
  {
    hide Bulk;
  }

  lemma BulkFirst(a: Bytestring, rest: Bytestring)
    ensures Bulk(a) + rest == Header(DOLLAR, |a|) + (a + CRLF + rest)
  {
    hide Header;
  }

  lemma CatFirst(cmds: seq<Argv>)
    requires cmds != []
    ensures CatAll(cmds) == Header(STAR, |cmds[0]|) + (Bulks(cmds[0]) + CatAll(cmds[1..]))
  {
    hide Header, Bulks;
  }

  /** Between commands, a stream that begins with a star is read as a command's header. */
  lemma CountRead(done: seq<Argv>, p: Bytestring, n: nat, size: nat)
    requires p != [] && p[0] == STAR && 1 <= n <= MAX_ARGC && HeaderLine(p) == Line(Some(n), size)
    ensures OneStep(Idle(done), p) == Next(Idle(done).(reqtype := Multibulk, multibulklen := n), size)
  {
    hide HeaderLine;
  }

  lemma IdleSteps(c: Core, s: Bytestring, cmds: seq<Argv>, p: Bytestring) returns (left: Argv, more: seq<Argv>)
    requires Inside(c, s, [], cmds) && p <= s && p != [] && OneStep(c, p).Next?
    ensures var Next(d, n) := OneStep(c, p); n <= |s| && Inside(d, s[n..], left, more)
  {
    hide Header, Bulks, OneStep, HeaderLine;
    assert cmds != [];
    left, more := cmds[0], cmds[1..];
    var tail := Bulks(left) + CatAll(more);
    assert left in cmds;
    CatFirst(cmds);
    hide CatAll;
    HeaderReads(STAR, |left|, tail);
    CountRead(c.executed, s, |left|, |Header(STAR, |left|)|);
    StepExtends(c, p, s[|p|..]);
    assert p + s[|p|..] == s;
  }

  lemma IdleWaitsShort(c: Core, s: Bytestring, cmds: seq<Argv>, p: Bytestring)
    requires Inside(c, s, [], cmds) && p <= s && !OneStep(c, p).Next?
    ensures Short(Resting(c, p), p)
  {
    hide Header, Bulks, OneStep, HeaderLine;
    if p != [] {
      assert cmds != [];
      var argv := cmds[0];
      assert argv in cmds;
      CatFirst(cmds);
      hide CatAll;
      InHeader(STAR, |argv|, Bulks(argv) + CatAll(cmds[1..]), p);
      if |p| > 32 { CountRead(c.executed, p, |argv|, |Header(STAR, |argv|)|); }
    }
  }

  lemma LengthSteps(c: Core, s: Bytestring, left: Argv, cmds: seq<Argv>, p: Bytestring)
    requires left != [] && c.bulklen == -1 && Inside(c, s, left, cmds) && p <= s && OneStep(c, p).Next?
    ensures var Next(d, n) := OneStep(c, p); n <= |s| && Inside(d, s[n..], left, cmds)
  {
    hide Header, Bulks, Bulk, CatAll, OneStep;
    var tail := Bulks(left[1..]) + CatAll(cmds);
    BulksFirst(left, CatAll(cmds));
    BulkReads(c, left, tail);
    StepExtends(c, p, s[|p|..]);
    assert p + s[|p|..] == s;
  }

  lemma LengthWaitsShort(c: Core, s: Bytestring, left: Argv, cmds: seq<Argv>, p: Bytestring)
    requires left != [] && c.bulklen == -1 && Inside(c, s, left, cmds) && p <= s && !OneStep(c, p).Next?
    ensures Short(Resting(c, p), p)
  {
    hide Header, Bulks, Bulk, CatAll, HeaderLine, Parse, FindCrlf;
    if p != [] {
      var a := left[0];
      var tail := Bulks(left[1..]) + CatAll(cmds);
      BulksFirst(left, CatAll(cmds));
      BulkFirst(a, tail);
      InHeader(DOLLAR, |a|, a + CRLF + tail, p);
    }
  }

  lemma ArgumentSteps(c: Core, s: Bytestring, left: Argv, cmds: seq<Argv>, p: Bytestring)
    requires left != [] && c.bulklen != -1 && Inside(c, s, left, cmds) && p <= s && OneStep(c, p).Next?
    ensures var Next(d, n) := OneStep(c, p); n <= |s| && Inside(d, s[n..], left[1..], cmds)
  {
    var tail := Bulks(left[1..]) + CatAll(cmds);
    ArgumentReads(c.(bulklen := -1), left, tail);
    StepExtends(c, p, s[|p|..]);
    hide Bulk, CatAll, OneStep;
    assert p + s[|p|..] == s;
    if |left| == 1 { assert [] + CatAll(cmds) == CatAll(cmds); }
  }

  lemma ArgumentWaitsShort(c: Core, s: Bytestring, left: Argv, cmds: seq<Argv>, p: Bytestring)
    requires left != [] && c.bulklen != -1 && Inside(c, s, left, cmds) && p <= s && !OneStep(c, p).Next?
    ensures Short(Resting(c, p), p)
  {
  }

  /** However much of a valid stream has come in, what is unread is short. */
  lemma {:induction false} DrainShort(c: Core, s: Bytestring, left: Argv, cmds: seq<Argv>, p: Bytestring)
    requires Inside(c, s, left, cmds) && p <= s
    ensures var (d, rest) := Drain(c, p); Short(d, rest)
    decreases |p|, if c.error == None then 1 else 0
  {
    hide OneStep, Resting, Inside, Short, Bulks, CatAll;
    assert CoreOk(c) && (left == [] && p == [] ==> !OneStep(c, p).Next?) by { InsideOk(c, s, left, cmds); }
    if OneStep(c, p).Next? {
      var Next(d, n) := OneStep(c, p);
      var l, m := left, cmds;
      if left == [] { l, m := IdleSteps(c, s, cmds, p); }
      else if c.bulklen == -1 { LengthSteps(c, s, left, cmds, p); }
      else { ArgumentSteps(c, s, left, cmds, p); l := left[1..]; }
      assert p[n..] <= s[n..];
      DrainShort(d, s[n..], l, m, p[n..]);
    } else if left == [] {
      IdleWaitsShort(c, s, cmds, p);
    } else if c.bulklen == -1 {
      LengthWaitsShort(c, s, left, cmds, p);
    } else {
      ArgumentWaitsShort(c, s, left, cmds, p);
    }
  }

  lemma InsideOk(c: Core, s: Bytestring, left: Argv, cmds: seq<Argv>)
    requires Inside(c, s, left, cmds)
    ensures CoreOk(c) && (left == [] ==> !OneStep(c, []).Next?)
  {
  }

  // ----- so no read reaches the limit -----

  lemma ReadClogsNot(c: Core, rest: Bytestring, chunk: Bytestring)
    requires CoreOk(c) && Short(c, rest) && |chunk| <= ReadLimit(c, rest)
    ensures !Clogs(c, rest + chunk, 0)
  {
    var all := rest + chunk;
    if |all| <= INLINE_MAX_SIZE {
      hide Clogs;
      SmallBuffersNeverClog(c, all, 0);
    } else if |all| == c.bulklen + 2 {
      var Next(d, n) := OneStep(c, all);
      assert n == |all| && all[n..] == [];
      hide OneStep, Clogs;
      SmallBuffersNeverClog(d, [], 0);
    }
  }

  lemma {:induction false} ReadsClogNot(cmds: seq<Argv>, got: Bytestring, chunks: seq<Bytestring>)
    requires forall a :: a in cmds ==> Sendable(a)
    requires got + Flatten(chunks) <= CatAll(cmds)
    requires var (c, rest) := Drain(IDLE, got); Asked(c, rest, chunks)
    ensures var (c, rest) := Drain(IDLE, got); !EverClogs(c, rest, chunks)
    decreases |chunks|
  {
    hide Drain, Process, Clogs, CatAll, OneStep, Resting, ReadLimit, Sendable;
    if chunks != [] {
      var (c, rest) := Drain(IDLE, got);
      IdleInside(cmds);
      assert got <= CatAll(cmds) by { assert got <= got + Flatten(chunks); }
      DrainShort(IDLE, CatAll(cmds), [], cmds, got);
      ReadClogsNot(c, rest, chunks[0]);
      var now := got + chunks[0];
      DrainResumes(IDLE, got, chunks[0]);
      ProcessIsDrain(c, rest + chunks[0], 0);
      assert now + Flatten(chunks[1..]) == got + Flatten(chunks);
      ReadsClogNot(cmds, now, chunks[1..]);
    }
  }

  lemma IdleInside(cmds: seq<Argv>)
    requires forall a :: a in cmds ==> Sendable(a)
    ensures Inside(IDLE, CatAll(cmds), [], cmds)
  {
  }

  /** The protocol guarantee without a condition: a client that is served after every read, each read being
      what readQueryFromClient asks for or less, is never struck by the limit on a valid stream. */
  lemma NeverStruck(cmds: seq<Argv>, chunks: seq<Bytestring>)
    requires forall a :: a in cmds ==> Sendable(a)
    requires Flatten(chunks) <= CatAll(cmds) && Asked(IDLE, [], chunks)
    ensures !EverClogs(IDLE, [], chunks)
  {
    hide CatAll, Sendable;
    assert Drain(IDLE, []) == (IDLE, []);
    assert [] + Flatten(chunks) == Flatten(chunks);
    ReadsClogNot(cmds, [], chunks);
  }

  /** So every command list is executed as it is. */
  lemma CommandsAlwaysArrive(cmds: seq<Argv>, chunks: seq<Bytestring>)
    requires forall a :: a in cmds ==> Sendable(a)
    requires Flatten(chunks) == CatAll(cmds) && Asked(IDLE, [], chunks)
    ensures Reads(IDLE, [], chunks) == (Idle(cmds), [])
  {
    hide CatAll, Sendable, Reads, EverClogs;
    NeverStruck(cmds, chunks);
    CommandsArrive(cmds, chunks);
  }
}
