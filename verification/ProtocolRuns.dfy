/** networking.c, input side, over whole connections: a command stream cut into reads. */
module ProtocolRuns {
  import opened Bytes
  import opened Decimal
  import opened Wire
  import opened Protocol

  // ----- one buffer, with the size limit -----

  /** Bytes of the buffer already used when a step has been taken: the buffer is cut at the end of
      a command, before a big argument, and when such an argument is all it holds. */
  function PosAfter(c: Core, rest: Bytestring, pos: nat, d: Core, n: nat): nat
  {
    if d.reqtype == Unknown then 0
    else if c.bulklen == -1 && d.bulklen >= MBULK_BIG_ARG then 0
    else if c.bulklen >= MBULK_BIG_ARG && pos == 0 && |rest| == c.bulklen + 2 then 0
    else pos + n
  }

  /** Parsing as far as the bytes go, where `pos` bytes of the same buffer were used before `rest`.
      A header that has no CR yet is an error when the whole buffer is too long. */
  function Process(c: Core, rest: Bytestring, pos: nat): (r: (Core, Bytestring))
    requires CoreOk(c)
    ensures CoreOk(r.0)
    decreases |rest|, if c.error == None then 1 else 0
  {
    match OneStep(c, rest)
    case Next(d, n) => Process(d, rest[n..], PosAfter(c, rest, pos, d, n))
    case WaitForCr(e) =>
      if pos + |rest| > INLINE_MAX_SIZE then (Resting(c, rest).(error := Some(e)), rest) else (Resting(c, rest), rest)
    case _ => (Resting(c, rest), rest)
  }

  /** The limit strikes. */
  predicate Clogs(c: Core, rest: Bytestring, pos: nat)
    requires CoreOk(c)
    decreases |rest|, if c.error == None then 1 else 0
  {
    match OneStep(c, rest)
    case Next(d, n) => Clogs(d, rest[n..], PosAfter(c, rest, pos, d, n))
    case WaitForCr(_) => pos + |rest| > INLINE_MAX_SIZE
    case _ => false
  }

  /** The limit decides only whether the connection is given up; the commands found are the same. */
  lemma {:induction false} ProcessIsDrain(c: Core, rest: Bytestring, pos: nat)
    requires CoreOk(c)
    ensures var (d, left) := Drain(c, rest); var (p, l) := Process(c, rest, pos);
      && l == left && p == d.(error := p.error)
      && (if Clogs(c, rest, pos) then p.error != None && d.error == None && OneStep(d, left).WaitForCr? else p == d)
    decreases |rest|, if c.error == None then 1 else 0
  {
    match OneStep(c, rest)
    case Next(d, n) => ProcessIsDrain(d, rest[n..], PosAfter(c, rest, pos, d, n));
    case _ => RestedStep(c, rest);
  }

  lemma RestedStep(c: Core, rest: Bytestring)
    requires CoreOk(c)
    ensures CoreOk(Resting(c, rest)) && OneStep(Resting(c, rest), rest) == OneStep(c, rest)
  {
  }

  // ----- a sequence of reads -----

  function Flatten(chunks: seq<Bytestring>): Bytestring
  {
    if chunks == [] then [] else chunks[0] + Flatten(chunks[1..])
  }

  /** What arrives between two rounds of parsing, one read or several, is appended to what is unread, and the
      buffer is processed. */
  function Reads(c: Core, rest: Bytestring, chunks: seq<Bytestring>): (Core, Bytestring)
    requires CoreOk(c)
    decreases |chunks|
  {
    if chunks == [] then (c, rest)
    else
      var (d, left) := Process(c, rest + chunks[0], 0);
      Reads(d, left, chunks[1..])
  }

  predicate EverClogs(c: Core, rest: Bytestring, chunks: seq<Bytestring>)
    requires CoreOk(c)
    decreases |chunks|
  {
    chunks != [] &&
    (Clogs(c, rest + chunks[0], 0) ||
     EverClogs(Process(c, rest + chunks[0], 0).0, Process(c, rest + chunks[0], 0).1, chunks[1..]))
  }

  /** However a stream, valid or not, is cut into reads: unless the limit strikes, the commands
      found, the error if any and the bytes left over are those of the stream in one piece. */
  lemma {:induction false} SplitIndependence(c: Core, rest: Bytestring, chunks: seq<Bytestring>)
    requires CoreOk(c) && Drain(c, rest) == (c, rest) && !EverClogs(c, rest, chunks)
    ensures Reads(c, rest, chunks) == Drain(c, rest + Flatten(chunks))
    decreases |chunks|
  {
    hide Drain, Process, Clogs, OneStep;
    if chunks == [] {
      assert rest + [] == rest;
    } else {
      var all := rest + chunks[0];
      ProcessIsDrain(c, all, 0);
      var (d, left) := Drain(c, all);
      DrainResumes(c, all, []);
      assert left + [] == left && all + [] == all;
      SplitIndependence(d, left, chunks[1..]);
      DrainResumes(c, all, Flatten(chunks[1..]));
      assert all + Flatten(chunks[1..]) == rest + Flatten(chunks);
    }
  }

  /** Once in error a connection executes nothing more. */
  lemma {:induction false} ErrorIsFinal(c: Core, rest: Bytestring, chunks: seq<Bytestring>)
    requires CoreOk(c) && c.error != None
    ensures Reads(c, rest, chunks).0 == c
    decreases |chunks|
  {
    if chunks != [] { ErrorIsFinal(c, rest + chunks[0], chunks[1..]); }
  }

  // ----- valid streams -----

  /** Parsing `s` from `c` executes `argv`, and does so with its very last byte. */
  ghost predicate Yields(c: Core, s: Bytestring, argv: Argv)
    requires CoreOk(c)
    decreases |s|, if c.error == None then 1 else 0
  {
    match OneStep(c, s)
    case Next(d, n) =>
      if n == |s| then d == IDLE.(executed := c.executed + [argv])
      else d.executed == c.executed && Yields(d, s[n..], argv)
    case _ => false
  }

  lemma {:induction false} YieldsDrains(c: Core, s: Bytestring, argv: Argv)
    requires CoreOk(c) && Yields(c, s, argv)
    ensures Drain(c, s) == (IDLE.(executed := c.executed + [argv]), [])
    decreases |s|, if c.error == None then 1 else 0
  {
    var Next(d, n) := OneStep(c, s);
    if n < |s| { YieldsDrains(d, s[n..], argv); }
  }

  /** No proper prefix executes anything. */
  lemma {:induction false} PrefixYieldsNothing(c: Core, s: Bytestring, argv: Argv, m: nat)
    requires CoreOk(c) && Yields(c, s, argv) && m < |s|
    ensures Drain(c, s[..m]).0.executed == c.executed
    decreases |s|, if c.error == None then 1 else 0
  {
    hide OneStep;
    if OneStep(c, s[..m]).Next? {
      StepExtends(c, s[..m], s[m..]);
      assert s[..m] + s[m..] == s;
      var Next(d, n) := OneStep(c, s);
      assert s[..m][n..] == s[n..][..m - n];
      PrefixYieldsNothing(d, s[n..], argv, m - n);
    }
  }

  lemma {:induction false} FindFirst(s: Bytestring, i: nat)
    requires i < |s| && s[i] == CR && forall k :: 0 <= k < i ==> s[k] != CR && s[k] != NUL
    ensures FindByte(s, CR) == Some(i)
  {
    if i > 0 { FindFirst(s[1..], i - 1); }
  }

  lemma {:induction false} PrintIsPlain(n: nat)
    ensures forall k :: 0 <= k < |PrintNat(n)| ==> PrintNat(n)[k] != CR && PrintNat(n)[k] != NUL
  {
    assert Digits(PrintNat(n));
  }

  /** A printed header line reads back, whatever follows. */
  lemma HeaderReads(prefix: Byte, n: nat, tail: Bytestring)
    requires prefix != CR && prefix != NUL && Int64(n)
    ensures var h := Header(prefix, n);
      HeaderLine(h + tail) == Line(Some(n), |h|) && (h + tail)[0] == prefix && (h + tail)[|h|..] == tail
  {
    var p, s := Print(n), Header(prefix, n) + tail;
    PrintIsPlain(n);
    assert s[1..1 + |p|] == p;
    assert s[1 + |p|] == CR;
    FindFirst(s, 1 + |p|);
    ParseIsInverse(p, n);
  }

  /** The state inside a command with `argv` still to come. */
  ghost predicate Reading(c: Core, left: Argv)
  {
    c.error == None && c.reqtype == Multibulk && c.multibulklen == |left| > 0 && c.bulklen == -1
  }

  lemma BulkReads(c: Core, left: Argv, tail: Bytestring)
    requires CoreOk(c) && Reading(c, left) && |left[0]| <= MAX_BULK
    ensures var s := Bulk(left[0]) + tail; var n := |Header(DOLLAR, |left[0]|)|;
      && OneStep(c, s) == Next(c.(bulklen := |left[0]|), n)
      && s[n..] == left[0] + CRLF + tail
  {
    var a := left[0];
    var h := Header(DOLLAR, |a|);
    HeaderReads(DOLLAR, |a|, a + CRLF + tail);
    assert Bulk(a) + tail == h + (a + CRLF + tail);
  }

  lemma ArgumentReads(c: Core, left: Argv, tail: Bytestring)
    requires CoreOk(c) && Reading(c, left) && |left[0]| <= MAX_BULK
    ensures var s := left[0] + CRLF + tail; var d := c.(bulklen := |left[0]|); var argv := c.argv + [left[0]];
      && CoreOk(d) && s[|left[0]| + 2..] == tail
      && OneStep(d, s) == Next(if |left| == 1 then Finish(d, argv)
                               else d.(argv := argv, bulklen := -1, multibulklen := c.multibulklen - 1), |left[0]| + 2)
  {
    assert (left[0] + CRLF + tail)[..|left[0]|] == left[0];
  }

  lemma {:induction false} BulksYield(c: Core, left: Argv)
    requires CoreOk(c) && Reading(c, left) && forall a :: a in left ==> |a| <= MAX_BULK
    ensures Yields(c, Bulks(left), c.argv + left)
    decreases |left|
  {
    hide Yields, OneStep;
    var tail := Bulks(left[1..]);
    var d := c.(bulklen := |left[0]|);
    if |left| == 1 {
      assert left == [left[0]] && tail == [];
      OneBulkYields(c, left, tail, c.argv + left);
    } else {
      var e := d.(argv := c.argv + [left[0]], bulklen := -1, multibulklen := c.multibulklen - 1);
      BulksYield(e, left[1..]);
      assert e.argv + left[1..] == c.argv + left;
      assert tail != [];
      OneBulkYields(c, left, tail, c.argv + left);
    }
  }

  /** The two steps that read one argument, put in front of what follows. */
  lemma OneBulkYields(c: Core, left: Argv, tail: Bytestring, all: Argv)
    requires CoreOk(c) && Reading(c, left) && |left[0]| <= MAX_BULK
    requires var d := c.(bulklen := |left[0]|); var argv := c.argv + [left[0]];
      if |left| == 1 then tail == [] && all == argv
      else tail != [] && CoreOk(d.(argv := argv, bulklen := -1, multibulklen := c.multibulklen - 1)) &&
           Yields(d.(argv := argv, bulklen := -1, multibulklen := c.multibulklen - 1), tail, all)
    ensures Yields(c, Bulk(left[0]) + tail, all)
  {
    BulkReads(c, left, tail);
    ArgumentReads(c, left, tail);
    var s, n := Bulk(left[0]) + tail, |Header(DOLLAR, |left[0]|)|;
    var d, t := c.(bulklen := |left[0]|), left[0] + CRLF + tail;
    hide OneStep, Bulk, Header;
    assert |t| > 0 && n != |s|;
    assert Yields(d, t, all);
  }

  /** A client between commands, with a history. */
  function Idle(done: seq<Argv>): (c: Core)
    ensures CoreOk(c)
  {
    IDLE.(executed := done)
  }

  lemma CatYields(done: seq<Argv>, argv: Argv)
    requires Sendable(argv)
    ensures Yields(Idle(done), Cat(argv), argv)
  {
    var n := |argv|;
    var h := Header(STAR, n);
    var c := Idle(done).(reqtype := Multibulk, multibulklen := n);
    HeaderReads(STAR, n, Bulks(argv));
    assert OneStep(Idle(done), Cat(argv)) == Next(c, |h|);
    BulksYield(c, argv);
    assert [] + argv == argv;
    assert Bulks(argv) != [];
    hide OneStep, Bulks, Header;
  }

  /** A command at the head of a stream is executed, and parsing goes on from idle. */
  lemma CatThenRest(done: seq<Argv>, argv: Argv, tail: Bytestring)
    requires Sendable(argv)
    ensures Drain(Idle(done), Cat(argv) + tail) == Drain(Idle(done + [argv]), tail)
  {
    hide Drain, Cat, Yields, OneStep;
    CatYields(done, argv);
    YieldsDrains(Idle(done), Cat(argv), argv);
    DrainResumes(Idle(done), Cat(argv), tail);
    assert [] + tail == tail;
  }

  lemma IdleWaits(done: seq<Argv>)
    ensures Drain(Idle(done), []) == (Idle(done), []) && OneStep(Idle(done), []) == Wait
  {
  }

  /** The whole stream of a command list executes the list and leaves nothing. */
  lemma {:induction false} CatAllExecutes(done: seq<Argv>, cmds: seq<Argv>)
    requires forall a :: a in cmds ==> Sendable(a)
    ensures Drain(Idle(done), CatAll(cmds)) == (Idle(done + cmds), [])
    decreases |cmds|
  {
    hide Drain, Cat, Sendable, Idle;
    if cmds == [] {
      IdleWaits(done);
      assert done + cmds == done;
    } else {
      CatThenRest(done, cmds[0], CatAll(cmds[1..]));
      CatAllExecutes(done + [cmds[0]], cmds[1..]);
      assert done + [cmds[0]] + cmds[1..] == done + cmds;
    }
  }

  /** A proper prefix of it leaves at least one command unexecuted. */
  lemma {:induction false} PrefixExecutesLess(done: seq<Argv>, cmds: seq<Argv>, p: Bytestring)
    requires forall a :: a in cmds ==> Sendable(a)
    requires p <= CatAll(cmds) && p != CatAll(cmds)
    ensures |Drain(Idle(done), p).0.executed| < |done| + |cmds|
    decreases |cmds|
  {
    hide Drain, Cat, Sendable, Yields;
    var first, tail := Cat(cmds[0]), CatAll(cmds[1..]);
    if |p| < |first| {
      CatYields(done, cmds[0]);
      PrefixYieldsNothing(Idle(done), first, cmds[0], |p|);
      assert p == first[..|p|];
    } else {
      var q := p[|first|..];
      assert p == first + q;
      assert q <= tail && q != tail;
      CatThenRest(done, cmds[0], q);
      PrefixExecutesLess(done + [cmds[0]], cmds[1..], q);
    }
  }

  /** Where the limit strikes, some command has not been executed, and none ever will be. */
  lemma {:induction false} CloggedFallsShort(cmds: seq<Argv>, got: Bytestring, chunks: seq<Bytestring>)
    requires forall a :: a in cmds ==> Sendable(a)
    requires got + Flatten(chunks) == CatAll(cmds)
    requires var (c, rest) := Drain(IDLE, got); EverClogs(c, rest, chunks)
    ensures var (c, rest) := Drain(IDLE, got); |Reads(c, rest, chunks).0.executed| < |cmds|
    decreases |chunks|
  {
    hide Drain, Process, Clogs, CatAll, CoreOk, OneStep, Resting;
    assert IDLE == Idle([]);
    var (c, rest) := Drain(IDLE, got);
    var now := got + chunks[0];
    DrainResumes(IDLE, got, chunks[0]);
    ProcessIsDrain(c, rest + chunks[0], 0);
    assert now + Flatten(chunks[1..]) == got + Flatten(chunks);
    if Clogs(c, rest + chunks[0], 0) {
      if now == CatAll(cmds) { CatAllExecutes([], cmds); IdleWaits([] + cmds); }
      PrefixExecutesLess([], cmds, now);
      var (p, l) := Process(c, rest + chunks[0], 0);
      ErrorIsFinal(p, l, chunks[1..]);
    } else {
      CloggedFallsShort(cmds, now, chunks[1..]);
    }
  }

  /** The protocol guarantee, exactly. Any list of sendable commands, written as the append only
      file writes them and delivered in any portions whatever, is executed as that list if and only
      if the size limit never strikes; and then nothing is left over. ProtocolReads shows that it never
      does as long as every read is followed by a round of parsing. */
  lemma CommandsArrive(cmds: seq<Argv>, chunks: seq<Bytestring>)
    requires forall a :: a in cmds ==> Sendable(a)
    requires Flatten(chunks) == CatAll(cmds)
    ensures Reads(IDLE, [], chunks).0.executed == cmds <==> !EverClogs(IDLE, [], chunks)
    ensures !EverClogs(IDLE, [], chunks) ==> Reads(IDLE, [], chunks) == (Idle(cmds), [])
  {
    assert Drain(IDLE, []) == (IDLE, []);
    assert [] + Flatten(chunks) == CatAll(cmds);
    if EverClogs(IDLE, [], chunks) {
      CloggedFallsShort(cmds, [], chunks);
    } else {
      SplitIndependence(IDLE, [], chunks);
      CatAllExecutes([], cmds);
      assert [] + cmds == cmds;
    }
  }

  /** Reads that never bring the buffer over the limit cannot clog. */
  lemma {:induction false} SmallBuffersNeverClog(c: Core, rest: Bytestring, pos: nat)
    requires CoreOk(c) && pos + |rest| <= INLINE_MAX_SIZE
    ensures !Clogs(c, rest, pos)
    decreases |rest|, if c.error == None then 1 else 0
  {
    match OneStep(c, rest)
    case Next(d, n) => SmallBuffersNeverClog(d, rest[n..], PosAfter(c, rest, pos, d, n));
    case _ =>
  }

  /** The limit can strike a valid stream when several reads come between two rounds of parsing, as they do
      while a client is blocked: a buffer that holds a command with one argument of 64 KB or more, up to the
      '$' of the next argument, is refused although that header has barely begun. */
  lemma LimitStrikes(x: Bytestring, y: Bytestring, parts: seq<Bytestring>)
    requires INLINE_MAX_SIZE <= |x| <= MAX_BULK && |y| <= MAX_BULK
    requires Flatten(parts) == Header(STAR, 2) + Bulk(x) + [DOLLAR]
    ensures var tail := Print(|y|) + CRLF + y + CRLF; var portions := [Flatten(parts), tail];
      && Sendable([x, y]) && Flatten(portions) == CatAll([[x, y]])
      && Reads(IDLE, [], portions).0.executed != [[x, y]]
  {
    var head, tail := Header(STAR, 2) + Bulk(x) + [DOLLAR], Print(|y|) + CRLF + y + CRLF;
    LimitStream(x, y);
    LimitClogs(x);
    assert [] + head == head;
    CommandsArrive([[x, y]], [head, tail]);
  }

  lemma LimitStream(x: Bytestring, y: Bytestring)
    ensures Flatten([Header(STAR, 2) + Bulk(x) + [DOLLAR], Print(|y|) + CRLF + y + CRLF]) == CatAll([[x, y]])
  {
    var h, b := Header(STAR, 2), Bulk(x);
    var head, tail := h + b + [DOLLAR], Print(|y|) + CRLF + y + CRLF;
    assert [DOLLAR] + tail == Bulk(y);
    hide Bulk, Header, Print;
    FlattenTwo(head, tail);
    CatTwo(x, y);
    assert head + tail == h + (b + ([DOLLAR] + tail));
  }

  lemma FlattenTwo(a: Bytestring, b: Bytestring)
    ensures Flatten([a, b]) == a + b
  {
    var chunks, nil: Bytestring := [a] + [b], [];
    assert chunks[1..] == [b] && Flatten([b]) == b + nil;
  }

  lemma CatTwo(x: Bytestring, y: Bytestring)
    ensures CatAll([[x, y]]) == Header(STAR, 2) + (Bulk(x) + Bulk(y))
  {
    hide Bulk, Header;
    var nil: Bytestring := [];
    var cmds: seq<Argv> := [[x, y]];
    var argv: Argv := [x] + [y];
    assert argv[1..] == [y] && Bulks([y]) == Bulk(y) + nil;
    assert |cmds[1..]| == 0 && CatAll(cmds) == Cat(argv) + nil;
  }

  lemma LimitClogs(x: Bytestring)
    requires INLINE_MAX_SIZE <= |x| <= MAX_BULK
    ensures Clogs(IDLE, Header(STAR, 2) + Bulk(x) + [DOLLAR], 0)
  {
    var h, tail, a: Bytestring := Header(STAR, 2), [DOLLAR], [];
    var c := IDLE.(reqtype := Multibulk, multibulklen := 2);
    var left := [x, a];
    HeaderReads(STAR, 2, Bulk(x) + tail);
    assert h + Bulk(x) + tail == h + (Bulk(x) + tail);
    assert OneStep(IDLE, h + Bulk(x) + tail) == Next(c, |h|);
    BulkReads(c, left, tail);
    ArgumentReads(c, left, tail);
    var e := c.(argv := [] + [x], multibulklen := 1);
    assert FindByte(tail, CR) == None by { assert tail[1..] == []; }
    assert OneStep(e, tail) == WaitForCr(TooBigBulkCount);
    hide OneStep, Bulk, Header;
    assert Clogs(e, tail, |x| + 2);
    assert Clogs(c.(bulklen := |x|), x + CRLF + tail, 0);
  }
}
