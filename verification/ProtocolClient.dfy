/** networking.c, input side, as it runs: the client's fields updated in place, one buffer cut up
    by a moving position. */
module ProtocolClient {
  import opened Bytes
  import opened Decimal
  import opened Wire
  import opened Protocol
  import opened ProtocolRuns
  import opened ProtocolReads

  /** strchr, as a scan. */
  method Strchr(s: Bytestring, from: nat, b: Byte) returns (i: Option<nat>)
    requires from <= |s|
    ensures i == match FindByte(s[from..], b) case None => None case Some(k) => Some(from + k)
  {
    var k := from;
    while k < |s|
      invariant from <= k <= |s|
      invariant FindByte(s[from..], b) == match FindByte(s[k..], b) case None => None case Some(j) => Some(k - from + j)
    {
      if s[k] == b { return Some(k); }
      if s[k] == NUL { return None; }
      assert s[k..][1..] == s[k + 1..];
      k := k + 1;
    }
    return None;
  }

  /** strstr for CR LF, as a scan. */
  method StrstrCrlf(s: Bytestring) returns (i: Option<nat>)
    ensures i == FindCrlf(s)
  {
    var k := 0;
    assert s[0..] == s;
    while k + 1 < |s|
      invariant 0 <= k <= |s|
      invariant FindCrlf(s) == match FindCrlf(s[k..]) case None => None case Some(j) => Some(k + j)
    {
      if s[k] == NUL { return None; }
      if s[k] == CR && s[k + 1] == LF { return Some(k); }
      assert s[k..][1..] == s[k + 1..];
      k := k + 1;
    }
    return None;
  }

  /** sdssplitlen on a space, keeping only the pieces that are not empty. */
  method SplitWords(line: Bytestring) returns (argv: Argv)
    ensures argv == Words(line, [])
  {
    argv := [];
    var word: Bytestring := [];
    var rest := line;
    while rest != []
      invariant argv + Words(rest, word) == Words(line, [])
      decreases |rest|
    {
      if rest[0] == SPACE {
        if word != [] { argv := argv + [word]; }
        word := [];
      } else {
        word := word + [rest[0]];
      }
      rest := rest[1..];
    }
    if word != [] { argv := argv + [word]; }
  }

  /** Looks for a header line at `from`: its CR, room for the LF, and the number after the first
      byte. */
  method ScanHeader(s: Bytestring, from: nat) returns (l: Line)
    requires from <= |s|
    ensures l == HeaderLine(s[from..])
  {
    var newline := Strchr(s, from, CR);
    if newline == None { return NoCr; }
    if newline.value > |s| - 2 { return NoLf; }
    var ll := None;
    if newline.value > from {
      assert s[from..][1..newline.value - from] == s[from + 1..newline.value];
      ll := String2Ll(s[from + 1..newline.value]);
    }
    return Line(ll, newline.value + 2 - from);
  }

  // ----- Process, one step at a time -----

  lemma ProcessNext(c: Core, rest: Bytestring, pos: nat)
    requires CoreOk(c) && OneStep(c, rest).Next?
    ensures var Next(d, n) := OneStep(c, rest);
      Process(c, rest, pos) == Process(d, rest[n..], PosAfter(c, rest, pos, d, n))
  {
  }

  lemma ProcessEnd(c: Core, rest: Bytestring, pos: nat)
    requires CoreOk(c) && !OneStep(c, rest).Next?
    ensures Process(c, rest, pos) ==
      match OneStep(c, rest)
      case WaitForCr(e) =>
        if pos + |rest| > INLINE_MAX_SIZE then (Resting(c, rest).(error := Some(e)), rest) else (Resting(c, rest), rest)
      case _ => (Resting(c, rest), rest)
  {
  }

  /** Parsing ends where no step can be taken, and an error stays. */
  lemma {:induction false} ProcessRests(c: Core, rest: Bytestring, pos: nat)
    requires CoreOk(c)
    ensures var (d, left) := Process(c, rest, pos);
      !OneStep(d, left).Next? && (c.error != None ==> d.error != None)
    decreases |rest|, if c.error == None then 1 else 0
  {
    match OneStep(c, rest)
    case Next(d, n) => ProcessRests(d, rest[n..], PosAfter(c, rest, pos, d, n));
    case _ => RestedStep(c, rest);
  }

  lemma ProcessFails(c: Core, rest: Bytestring, pos: nat, e: ProtocolError)
    requires CoreOk(c) && rest != [] && c.error == None && OneStep(c, rest) == Fail(Typed(c, rest[0]), e)
    ensures Process(c, rest, pos) == (Typed(c, rest[0]).(error := Some(e)), rest)
  {
    assert rest[0..] == rest;
  }

  /** Process, read off for a client that is waiting for the length of an argument: no line yet,
      a bad line, a good one. */
  lemma LengthWaits(c: Core, rest: Bytestring, pos: nat)
    requires CoreOk(c) && c.error == None && c.multibulklen > 0 && c.bulklen == -1 && !HeaderLine(rest).Line?
    ensures Process(c, rest, pos) ==
      (if HeaderLine(rest).NoCr? && pos + |rest| > INLINE_MAX_SIZE then c.(error := Some(TooBigBulkCount)) else c, rest)
  {
    hide HeaderLine, Words, FindCrlf;
    assert rest == [] ==> FindByte(rest, CR) == None && HeaderLine(rest) == NoCr by { EmptyLine(); }
  }

  lemma EmptyLine()
    ensures HeaderLine([]) == NoCr
  {
  }

  predicate BadLength(ll: Option<int>) { ll == None || ll.value < 0 || ll.value > MAX_BULK }

  lemma LengthFails(c: Core, rest: Bytestring, pos: nat)
    requires CoreOk(c) && c.error == None && c.multibulklen > 0 && c.bulklen == -1 && HeaderLine(rest).Line?
    requires rest[0] != DOLLAR || BadLength(HeaderLine(rest).number)
    ensures Process(c, rest, pos) == (c.(error := Some(if rest[0] != DOLLAR then ExpectedDollar else BadBulk)), rest)
  {
    hide HeaderLine, Words, FindCrlf, Process;
    ProcessFails(c, rest, pos, if rest[0] != DOLLAR then ExpectedDollar else BadBulk);
  }

  lemma LengthReads(c: Core, rest: Bytestring, pos: nat)
    requires CoreOk(c) && c.error == None && c.multibulklen > 0 && c.bulklen == -1 && HeaderLine(rest).Line?
    requires rest[0] == DOLLAR && !BadLength(HeaderLine(rest).number)
    ensures var Line(ll, n) := HeaderLine(rest); var d := c.(bulklen := ll.value);
      CoreOk(d) && Process(c, rest, pos) == Process(d, rest[n..], if ll.value >= MBULK_BIG_ARG then 0 else pos + n)
  {
    hide HeaderLine, Words, FindCrlf, Process;
    ProcessNext(c, rest, pos);
  }

  /** The same for a client that is waiting for the argument itself: not all there yet, the last
      one of its command, or one with others to follow. */
  lemma ArgumentWaits(c: Core, rest: Bytestring, pos: nat)
    requires CoreOk(c) && c.error == None && c.multibulklen > 0 && 0 <= c.bulklen && |rest| < c.bulklen + 2
    ensures Process(c, rest, pos) == (c, rest)
  {
    hide HeaderLine, Words, FindCrlf;
  }

  lemma ArgumentEnds(c: Core, rest: Bytestring, pos: nat)
    requires CoreOk(c) && c.error == None && c.multibulklen == 1 && 0 <= c.bulklen && c.bulklen + 2 <= |rest|
    ensures Process(c, rest, pos) == Process(Finish(c, c.argv + [rest[..c.bulklen]]), rest[c.bulklen + 2..], 0)
  {
    hide HeaderLine, Words, FindCrlf, Process;
    ProcessNext(c, rest, pos);
  }

  /** What Process makes of a client inside a command, or one whose command is complete. */
  ghost function AfterStep(c: Core, left: Bytestring, pos: nat): (Core, Bytestring)
    requires c.multibulklen == 0 || CoreOk(c)
  {
    if c.multibulklen == 0 then Process(Finish(c, c.argv), left, 0) else Process(c, left, pos)
  }

  function AfterArgument(c: Core, arg: Bytestring): Core
  {
    c.(argv := c.argv + [arg], bulklen := -1, multibulklen := c.multibulklen - 1)
  }

  lemma ArgumentGoesOn(c: Core, rest: Bytestring, pos: nat)
    requires CoreOk(c) && c.error == None && c.multibulklen > 1 && 0 <= c.bulklen && c.bulklen + 2 <= |rest|
    ensures var d := AfterArgument(c, rest[..c.bulklen]); var whole := c.bulklen >= MBULK_BIG_ARG && pos == 0
      && |rest| == c.bulklen + 2;
      CoreOk(d) && Process(c, rest, pos) == Process(d, rest[c.bulklen + 2..], if whole then 0 else pos + c.bulklen + 2)
  {
    hide HeaderLine, Words, FindCrlf, Process;
    ProcessNext(c, rest, pos);
  }

  lemma TypedProcess(c: Core, rest: Bytestring, pos: nat)
    requires CoreOk(c) && c.error == None && rest != []
    ensures CoreOk(Typed(c, rest[0])) && Process(Typed(c, rest[0]), rest, pos) == Process(c, rest, pos)
  {
    var t := Typed(c, rest[0]);
    assert OneStep(t, rest) == OneStep(c, rest);
    if OneStep(c, rest).Next? {
      ProcessNext(c, rest, pos);
      ProcessNext(t, rest, pos);
    }
  }

  lemma ProcessDone(c: Core, rest: Bytestring)
    requires CoreOk(c) && (rest == [] || c.error != None)
    ensures Process(c, rest, 0) == (c, rest)
  {
  }

  lemma FinishProcess(c: Core, argv: Argv)
    ensures CoreOk(Finish(c, argv))
  {
  }

  class Client {
    var querybuf: Bytestring
    var reqtype: ReqType
    var multibulklen: int
    var bulklen: int
    var argv: Argv
    var error: Option<ProtocolError>
    var executed: seq<Argv>

    constructor ()
      ensures Value() == IDLE && querybuf == [] && CoreOk(Value()) && StarFirst()
    {
      querybuf, reqtype, multibulklen, bulklen, argv, error, executed := [], Unknown, 0, -1, [], None, [];
    }

    function Value(): Core
      reads this
    {
      Core(reqtype, multibulklen, bulklen, argv, error, executed)
    }

    /** resetClient. */
    method Reset()
      modifies this`argv, this`reqtype, this`multibulklen, this`bulklen
      ensures Value() == Core(Unknown, 0, -1, [], error, executed)
    {
      argv, reqtype, multibulklen, bulklen := [], Unknown, 0, -1;
    }

    /** setProtocolError, which also trims the buffer. */
    method Fail(e: ProtocolError, pos: nat)
      requires pos <= |querybuf|
      modifies this`error, this`querybuf
      ensures error == Some(e) && querybuf == old(querybuf)[pos..]
    {
      error := Some(e);
      querybuf := querybuf[pos..];
    }

    /** processInlineBuffer. */
    method InlineBuffer() returns (ok: bool)
      requires CoreOk(Value()) && error == None && reqtype == Inline && querybuf != []
      modifies this`querybuf, this`argv, this`error
      ensures var p := Process(old(Value()), old(querybuf), 0);
        if ok then error == None && p == Process(Finish(old(Value()), argv), querybuf, 0) else p == (Value(), querybuf)
      ensures ok ==> |querybuf| < |old(querybuf)|
    {
      var newline := StrstrCrlf(querybuf);
      if newline == None {
        ProcessEnd(Value(), querybuf, 0);
        if |querybuf| > INLINE_MAX_SIZE { Fail(TooBigInline, 0); }
        return false;
      }
      ProcessNext(Value(), querybuf, 0);
      var querylen := newline.value;
      argv := SplitWords(querybuf[..querylen]);
      querybuf := querybuf[querylen + 2..];
      return true;
    }

    /** The first part of processMultibulkBuffer: the argument count. */
    method ReadCount() returns (done: bool, ok: bool, pos: nat)
      requires CoreOk(Value()) && error == None && reqtype == Multibulk && multibulklen == 0
      requires querybuf != [] && querybuf[0] == STAR
      modifies this`querybuf, this`argv, this`error, this`multibulklen
      ensures pos <= |querybuf|
      ensures var p := Process(old(Value()), old(querybuf), 0);
        if !done then CoreOk(Value()) && error == None && multibulklen > 0
          && p == Process(Value(), querybuf[pos..], pos)
        else if ok then argv == [] && error == None && multibulklen == 0
          && p == Process(Finish(Value(), []), querybuf, 0)
        else p == (Value(), querybuf)
      ensures if done then if ok then |querybuf| < |old(querybuf)| else multibulklen == 0 && querybuf == old(querybuf)
              else querybuf == old(querybuf)
    {
      ghost var c, buf := Value(), querybuf;
      done, ok, pos := true, false, 0;
      assert buf[0..] == buf;
      var line := ScanHeader(querybuf, 0);
      if line.NoCr? {
        ProcessEnd(c, buf, 0);
        if |querybuf| > INLINE_MAX_SIZE { Fail(TooBigCount, 0); }
        return;
      }
      if line.NoLf? {
        ProcessEnd(c, buf, 0);
        return;
      }
      var ll := line.number;
      if ll == None || ll.value > MAX_ARGC {
        ProcessFails(c, buf, 0, BadCount);
        Fail(BadCount, 0);
        return;
      }
      ProcessNext(c, buf, 0);
      pos := line.size;
      if ll.value <= 0 {
        querybuf, pos := querybuf[pos..], 0;
        ok := true;
        return;
      }
      multibulklen := ll.value;
      argv := [];
      done := false;
    }

    /** Reading the length of the next argument. `stop` leaves the loop, `fatal` the function.
        `rest` and `left` are the unread bytes before and after. */
    method ReadLength(pos0: nat, ghost rest: Bytestring)
        returns (stop: bool, fatal: bool, pos: nat, ghost left: Bytestring)
      requires CoreOk(Value()) && error == None && multibulklen > 0 && bulklen == -1
      requires pos0 <= |querybuf| && rest == querybuf[pos0..]
      modifies this`querybuf, this`error, this`bulklen
      ensures pos <= |querybuf| && left == querybuf[pos..] && (fatal ==> stop && pos == 0) && |left| <= |rest|
      ensures !stop ==> CoreOk(Value()) && error == None && bulklen >= 0
      ensures Process(old(Value()), rest, pos0) == if stop then (Value(), left) else AfterStep(Value(), left, pos)
    {
      ghost var c := Value();
      hide Process, HeaderLine, CoreOk;
      stop, fatal, pos, left := true, false, pos0, rest;
      var line := ScanHeader(querybuf, pos);
      if !line.Line? {
        LengthWaits(c, rest, pos0);
        if line.NoCr? && |querybuf| > INLINE_MAX_SIZE { GiveUp(TooBigBulkCount); }
      } else if querybuf[pos] != DOLLAR || BadLength(line.number) {
        LengthFails(c, rest, pos0);
        Fail(if querybuf[pos] != DOLLAR then ExpectedDollar else BadBulk, pos);
        fatal, pos := true, 0;
      } else {
        LengthReads(c, rest, pos0);
        stop := false;
        pos, left := TakeLength(pos, line.size, line.number.value, rest);
      }
    }

    /** setProtocolError at position 0, which trims nothing. */
    method GiveUp(e: ProtocolError)
      modifies this`error, this`querybuf
      ensures error == Some(e) && querybuf == old(querybuf)
    {
      Fail(e, 0);
    }

    /** Notes the length; the buffer is trimmed so that a big argument starts at its beginning. */
    method TakeLength(pos0: nat, n: nat, len: nat, ghost rest: Bytestring) returns (pos: nat, ghost left: Bytestring)
      requires pos0 + n <= |querybuf| && rest == querybuf[pos0..]
      modifies this`querybuf, this`bulklen
      ensures bulklen == len && pos == (if len >= MBULK_BIG_ARG then 0 else pos0 + n)
      ensures pos <= |querybuf| && left == querybuf[pos..] && left == rest[n..]
    {
      pos := pos0 + n;
      if len >= MBULK_BIG_ARG {
        querybuf := querybuf[pos..];
        pos := 0;
      }
      bulklen := len;
      left := rest[n..];
    }

    /** Reading an argument whose length is known. */
    method ReadArgument(pos0: nat, ghost rest: Bytestring) returns (stop: bool, pos: nat, ghost left: Bytestring)
      requires CoreOk(Value()) && error == None && multibulklen > 0 && bulklen >= 0
      requires pos0 <= |querybuf| && rest == querybuf[pos0..]
      modifies this`querybuf, this`argv, this`bulklen, this`multibulklen
      ensures pos <= |querybuf| && left == querybuf[pos..]
      ensures multibulklen == old(multibulklen) - (if stop then 0 else 1)
      ensures multibulklen == 0 ==> argv != []
      ensures !stop && multibulklen > 0 ==> CoreOk(Value()) && bulklen == -1
      ensures |left| <= |rest| && (!stop ==> |left| < |rest|)
      ensures Process(old(Value()), rest, pos0) == if stop then (Value(), left) else AfterStep(Value(), left, pos)
    {
      ghost var c := Value();
      hide Process, CoreOk;
      stop, pos, left := |querybuf| - pos0 < bulklen + 2, pos0, rest;
      if stop {
        ArgumentWaits(c, rest, pos0);
        return;
      }
      var arg;
      arg, pos, left := TakeArgument(pos, rest);
      argv := argv + [arg];
      bulklen := -1;
      multibulklen := multibulklen - 1;
      if multibulklen == 0 {
        ArgumentEnds(c, rest, pos0);
        assert Finish(Value(), argv) == Finish(c, c.argv + [arg]);
      } else {
        ArgumentGoesOn(c, rest, pos0);
        assert Value() == AfterArgument(c, arg);
      }
    }

    /** The bytes of the argument. When the buffer holds exactly that argument, and it is a big
        one, the buffer itself becomes the argument; otherwise it is copied out. */
    method TakeArgument(pos0: nat, ghost rest: Bytestring) returns (arg: Bytestring, pos: nat, ghost left: Bytestring)
      requires bulklen >= 0 && pos0 + bulklen + 2 <= |querybuf| && rest == querybuf[pos0..]
      modifies this`querybuf
      ensures arg == rest[..bulklen] && left == rest[bulklen + 2..]
      ensures pos <= |querybuf| && left == querybuf[pos..]
      ensures pos == (if pos0 == 0 && bulklen >= MBULK_BIG_ARG && |rest| == bulklen + 2 then 0 else pos0 + bulklen + 2)
    {
      if pos0 == 0 && bulklen >= MBULK_BIG_ARG && |querybuf| == bulklen + 2 {
        arg := querybuf[..|querybuf| - 2];
        querybuf := [];
        pos := 0;
      } else {
        arg := querybuf[pos0..pos0 + bulklen];
        pos := pos0 + bulklen + 2;
      }
      left := rest[bulklen + 2..];
    }

    /** The body of the loop of processMultibulkBuffer. */
    method ReadOne(pos0: nat, ghost rest: Bytestring) returns (stop: bool, pos: nat, ghost left: Bytestring)
      requires CoreOk(Value()) && error == None && multibulklen > 0
      requires pos0 <= |querybuf| && rest == querybuf[pos0..]
      modifies this`querybuf, this`argv, this`error, this`multibulklen, this`bulklen
      ensures pos <= |querybuf| && left == querybuf[pos..] && multibulklen >= 0 && |left| <= |rest|
      ensures if stop then multibulklen > 0 else error == None && multibulklen < old(multibulklen) && |left| < |rest|
      ensures !stop ==> if multibulklen == 0 then argv != [] else CoreOk(Value())
      ensures Process(old(Value()), rest, pos0) == if stop then (Value(), left) else AfterStep(Value(), left, pos)
    {
      assert bulklen >= -1;
      hide Process, CoreOk;
      if bulklen == -1 {
        var fatal;
        stop, fatal, pos, left := ReadLength(pos0, rest);
        if stop { return; }
      } else {
        pos, left := pos0, rest;
      }
      stop, pos, left := ReadArgument(pos, left);
    }

    /** The loop of processMultibulkBuffer, and the trimming after it. */
    method ReadArguments(pos0: nat, ghost all: Bytestring) returns (ok: bool)
      requires CoreOk(Value()) && error == None && multibulklen > 0 && pos0 <= |querybuf| && all == querybuf[pos0..]
      modifies this`querybuf, this`argv, this`error, this`multibulklen, this`bulklen
      ensures if ok then multibulklen == 0 && argv != [] && error == None && |querybuf| < |all| else multibulklen > 0
      ensures Process(old(Value()), all, pos0) == if ok then Process(Finish(Value(), argv), querybuf, 0)
        else (Value(), querybuf)
    {
      ghost var rest := all;
      ghost var p := Process(Value(), rest, pos0);
      hide Process, CoreOk;
      var pos: nat, stop := pos0, false;
      while multibulklen > 0 && !stop
        invariant multibulklen >= 0 && pos <= |querybuf| && rest == querybuf[pos..]
        invariant stop ==> multibulklen > 0 && p == (Value(), rest)
        invariant |rest| < |all| || multibulklen > 0
        invariant |rest| <= |all|
        invariant !stop ==> error == None && if multibulklen == 0 then argv != [] else CoreOk(Value())
        invariant !stop ==> p == AfterStep(Value(), rest, pos)
        decreases !stop, multibulklen
      {
        stop, pos, rest := ReadOne(pos, rest);
      }
      querybuf := querybuf[pos..];
      ok := !stop;
    }

    /** processMultibulkBuffer. */
    method MultibulkBuffer() returns (ok: bool)
      requires CoreOk(Value()) && error == None && reqtype == Multibulk
      requires querybuf != [] && (multibulklen == 0 ==> querybuf[0] == STAR)
      modifies this`querybuf, this`argv, this`error, this`multibulklen, this`bulklen
      ensures if ok then multibulklen == 0 && error == None && |querybuf| < |old(querybuf)|
              else multibulklen == 0 ==> old(multibulklen) == 0 && querybuf == old(querybuf)
      ensures Process(old(Value()), old(querybuf), 0) == if ok then Process(Finish(Value(), argv), querybuf, 0)
        else (Value(), querybuf)
    {
      hide Process;
      var pos: nat := 0;
      assert querybuf[0..] == querybuf;
      if multibulklen == 0 {
        var done;
        done, ok, pos := ReadCount();
        if done { return; }
      }
      ok := ReadArguments(pos, querybuf[pos..]);
    }

    /** A client left inside a command header still has that header at the front of its buffer. */
    ghost predicate StarFirst()
      reads this
    {
      error == None && reqtype == Multibulk && multibulklen == 0 ==> querybuf != [] && querybuf[0] == STAR
    }

    /** Runs the command, if any, and resets the client. */
    method Execute()
      modifies this`executed, this`argv, this`reqtype, this`multibulklen, this`bulklen
      ensures Value() == Finish(old(Value()), old(argv))
    {
      if argv != [] { executed := executed + [argv]; }
      Reset();
    }

    /** The request type, from the first byte. */
    method Classify()
      requires CoreOk(Value()) && error == None && querybuf != [] && StarFirst()
      modifies this`reqtype
      ensures reqtype != Unknown && CoreOk(Value()) && StarFirst()
      ensures Process(Value(), querybuf, 0) == Process(old(Value()), querybuf, 0)
    {
      TypedProcess(Value(), querybuf, 0);
      if reqtype == Unknown {
        reqtype := if querybuf[0] == STAR then Multibulk else Inline;
      }
    }

    /** processInputBuffer: command after command while there are bytes. The assertion of the
        original, that a command header begins with a star, never fails: what the method needs
        of the buffer for it, it leaves true for the next call. */
    method InputBuffer()
      requires CoreOk(Value()) && StarFirst()
      modifies this
      ensures CoreOk(Value()) && StarFirst()
      ensures (Value(), querybuf) == Process(old(Value()), old(querybuf), 0)
    {
      ghost var p := Process(Value(), querybuf, 0);
      hide Process;
      while querybuf != []
        invariant CoreOk(Value()) && StarFirst()
        invariant p == Process(Value(), querybuf, 0)
        decreases |querybuf|
      {
        if error != None { break; }
        Classify();
        var ok;
        if reqtype == Inline {
          ok := InlineBuffer();
        } else {
          ok := MultibulkBuffer();
        }
        if !ok { return; }
        FinishProcess(Value(), argv);
        Execute();
      }
      ProcessDone(Value(), querybuf);
    }

    /** readQueryFromClient: of the bytes that the socket holds, as many are read as it gives, which are at most
        as many as are asked for. */
    method ReadQuery(socket: Bytestring, given: nat) returns (nread: nat)
      requires CoreOk(Value()) && StarFirst()
      modifies this
      ensures CoreOk(Value()) && StarFirst()
      ensures nread <= |socket| && nread <= given && nread <= ReadLimit(old(Value()), old(querybuf))
      ensures nread == given || nread == |socket| || nread == ReadLimit(old(Value()), old(querybuf))
      ensures (Value(), querybuf) == Process(old(Value()), old(querybuf) + socket[..nread], 0)
    {
      var readlen: int := IOBUF_LEN;
      if reqtype == Multibulk && multibulklen != 0 && bulklen != -1 && bulklen >= MBULK_BIG_ARG {
        var remaining := bulklen + 2 - |querybuf|;
        if remaining < readlen { readlen := if remaining < 0 then 0 else remaining; }
      }
      nread := if readlen < |socket| then readlen else |socket|;
      if given < nread { nread := given; }
      querybuf := querybuf + socket[..nread];
      InputBuffer();
    }

    /** A connection's life as far as input goes: read after read is taken from what the other side has sent,
        and the client ends up where Reads says. CommandsAlwaysArrive says what that is. */
    method Serve(stream: Bytestring, given: seq<nat>) returns (unread: Bytestring, ghost chunks: seq<Bytestring>)
      requires CoreOk(Value()) && StarFirst()
      modifies this
      ensures Flatten(chunks) + unread == stream && |chunks| == |given|
      ensures Asked(old(Value()), old(querybuf), chunks)
      ensures !OneStep(old(Value()), old(querybuf)).Next? && (forall g :: g in given ==> g > 0)
        ==> error != None || unread == [] || |unread| + |given| <= |stream|
      ensures (Value(), querybuf) == Reads(old(Value()), old(querybuf), chunks)
    {
      hide Process, CoreOk, ReadLimit, OneStep;
      unread, chunks := stream, [];
      var i := 0;
      while i < |given|
        invariant 0 <= i <= |given| == i + |given[i..]| && CoreOk(Value()) && StarFirst() && |chunks| == i
        invariant Flatten(chunks) + unread == stream && old(CoreOk(Value()))
        invariant Asked(old(Value()), old(querybuf), chunks)
        invariant old(!OneStep(Value(), querybuf).Next?) ==> !OneStep(Value(), querybuf).Next?
        invariant old(!OneStep(Value(), querybuf).Next?) && (forall g :: g in given ==> g > 0) ==>
          error != None || unread == [] || |unread| + i <= |stream|
        invariant (Value(), querybuf) == Reads(old(Value()), old(querybuf), chunks)
      {
        ghost var c, rest := Value(), querybuf;
        if error == None && !OneStep(c, rest).Next? { SomethingAsked(c, rest); }
        assert given[i] in given;
        var nread := ReadQuery(unread, given[i]);
        ProcessRests(c, rest + unread[..nread], 0);
        ghost var chunk := unread[..nread];
        OneMoreRead(old(Value()), old(querybuf), chunks, chunk, c, rest);
        assert Flatten(chunks) + chunk + unread[nread..] == Flatten(chunks) + unread;
        chunks, unread := chunks + [chunk], unread[nread..];
        i := i + 1;
      }
    }
  }
}
