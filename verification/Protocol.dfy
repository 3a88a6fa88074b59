/** networking.c, input side, on values: how a client's query buffer is turned into commands. */
module Protocol {
  import opened Bytes
  import opened Decimal
  import opened Wire

  const INLINE_MAX_SIZE := 65536
  const MBULK_BIG_ARG := 32768

  datatype ReqType = Unknown | Inline | Multibulk

  datatype ProtocolError = TooBigInline | TooBigCount | BadCount | TooBigBulkCount | ExpectedDollar | BadBulk

  /** The parsing state of a client, apart from the buffer: `bulklen` is -1 while the length of the
      next argument is unknown, `error` is set once the connection is to be closed. */
  datatype Core = Core(reqtype: ReqType, multibulklen: int, bulklen: int, argv: Argv,
                       error: Option<ProtocolError>, executed: seq<Argv>)

  const IDLE := Core(Unknown, 0, -1, [], None, [])

  // ----- C string searches, which stop at the first NUL -----

  /** strchr. */
  function FindByte(s: Bytestring, b: Byte): (i: Option<nat>)
    ensures i.Some? ==> i.value < |s| && s[i.value] == b
  {
    if s == [] then None
    else if s[0] == b then Some(0)
    else if s[0] == NUL then None
    else match FindByte(s[1..], b) case None => None case Some(i) => Some(i + 1)
  }

  /** strstr for CR LF. */
  function FindCrlf(s: Bytestring): (i: Option<nat>)
    ensures i.Some? ==> i.value + 2 <= |s|
  {
    if |s| < 2 || s[0] == NUL then None
    else if s[0] == CR && s[1] == LF then Some(0)
    else match FindCrlf(s[1..]) case None => None case Some(i) => Some(i + 1)
  }

  lemma {:induction s} FindByteExtends(s: Bytestring, more: Bytestring, b: Byte)
    requires FindByte(s, b).Some?
    ensures FindByte(s + more, b) == FindByte(s, b)
  {
    if s[0] != b {
      assert (s + more)[1..] == s[1..] + more;
    }
  }

  lemma {:induction s} FindCrlfExtends(s: Bytestring, more: Bytestring)
    requires FindCrlf(s).Some?
    ensures FindCrlf(s + more) == FindCrlf(s)
  {
    if !(s[0] == CR && s[1] == LF) {
      assert (s + more)[1..] == s[1..] + more;
    }
  }

  /** The words of an inline command: split at single spaces, empty pieces dropped. */
  function Words(line: Bytestring, word: Bytestring): Argv
  {
    var last := if word == [] then [] else [word];
    if line == [] then last
    else if line[0] == SPACE then last + Words(line[1..], [])
    else Words(line[1..], word + [line[0]])
  }

  // ----- one step of parsing -----

  /** What can be done with the unread bytes: consume `n` of them and go on, stop because the
      connection is closing, or wait for more, in a header line that has no CR yet or elsewhere. */
  datatype Step = Next(core: Core, n: nat) | Stop | WaitForCr(error: ProtocolError) | Wait

  /** resetClient, after running the command when there is one. */
  function Finish(c: Core, argv: Argv): Core
  {
    Core(Unknown, 0, -1, [], c.error, if argv == [] then c.executed else c.executed + [argv])
  }

  function Fail(c: Core, e: ProtocolError): Step { Next(c.(error := Some(e)), 0) }

  function InlineStep(c: Core, rest: Bytestring): Step
  {
    match FindCrlf(rest)
    case None => WaitForCr(TooBigInline)
    case Some(i) => Next(Finish(c, Words(rest[..i], [])), i + 2)
  }

  /** A header line: the number after the prefix byte, and the bytes of the line. */
  datatype Line = Line(number: Option<int>, size: nat) | NoCr | NoLf

  function HeaderLine(rest: Bytestring): (l: Line)
    ensures l.Line? ==> 2 <= l.size <= |rest|
  {
    match FindByte(rest, CR)
    case None => NoCr
    case Some(i) =>
      if i + 2 > |rest| then NoLf
      else Line(if i == 0 then None else Parse(rest[1..i]), i + 2)
  }

  function CountStep(c: Core, rest: Bytestring): Step
  {
    match HeaderLine(rest)
    case NoCr => WaitForCr(TooBigCount)
    case NoLf => Wait
    case Line(ll, n) =>
      if ll == None || ll.value > MAX_ARGC then Fail(c, BadCount)
      else if ll.value <= 0 then Next(Finish(c, []), n)
      else Next(c.(multibulklen := ll.value, argv := []), n)
  }

  function LengthStep(c: Core, rest: Bytestring): Step
  {
    match HeaderLine(rest)
    case NoCr => WaitForCr(TooBigBulkCount)
    case NoLf => Wait
    case Line(ll, n) =>
      if rest[0] != DOLLAR then Fail(c, ExpectedDollar)
      else if ll == None || ll.value < 0 || ll.value > MAX_BULK then Fail(c, BadBulk)
      else Next(c.(bulklen := ll.value), n)
  }

  /** The argument itself; its last two bytes are dropped unread. */
  function ArgumentStep(c: Core, rest: Bytestring): Step
    requires c.bulklen >= 0
  {
    if |rest| < c.bulklen + 2 then Wait
    else
      var argv := c.argv + [rest[..c.bulklen]];
      if c.multibulklen == 1 then Next(Finish(c, argv), c.bulklen + 2)
      else Next(c.(argv := argv, bulklen := -1, multibulklen := c.multibulklen - 1), c.bulklen + 2)
  }

  ghost predicate CoreOk(c: Core)
  {
    && c.multibulklen >= 0 && c.bulklen >= -1
    && (c.multibulklen == 0 ==> c.argv == [] && c.bulklen == -1)
    && (c.reqtype != Multibulk ==> c.multibulklen == 0)
  }

  function Typed(c: Core, first: Byte): Core
  {
    if c.reqtype == Unknown then c.(reqtype := if first == STAR then Multibulk else Inline) else c
  }

  function OneStep(c: Core, rest: Bytestring): (s: Step)
    requires CoreOk(c)
    ensures s.Next? ==> s.n <= |rest| && CoreOk(s.core) && (s.n == 0 ==> s.core.error != None && c.error == None)
  {
    if c.error != None then Stop
    else if rest == [] then (if c.multibulklen > 0 && c.bulklen == -1 then WaitForCr(TooBigBulkCount) else Wait)
    else
      var t := Typed(c, rest[0]);
      if t.reqtype == Inline then InlineStep(t, rest)
      else if t.multibulklen == 0 then CountStep(t, rest)
      else if t.bulklen == -1 then LengthStep(t, rest)
      else ArgumentStep(t, rest)
  }

  // ----- whole buffers -----

  /** The state a client is left in when it has to wait: its request type is known as soon as
      there is a first byte. */
  function Resting(c: Core, rest: Bytestring): Core
  {
    if c.error != None || rest == [] then c else Typed(c, rest[0])
  }

  /** Parsing as far as the bytes go: the state left and the bytes unread. No size limit applies. */
  function Drain(c: Core, rest: Bytestring): (r: (Core, Bytestring))
    requires CoreOk(c)
    ensures CoreOk(r.0)
    decreases |rest|, if c.error == None then 1 else 0
  {
    match OneStep(c, rest)
    case Next(d, n) => Drain(d, rest[n..])
    case _ => (Resting(c, rest), rest)
  }

  lemma HeaderLineExtends(rest: Bytestring, more: Bytestring)
    requires HeaderLine(rest).Line?
    ensures HeaderLine(rest + more) == HeaderLine(rest)
  {
    FindByteExtends(rest, more, CR);
    var i := FindByte(rest, CR).value;
    if i > 0 { assert (rest + more)[1..i] == rest[1..i]; }
  }

  /** More input never changes a step that can already be taken. */
  lemma StepExtends(c: Core, rest: Bytestring, more: Bytestring)
    requires CoreOk(c) && OneStep(c, rest).Next?
    ensures OneStep(c, rest + more) == OneStep(c, rest)
  {
    var t := Typed(c, rest[0]);
    if t.reqtype == Inline {
      FindCrlfExtends(rest, more);
      var i := FindCrlf(rest).value;
      assert (rest + more)[..i] == rest[..i];
    } else if t.bulklen == -1 {
      HeaderLineExtends(rest, more);
    } else {
      assert (rest + more)[..t.bulklen] == rest[..t.bulklen];
    }
  }

  /** Having rested makes no difference. */
  lemma RestedSteps(c: Core, rest: Bytestring, more: Bytestring)
    requires CoreOk(c)
    ensures CoreOk(Resting(c, rest)) && Drain(Resting(c, rest), rest + more) == Drain(c, rest + more)
  {
    var t := Resting(c, rest);
    assert OneStep(t, rest + more) == OneStep(c, rest + more);
  }

  /** Parsing what has arrived and then the rest is parsing it all at once. */
  lemma {:induction false} DrainResumes(c: Core, rest: Bytestring, more: Bytestring)
    requires CoreOk(c)
    ensures var (d, left) := Drain(c, rest); Drain(d, left + more) == Drain(c, rest + more)
    decreases |rest|, if c.error == None then 1 else 0
  {
    match OneStep(c, rest)
    case Next(d, n) =>
      StepExtends(c, rest, more);
      assert (rest + more)[n..] == rest[n..] + more;
      DrainResumes(d, rest[n..], more);
    case _ => RestedSteps(c, rest, more);
  }
}
