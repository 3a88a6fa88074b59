/** networking.c, input side, line by line: what a client types, and which header lines are refused. */
module ProtocolLines {
  import opened Bytes
  import opened Decimal
  import opened Wire
  import opened Protocol
  import opened ProtocolRuns

  // ----- the words of a line -----

  /** A word of an inline command. */
  predicate IsWordOf(w: Bytestring) { w != [] && SPACE !in w }

  function Spaces(n: nat): Bytestring { seq(n, i => SPACE) }

  /** Words with spaces after each of them. */
  function Joined(words: Argv, gaps: seq<nat>): Bytestring
    requires |gaps| == |words|
    decreases |words|
  {
    if words == [] then [] else words[0] + Spaces(gaps[0]) + Joined(words[1..], gaps[1..])
  }

  /** Words with any number of spaces around them, one at least between two of them. */
  ghost predicate Spells(line: Bytestring, words: Argv, lead: nat, gaps: seq<nat>)
  {
    && |gaps| == |words| && (forall w :: w in words ==> IsWordOf(w))
    && (forall i :: 0 <= i < |words| - 1 ==> gaps[i] > 0)
    && line == Spaces(lead) + Joined(words, gaps)
  }

  lemma {:induction false} SpacesSplit(n: nat, t: Bytestring)
    ensures Words(Spaces(n) + t, []) == Words(t, [])
  {
    if n == 0 {
      assert Spaces(n) + t == t;
    } else {
      assert (Spaces(n) + t)[1..] == Spaces(n - 1) + t;
      SpacesSplit(n - 1, t);
      assert [] + Words(t, []) == Words(t, []);
    }
  }

  lemma {:induction false} WordGrows(w: Bytestring, t: Bytestring, word: Bytestring)
    requires SPACE !in w
    ensures Words(w + t, word) == Words(t, word + w)
    decreases |w|
  {
    if w == [] {
      assert w + t == t && word + w == word;
    } else {
      assert (w + t)[1..] == w[1..] + t && w[0] in w;
      WordGrows(w[1..], t, word + [w[0]]);
      assert word + [w[0]] + w[1..] == word + w;
    }
  }

  /** A word ends at the first space after it, or at the end of the line. */
  lemma WordEnds(w: Bytestring, n: nat, t: Bytestring)
    requires IsWordOf(w) && (n > 0 || t == [])
    ensures Words(w + Spaces(n) + t, []) == [w] + Words(t, [])
  {
    assert w + Spaces(n) + t == w + (Spaces(n) + t);
    WordGrows(w, Spaces(n) + t, []);
    assert [] + w == w;
    if n > 0 {
      assert (Spaces(n) + t)[1..] == Spaces(n - 1) + t;
      SpacesSplit(n - 1, t);
    } else {
      assert Spaces(n) + t == [];
    }
  }

  lemma {:induction false} JoinedSplits(words: Argv, gaps: seq<nat>)
    requires |gaps| == |words| && (forall w :: w in words ==> IsWordOf(w))
    requires forall i :: 0 <= i < |words| - 1 ==> gaps[i] > 0
    ensures Words(Joined(words, gaps), []) == words
    decreases |words|
  {
    if words != [] {
      JoinedSplits(words[1..], gaps[1..]);
      WordEnds(words[0], gaps[0], Joined(words[1..], gaps[1..]));
    }
  }

  lemma NoneSpelled()
    ensures Spells([], [], 0, [])
  {
  }

  lemma OneSpelled(word: Bytestring)
    requires IsWordOf(word)
    ensures Spells(word, [word], 0, [0])
  {
    FirstSpelled(word, 0, [], []);
    assert [word] + [] == [word] && [0] + [] == [0];
  }

  /** One more space in front. */
  lemma SpaceSpelled(line: Bytestring, words: Argv, lead: nat, gaps: seq<nat>)
    requires Spells(line, words, lead, gaps)
    ensures Spells([SPACE] + line, words, lead + 1, gaps)
  {
    assert [SPACE] + Spaces(lead) == Spaces(lead + 1);
  }

  /** One more word in front, where there is a space. */
  lemma WordSpelled(word: Bytestring, line: Bytestring, words: Argv, lead: nat, gaps: seq<nat>)
    requires IsWordOf(word) && lead > 0 && Spells(line, words, lead, gaps)
    ensures Spells(word + line, [word] + words, 0, [lead] + gaps)
  {
    FirstSpelled(word, lead, words, gaps);
    hide Joined, IsWordOf;
    var all := [lead] + gaps;
    forall i | 0 <= i < |words| ensures all[i] > 0 { if i > 0 { assert all[i] == gaps[i - 1]; } }
    assert word + (Spaces(lead) + Joined(words, gaps)) == Spaces(0) + (word + Spaces(lead) + Joined(words, gaps));
  }

  /** Every line, with the word before it that is being read, is spelled by the words it is split into. */
  lemma {:induction false} SplitSpells(line: Bytestring, word: Bytestring) returns (lead: nat, gaps: seq<nat>)
    requires SPACE !in word
    ensures Spells(word + line, Words(line, word), lead, gaps)
    decreases |line|
  {
    hide Spells;
    lead, gaps := 0, [];
    if line == [] {
      assert word + line == word;
      if word == [] {
        NoneSpelled();
      } else {
        gaps := [0];
        OneSpelled(word);
      }
    } else {
      var next := line[1..];
      assert line == [line[0]] + next;
      if line[0] == SPACE {
        lead, gaps := SplitSpells(next, []);
        assert [] + next == next;
        SpaceSpelled(next, Words(next, []), lead, gaps);
        lead := lead + 1;
        if word == [] {
          assert word + line == line && [] + Words(next, []) == Words(next, []);
        } else {
          WordSpelled(word, line, Words(next, []), lead, gaps);
          lead, gaps := 0, [lead] + gaps;
        }
      } else {
        lead, gaps := SplitSpells(next, word + [line[0]]);
        assert word + line == (word + [line[0]]) + next;
      }
    }
  }

  lemma FirstSpelled(word: Bytestring, n: nat, rest: Argv, gaps: seq<nat>)
    requires |gaps| == |rest|
    ensures Joined([word] + rest, [n] + gaps) == word + Spaces(n) + Joined(rest, gaps)
  {
    assert ([word] + rest)[1..] == rest && ([n] + gaps)[1..] == gaps;
  }

  /** A line is split into exactly the words that, with spaces around them, make it up; so none of them is empty or
      contains a space, and none is lost. */
  lemma WordsOfLine(line: Bytestring, words: Argv)
    ensures Words(line, []) == words <==> exists lead: nat, gaps: seq<nat> :: Spells(line, words, lead, gaps)
  {
    hide Words, Joined;
    var l, g := SplitSpells(line, []);
    assert [] + line == line;
    if lead: nat, gaps: seq<nat> :| Spells(line, words, lead, gaps) {
      SpacesSplit(lead, Joined(words, gaps));
      JoinedSplits(words, gaps);
    }
  }

  // ----- the end of a line -----

  /** No NUL, and no CR LF. */
  ghost predicate OneLine(line: Bytestring)
  {
    forall k :: 0 <= k < |line| ==>
      line[k] != NUL && !(line[k] == CR && k + 1 < |line| && line[k + 1] == LF)
  }

  /** The line ends at its CR LF, and not before. */
  lemma {:induction false} LineEnds(line: Bytestring, tail: Bytestring, m: nat)
    requires OneLine(line) && m <= |line| + 2
    ensures FindCrlf(line + CRLF + tail) == Some(|line|)
    ensures m < |line| + 2 ==> FindCrlf((line + CRLF)[..m]) == None
    decreases |line|
  {
    var s := line + CRLF + tail;
    if line == [] {
      assert s[0] == CR && s[1] == LF;
    } else {
      assert s[1..] == line[1..] + CRLF + tail;
      assert OneLine(line[1..]);
      assert s[0] == line[0] && (s[1] == LF ==> |line| > 1 && line[1] == LF);
      if m < 2 {
        LineEnds(line[1..], tail, 0);
      } else {
        LineEnds(line[1..], tail, m - 1);
        assert (line + CRLF)[..m][1..] == (line[1..] + CRLF)[..m - 1];
      }
    }
  }

  /** A line that a client types. */
  ghost predicate Typing(line: Bytestring, words: Argv)
  {
    && OneLine(line) && Words(line, []) == words && (line == [] || line[0] != STAR)
  }

  /** An inline command at the head of a stream is executed, a blank line is passed over, and parsing goes on. */
  lemma LineThenRest(done: seq<Argv>, line: Bytestring, words: Argv, tail: Bytestring)
    requires Typing(line, words)
    ensures OneStep(Idle(done), line + CRLF + tail)
         == Next(Idle(if words == [] then done else done + [words]), |line| + 2)
    ensures Drain(Idle(done), line + CRLF + tail) == Drain(Idle(if words == [] then done else done + [words]), tail)
  {
    var s := line + CRLF + tail;
    LineEnds(line, tail, 0);
    hide FindCrlf, Words;
    assert s[..|line|] == line && s[|line| + 2..] == tail && s[0] != STAR;
  }

  /** A part of it is waited for. */
  lemma PartWaits(done: seq<Argv>, line: Bytestring, words: Argv, m: nat)
    requires Typing(line, words) && m < |line| + 2
    ensures var got := (line + CRLF)[..m]; var c := Resting(Idle(done), got);
      && CoreOk(c) && c.error == None && c.executed == done
      && forall b: Core :: b == c || b == Idle(done) ==>
        OneStep(b, got) == (if m == 0 then Wait else WaitForCr(TooBigInline)) && Resting(b, got) == c
  {
    var got := (line + CRLF)[..m];
    LineEnds(line, [], m);
    hide FindCrlf, Words;
    assert line + CRLF + [] == line + CRLF;
    assert m > 0 ==> got[0] != STAR;
  }

  // ----- lines in portions -----

  /** One of the buffers, which have n bytes before the next portion, is over the limit while the line of which they
      are parts, `size` bytes long, is not complete. */
  predicate Oversized(n: nat, chunks: seq<Bytestring>, size: nat)
    decreases |chunks|
  {
    chunks != [] && (INLINE_MAX_SIZE < n + |chunks[0]| < size || Oversized(n + |chunks[0]|, chunks[1..], size))
  }

  lemma {:induction false} NothingMore(done: seq<Argv>, chunks: seq<Bytestring>)
    requires Flatten(chunks) == []
    ensures Reads(Idle(done), [], chunks) == (Idle(done), [])
    decreases |chunks|
  {
    if chunks != [] {
      assert chunks[0] == [];
      IdleWaits(done);
      var none: Bytestring := [] + chunks[0];
      assert none == [];
      NothingMore(done, chunks[1..]);
    }
  }

  lemma {:induction false} NotOversized(n: nat, chunks: seq<Bytestring>, size: nat)
    requires size <= INLINE_MAX_SIZE + 1 || n >= size
    ensures !Oversized(n, chunks, size)
    decreases |chunks|
  {
    if chunks != [] { NotOversized(n + |chunks[0]|, chunks[1..], size); }
  }

  /** One round of parsing on the whole line, and on a part of it. */
  lemma WholeProcessed(done: seq<Argv>, line: Bytestring, words: Argv, c: Core, m: nat)
    requires Typing(line, words) && words != [] && m <= |line| + 2
    requires c == Idle(done) || c == Resting(Idle(done), (line + CRLF)[..m])
    ensures CoreOk(c) && Process(c, line + CRLF, 0) == (Idle(done + [words]), [])
  {
    var s, none := line + CRLF, [];
    LineThenRest(done, line, words, none);
    assert s + none == s && s[|line| + 2..] == none;
    assert OneStep(c, s) == OneStep(Idle(done), s) by {
      hide FindCrlf, Words;
      if c != Idle(done) { assert m > 0 && s[..m][0] == s[0]; }
    }
    hide OneStep;
    IdleWaits(done + [words]);
  }

  lemma PartProcessed(done: seq<Argv>, line: Bytestring, words: Argv, c: Core, m: nat, k: nat)
    requires Typing(line, words) && m <= k < |line| + 2
    requires c == Resting(Idle(done), (line + CRLF)[..m])
    ensures var got := (line + CRLF)[..k]; var d := Resting(Idle(done), got);
      CoreOk(c) && Process(c, got, 0) == (if k > INLINE_MAX_SIZE then d.(error := Some(TooBigInline)) else d, got)
  {
    var s := line + CRLF;
    PartWaits(done, line, words, k);
    if m > 0 { assert s[..m][0] == s[..k][0]; }
  }

  /** The rest of a line in portions, after m bytes of it. */
  lemma {:induction false} PortionsOfLine(done: seq<Argv>, line: Bytestring, words: Argv, m: nat,
                                          chunks: seq<Bytestring>)
    requires Typing(line, words) && words != [] && m < |line| + 2 && (line + CRLF)[..m] + Flatten(chunks) == line + CRLF
    ensures var got := (line + CRLF)[..m]; var c := Resting(Idle(done), got);
      && CoreOk(c)
      && (!Oversized(m, chunks, |line| + 2) ==> Reads(c, got, chunks) == (Idle(done + [words]), []))
      && (Oversized(m, chunks, |line| + 2) ==>
        Reads(c, got, chunks).0.executed == done && Reads(c, got, chunks).0.error == Some(TooBigInline))
    decreases |chunks|
  {
    hide Process, OneStep, FindCrlf, Words, OneLine, Drain;
    var s := line + CRLF;
    var got := s[..m];
    var c := Resting(Idle(done), got);
    PartWaits(done, line, words, m);
    assert |got + Flatten(chunks)| == |s|;
    var k := m + |chunks[0]|;
    var rest := Flatten(chunks[1..]);
    assert s == (got + chunks[0]) + rest;
    assert got + chunks[0] == s[..k];
    if k < |s| {
      PartProcessed(done, line, words, c, m, k);
      if k > INLINE_MAX_SIZE {
        ErrorIsFinal(Resting(Idle(done), s[..k]).(error := Some(TooBigInline)), s[..k], chunks[1..]);
      } else {
        assert s[..k] + rest == s;
        PortionsOfLine(done, line, words, k, chunks[1..]);
      }
    } else {
      assert s[..k] == s && |rest| == 0;
      WholeProcessed(done, line, words, c, m);
      NothingMore(done + [words], chunks[1..]);
      NotOversized(k, chunks[1..], |line| + 2);
    }
  }

  /** What a client types: any words without NUL and CR LF, with any number of spaces around them and one at least
      between two, not starting with a '*', followed by CR LF and delivered in any portions whatever, are executed as
      exactly these words with nothing left over, if and only if no buffer is over the limit before the line is
      complete; which none can be when the line is shorter than that. */
  lemma InlineArrives(done: seq<Argv>, line: Bytestring, words: Argv, lead: nat, gaps: seq<nat>,
                      chunks: seq<Bytestring>)
    requires words != [] && Spells(line, words, lead, gaps) && OneLine(line) && line != [] && line[0] != STAR
    requires Flatten(chunks) == line + CRLF
    ensures Reads(Idle(done), [], chunks) == (Idle(done + [words]), []) <==> !Oversized(0, chunks, |line| + 2)
    ensures Oversized(0, chunks, |line| + 2) ==> Reads(Idle(done), [], chunks).0.executed == done
    ensures |line| < INLINE_MAX_SIZE ==> !Oversized(0, chunks, |line| + 2)
  {
    hide Words, Joined, Reads, OneLine;
    WordsOfLine(line, words);
    assert (line + CRLF)[..0] == [] && [] + Flatten(chunks) == line + CRLF;
    PortionsOfLine(done, line, words, 0, chunks);
    if |line| < INLINE_MAX_SIZE { NotOversized(0, chunks, |line| + 2); }
  }

  // ----- streams of both kinds -----

  /** A command as a program sends it, or a line as a person types it; a blank one is no command. */
  datatype Request = Sent(argv: Argv) | Entered(line: Bytestring)

  ghost predicate Wellformed(r: Request)
  {
    match r case Sent(argv) => Sendable(argv) case Entered(line) => Typing(line, Words(line, []))
  }

  function RequestOnWire(r: Request): Bytestring
  {
    match r case Sent(argv) => Cat(argv) case Entered(line) => line + CRLF
  }

  function RequestMeans(r: Request): seq<Argv>
  {
    match r case Sent(argv) => [argv] case Entered(line) => if Words(line, []) == [] then [] else [Words(line, [])]
  }

  function OnWire(requests: seq<Request>): Bytestring
  {
    if requests == [] then [] else RequestOnWire(requests[0]) + OnWire(requests[1..])
  }

  function Meant(requests: seq<Request>): seq<Argv>
  {
    if requests == [] then [] else RequestMeans(requests[0]) + Meant(requests[1..])
  }

  lemma RequestDrains(done: seq<Argv>, r: Request, tail: Bytestring)
    requires Wellformed(r)
    ensures Drain(Idle(done), RequestOnWire(r) + tail) == Drain(Idle(done + RequestMeans(r)), tail)
  {
    hide Drain, Cat, Words, OneLine, Sendable;
    match r
    case Sent(argv) => CatThenRest(done, argv, tail);
    case Entered(line) =>
      LineThenRest(done, line, Words(line, []), tail);
      assert done + [] == done;
  }

  lemma {:induction false} RequestsDrain(done: seq<Argv>, requests: seq<Request>)
    requires forall r :: r in requests ==> Wellformed(r)
    ensures Drain(Idle(done), OnWire(requests)) == (Idle(done + Meant(requests)), [])
    decreases |requests|
  {
    hide Drain, Wellformed, RequestOnWire, RequestMeans;
    if requests == [] {
      IdleWaits(done);
      assert done + [] == done;
    } else {
      var means := RequestMeans(requests[0]);
      RequestDrains(done, requests[0], OnWire(requests[1..]));
      RequestsDrain(done + means, requests[1..]);
      assert done + means + Meant(requests[1..]) == done + (means + Meant(requests[1..]));
    }
  }

  /** Both kinds may be mixed: in whatever portions they come, they are executed in order with nothing left over,
      unless the limit strikes. */
  lemma RequestsArrive(requests: seq<Request>, chunks: seq<Bytestring>)
    requires forall r :: r in requests ==> Wellformed(r)
    requires Flatten(chunks) == OnWire(requests) && !EverClogs(IDLE, [], chunks)
    ensures Reads(IDLE, [], chunks) == (Idle(Meant(requests)), [])
  {
    hide Reads, OnWire, Meant, EverClogs;
    assert Drain(IDLE, []) == (IDLE, []);
    hide Drain;
    SplitIndependence(IDLE, [], chunks);
    assert [] + Flatten(chunks) == OnWire(requests);
    RequestsDrain([], requests);
    assert [] + Meant(requests) == Meant(requests);
  }

  // ----- header lines that are refused -----

  /** A header line holds the number that its text spells, if it spells one. */
  lemma HeaderHolds(prefix: Byte, t: Bytestring, tail: Bytestring)
    requires prefix != CR && prefix != NUL && CR !in t && NUL !in t
    ensures var s := [prefix] + t + CRLF + tail;
      HeaderLine(s) == Line(Parse(t), |t| + 3) && s[0] == prefix && s[|t| + 3..] == tail
  {
    var s := [prefix] + t + CRLF + tail;
    assert s[1..1 + |t|] == t;
    forall k | 0 <= k < 1 + |t| ensures s[k] != CR && s[k] != NUL {
      if k > 0 { assert s[k] == t[k - 1] && t[k - 1] in t; }
    }
    FindFirst(s, 1 + |t|);
  }

  lemma CountStops(done: seq<Argv>, s: Bytestring)
    requires HeaderLine(s).Line? && s[0] == STAR
    requires HeaderLine(s).number == None || HeaderLine(s).number.value > MAX_ARGC
    ensures Drain(Idle(done), s) == (Idle(done).(reqtype := Multibulk, error := Some(BadCount)), s)
  {
    var d := Idle(done).(reqtype := Multibulk, error := Some(BadCount));
    assert OneStep(Idle(done), s) == Next(d, 0) && s[0..] == s;
    assert Drain(d, s) == (d, s);
  }

  lemma CountPasses(done: seq<Argv>, s: Bytestring)
    requires HeaderLine(s).Line? && s[0] == STAR
    requires HeaderLine(s).number.Some? && HeaderLine(s).number.value <= 0
    ensures Drain(Idle(done), s) == Drain(Idle(done), s[HeaderLine(s).size..])
  {
    assert OneStep(Idle(done), s) == Next(Idle(done), HeaderLine(s).size);
  }

  /** The number of arguments: anything but the printed form of a number of at most 1048576 closes the connection, and
      one that is not positive is passed over. */
  lemma CountIsChecked(done: seq<Argv>, t: Bytestring, tail: Bytestring)
    requires CR !in t && NUL !in t
    ensures var r := Drain(Idle(done), [STAR] + t + CRLF + tail);
      && ((forall v :: Int64(v) && t == Print(v) ==> v > 1048576) ==>
        r.0.error == Some(BadCount) && r.0.executed == done)
      && (forall v :: Int64(v) && t == Print(v) && v <= 0 ==> r == Drain(Idle(done), tail))
  {
    var s := [STAR] + t + CRLF + tail;
    HeaderHolds(STAR, t, tail);
    hide HeaderLine, Drain, Print, Parse;
    match Parse(t)
    case None =>
      CountStops(done, s);
      forall v | Int64(v) && t == Print(v) ensures false { ParseIsInverse(t, v); }
    case Some(w) =>
      forall v | Int64(v) && t == Print(v) ensures v == w { ParseIsInverse(t, v); }
      ParseIsInverse(t, w);
      if w > MAX_ARGC { CountStops(done, s); } else if w <= 0 { CountPasses(done, s); }
  }

  lemma LengthStops(c: Core, left: Argv, s: Bytestring)
    requires CoreOk(c) && Reading(c, left) && HeaderLine(s).Line?
    requires var n := HeaderLine(s).number; s[0] != DOLLAR || n == None || n.value < 0 || n.value > MAX_BULK
    ensures Drain(c, s) == (c.(error := Some(if s[0] != DOLLAR then ExpectedDollar else BadBulk)), s)
  {
    var d := c.(error := Some(if s[0] != DOLLAR then ExpectedDollar else BadBulk));
    assert OneStep(c, s) == Next(d, 0) && s[0..] == s;
    assert Drain(d, s) == (d, s);
  }

  /** The length of an argument: anything but a '$' and the printed form of a number from 0 to 536870912 closes the
      connection. */
  lemma LengthIsChecked(c: Core, left: Argv, prefix: Byte, t: Bytestring, tail: Bytestring)
    requires CoreOk(c) && Reading(c, left) && prefix != CR && prefix != NUL && CR !in t && NUL !in t
    ensures var d := Drain(c, [prefix] + t + CRLF + tail).0;
      && (prefix != DOLLAR ==> d.error == Some(ExpectedDollar) && d.executed == c.executed)
      && (prefix == DOLLAR && (forall v :: Int64(v) && t == Print(v) ==> v < 0 || v > 536870912) ==>
        d.error == Some(BadBulk) && d.executed == c.executed)
  {
    var s := [prefix] + t + CRLF + tail;
    HeaderHolds(prefix, t, tail);
    hide HeaderLine, Drain, Print, Parse;
    match Parse(t)
    case None => LengthStops(c, left, s);
    case Some(w) =>
      ParseIsInverse(t, w);
      if prefix != DOLLAR || w < 0 || w > MAX_BULK { LengthStops(c, left, s); }
  }
}
