/** aof.c, rewriteAppendOnlyFile as it writes: headers first, then items one at a time. */
module AofRewrite {
  import opened Bytes
  import opened Decimal
  import opened Wire
  import opened Commands
  import opened Propagation
  import opened Rewrite
  import LogMachine

  /** The strings of an object in memory. */
  predicate StringsFit(v: Stored)
  {
    match v
    case StoredString(b) => Int64(|b|)
    case StoredList(items) => Int64(|items| + 2) && forall x :: x in items ==> Int64(|x|)
    case StoredSet(members) => Int64(|members| + 2) && forall x :: x in members ==> Int64(|x|)
    case StoredHash(pairs) => Int64(|pairs| + 2) && forall x :: x in pairs ==> Int64(|x|)
  }

  predicate EntryFits(e: Entry) { Int64(|e.key|) && StringsFit(e.value) && WholePairs(e.value) && Int64(e.expire) }

  function Min(a: nat, b: nat): nat { if a < b then a else b }

  /** What is still to be written once `k` strings of a command of at most `per` have been. */
  function Remaining(name: Bytestring, key: Bytestring, rest: Argv, k: nat, per: nat): Bytestring
    requires k < per
  {
    if k == 0 then CatAll(Chunked(name, key, rest, per))
    else
      var n := Min(per - k, |rest|);
      Bulks(rest[..n]) + CatAll(Chunked(name, key, rest[n..], per))
  }

  lemma ChunkedOpens(name: Bytestring, key: Bytestring, rest: Argv, per: nat)
    requires rest != [] && per > 0
    ensures var n := Min(per, |rest|);
      Chunked(name, key, rest, per) == [[name, key] + rest[..n]] + Chunked(name, key, rest[n..], per)
  {
    if |rest| <= per {
      assert rest[..|rest|] == rest;
      var nil: seq<Argv> := [];
      assert [[name, key] + rest] + nil == [[name, key] + rest];
    }
  }

  lemma BulksCons(a: Bytestring, rest: Argv)
    ensures Bulks([a] + rest) == Bulk(a) + Bulks(rest)
  {
    hide Bulk;
    assert ([a] + rest)[1..] == rest;
  }

  lemma CatOpens(name: Bytestring, key: Bytestring, items: Argv)
    ensures Cat([name, key] + items) == Header(STAR, 2 + |items|) + Bulk(name) + Bulk(key) + Bulks(items)
  {
    hide Header, Bulk, Bulks;
    var argv := [name, key] + items;
    BulksCons(name, [key] + items);
    BulksCons(key, items);
    assert argv == [name] + ([key] + items);
    var h := Header(STAR, 2 + |items|);
    assert h + (Bulk(name) + (Bulk(key) + Bulks(items))) == h + Bulk(name) + Bulk(key) + Bulks(items);
  }

  lemma OpensCommand(name: Bytestring, key: Bytestring, rest: Argv, per: nat)
    requires rest != [] && per > 0
    ensures var n := Min(per, |rest|);
      CatAll(Chunked(name, key, rest, per))
      == Header(STAR, 2 + n) + Bulk(name) + Bulk(key) + (Bulks(rest[..n]) + CatAll(Chunked(name, key, rest[n..], per)))
  {
    var n := Min(per, |rest|);
    var items, more := rest[..n], Chunked(name, key, rest[n..], per);
    ChunkedOpens(name, key, rest, per);
    CatOpens(name, key, items);
    hide Header, Bulk, Chunked, Bulks, Cat, CatAll;
    CatAllAppend([[name, key] + items], more);
    CatAllOne([name, key] + items);
    Assoc(Header(STAR, 2 + n) + Bulk(name) + Bulk(key), Bulks(items), CatAll(more));
  }

  lemma BulksFirst(rest: Argv, n: nat)
    requires 0 < n <= |rest|
    ensures Bulks(rest[..n]) == Bulk(rest[0]) + Bulks(rest[1..][..n - 1])
  {
    assert rest[..n][0] == rest[0] && rest[..n][1..] == rest[1..][..n - 1];
  }

  lemma NoBulks(none: Argv)
    requires |none| == 0
    ensures Bulks(none) == []
  {
  }

  lemma NextCount(k: nat, per: nat)
    requires k < per
    ensures (k + 1) % per == if k + 1 == per then 0 else k + 1
  {
  }

  /** What remains after one string more of a command that is not full. */
  lemma RemainingAfter(name: Bytestring, key: Bytestring, rest: Argv, k: nat, per: nat)
    requires rest != [] && k < per
    ensures var n := Min(per - k, |rest|); var next := if k + 1 == per then 0 else k + 1;
      Remaining(name, key, rest[1..], next, per)
      == Bulks(rest[1..][..n - 1]) + CatAll(Chunked(name, key, rest[n..], per))
  {
    hide Bulks, Chunked, CatAll;
    var n := Min(per - k, |rest|);
    assert rest[n..] == rest[1..][n - 1..];
    if k + 1 == per {
      NoBulks(rest[1..][..0]);
      assert [] + CatAll(Chunked(name, key, rest[1..], per)) == CatAll(Chunked(name, key, rest[1..], per));
    }
  }

  /** One string more; when the command is full the next begins. */
  lemma WritesString(name: Bytestring, key: Bytestring, rest: Argv, k: nat, per: nat)
    requires rest != [] && k < per
    ensures var n := Min(per - k, |rest|);
      Bulks(rest[..n]) + CatAll(Chunked(name, key, rest[n..], per))
      == Bulk(rest[0]) + Remaining(name, key, rest[1..], (k + 1) % per, per)
  {
    hide Bulk, Bulks, Chunked, CatAll, Remaining;
    var n := Min(per - k, |rest|);
    NextCount(k, per);
    BulksFirst(rest, n);
    RemainingAfter(name, key, rest, k, per);
    Assoc(Bulk(rest[0]), Bulks(rest[1..][..n - 1]), CatAll(Chunked(name, key, rest[n..], per)));
  }

  lemma NothingRemains(name: Bytestring, key: Bytestring, k: nat, per: nat)
    requires k < per
    ensures Remaining(name, key, [], k, per) == []
  {
  }

  /** rioWriteBulkCount and rioWriteBulkString. */
  method WriteCount(r: Bytestring, prefix: Byte, n: int) returns (w: Bytestring)
    requires Int64(n)
    ensures w == r + Header(prefix, n)
  {
    var s := Ll2String(n);
    w := r + ([prefix] + s + CRLF);
  }

  method WriteString(r: Bytestring, s: Bytestring) returns (w: Bytestring)
    requires Int64(|s|)
    ensures w == r + Bulk(s)
  {
    w := WriteCount(r, DOLLAR, |s|);
    w := w + s;
    w := w + CRLF;
  }

  /** The start of a command for the next items, if the last one is full. */
  method WriteOpening(r: Bytestring, name: Bytestring, key: Bytestring, count: nat, strings: nat, ghost rest: Argv,
                      ghost k: nat, per: nat)
    returns (w: Bytestring)
    requires rest != [] && |rest| == strings && k < per && (count == 0 <==> k == 0)
    requires Int64(|name|) && Int64(|key|) && Int64(2 + strings)
    ensures var n := Min(per - k, |rest|);
      w + (Bulks(rest[..n]) + CatAll(Chunked(name, key, rest[n..], per))) == r + Remaining(name, key, rest, k, per)
  {
    w := r;
    hide Bulks, CatAll, Chunked, Header, Bulk;
    if count == 0 {
      var items := if strings > per then per else strings;
      w := WriteCount(w, STAR, 2 + items);
      w := WriteString(w, name);
      w := WriteString(w, key);
      OpensCommand(name, key, rest, per);
    }
  }

  /** rewriteListObject and rewriteSetObject, whose loops are the same. */
  method RewriteItems(r: Bytestring, name: Bytestring, key: Bytestring, o: Argv) returns (w: Bytestring)
    requires Int64(|name|) && Int64(|key|) && Int64(2 + |o|) && forall x :: x in o ==> Int64(|x|)
    ensures w == r + CatAll(Chunked(name, key, o, ITEMS_PER_CMD))
  {
    w := r;
    hide Bulks, CatAll, Chunked, Bulk, Remaining, Int64;
    var rest, count, items := o, 0, |o|;
    assert r + Remaining(name, key, o, 0, ITEMS_PER_CMD) == r + CatAll(Chunked(name, key, o, ITEMS_PER_CMD)) by {
      RemainingAll(name, key, o, ITEMS_PER_CMD);
    }
    while rest != []
      invariant 0 <= count < ITEMS_PER_CMD && items == |rest| <= |o| && forall x :: x in rest ==> Int64(|x|)
      invariant w + Remaining(name, key, rest, count, ITEMS_PER_CMD) == r + CatAll(Chunked(name, key, o, ITEMS_PER_CMD))
      decreases |rest|
    {
      SmallerFits(2 + items, 2 + |o|);
      w := WriteOpening(w, name, key, count, items, rest, count, ITEMS_PER_CMD);
      WritesString(name, key, rest, count, ITEMS_PER_CMD);
      var before := w;
      w := WriteString(w, rest[0]);
      count := count + 1;
      if count == ITEMS_PER_CMD { count := 0; }
      items := items - 1;
      Assoc(before, Bulk(rest[0]), Remaining(name, key, rest[1..], count, ITEMS_PER_CMD));
      rest := rest[1..];
    }
    NothingRemains(name, key, count, ITEMS_PER_CMD);
    assert w + [] == w;
  }

  lemma RemainingAll(name: Bytestring, key: Bytestring, o: Argv, per: nat)
    requires per > 0
    ensures Remaining(name, key, o, 0, per) == CatAll(Chunked(name, key, o, per))
  {
  }

  lemma SmallerFits(a: nat, b: nat)
    requires a <= b && Int64(b)
    ensures Int64(a)
  {
  }

  /** rewriteHashObject: a field and its value at a time. */
  method RewriteHash(r: Bytestring, key: Bytestring, o: Argv) returns (w: Bytestring)
    requires Int64(|key|) && Int64(2 + |o|) && |o| % 2 == 0 && forall x :: x in o ==> Int64(|x|)
    ensures w == r + CatAll(Chunked(HMSET, key, o, 2 * ITEMS_PER_CMD))
  {
    w := r;
    hide Bulks, CatAll, Chunked, Bulk, Remaining;
    var rest, count, items := o, 0, |o| / 2;
    RemainingAll(HMSET, key, o, 2 * ITEMS_PER_CMD);
    while rest != []
      invariant 0 <= count < ITEMS_PER_CMD && 2 * items == |rest| <= |o| && forall x :: x in rest ==> Int64(|x|)
      invariant w + Remaining(HMSET, key, rest, 2 * count, 2 * ITEMS_PER_CMD)
        == r + CatAll(Chunked(HMSET, key, o, 2 * ITEMS_PER_CMD))
      decreases |rest|
    {
      w := WriteOpening(w, HMSET, key, count, 2 * items, rest, 2 * count, 2 * ITEMS_PER_CMD);
      w := WritePair(w, key, rest, 2 * count);
      count := count + 1;
      if count == ITEMS_PER_CMD { count := 0; }
      items := items - 1;
      rest := rest[2..];
    }
    NothingRemains(HMSET, key, 2 * count, 2 * ITEMS_PER_CMD);
    assert w + [] == w;
  }

  method WritePair(r: Bytestring, ghost key: Bytestring, rest: Argv, ghost k: nat) returns (w: Bytestring)
    requires |rest| >= 2 && k % 2 == 0 && k < 2 * ITEMS_PER_CMD && forall x :: x in rest ==> Int64(|x|)
    ensures var n := Min(2 * ITEMS_PER_CMD - k, |rest|);
      w + Remaining(HMSET, key, rest[2..], (k + 2) % (2 * ITEMS_PER_CMD), 2 * ITEMS_PER_CMD)
      == r + (Bulks(rest[..n]) + CatAll(Chunked(HMSET, key, rest[n..], 2 * ITEMS_PER_CMD)))
  {
    hide Bulks, CatAll, Chunked, Bulk, Remaining;
    w := WriteString(r, rest[0]);
    w := WriteString(w, rest[1]);
    ghost var per := 2 * ITEMS_PER_CMD;
    WritesString(HMSET, key, rest, k, per);
    WritesString(HMSET, key, rest[1..], k + 1, per);
    RemainingOpen(HMSET, key, rest[1..], k + 1, per);
    assert rest[1..][1..] == rest[2..];
    Assoc(r, Bulk(rest[0]), Bulk(rest[1]));
    ghost var last := Remaining(HMSET, key, rest[2..], (k + 2) % per, per);
    assert r + (Bulk(rest[0]) + (Bulk(rest[1]) + last)) == r + Bulk(rest[0]) + Bulk(rest[1]) + last;
  }

  lemma RemainingOpen(name: Bytestring, key: Bytestring, rest: Argv, k: nat, per: nat)
    requires 0 < k < per
    ensures var n := Min(per - k, |rest|);
      Remaining(name, key, rest, k, per) == Bulks(rest[..n]) + CatAll(Chunked(name, key, rest[n..], per))
  {
  }

  // ----- keys and databases -----

  /** The constant heads of the commands written. */
  const SET_HEAD: Bytestring := [STAR, 51] + CRLF + [DOLLAR, 51] + CRLF + SET + CRLF
  const PEXPIREAT_HEAD: Bytestring := [STAR, 51] + CRLF + [DOLLAR, 57] + CRLF + PEXPIREAT + CRLF
  const SELECT_HEAD: Bytestring := [STAR, 50] + CRLF + [DOLLAR, 54] + CRLF + SELECT + CRLF

  lemma Heads()
    ensures SET_HEAD == Header(STAR, 3) + Bulk(SET)
    ensures PEXPIREAT_HEAD == Header(STAR, 3) + Bulk(PEXPIREAT)
    ensures SELECT_HEAD == Header(STAR, 2) + Bulk(SELECT)
  {
    assert Print(2) == [50] && Print(3) == [51] && Print(6) == [54] && Print(9) == [57];
  }

  /** One key, as the loop of rewriteAppendOnlyFile writes it. */
  method RewriteEntry(r: Bytestring, e: Entry, now: int) returns (w: Bytestring)
    requires EntryFits(e)
    ensures w == r + CatAll(EntryCommands(e, now))
  {
    w := r;
    hide CatAll, Chunked, Cat, Print;
    if e.expire != -1 && e.expire < now {
      NoCommands();
      assert w + [] == w;
      return;
    }
    w := RewriteValue(w, e);
    if e.expire != -1 {
      var before := w;
      w := w + PEXPIREAT_HEAD;
      w := WriteString(w, e.key);
      var s := Ll2String(e.expire);
      ExpireWritten(before, e.key, e.expire);
      w := WriteString(w, s);
      AppendLast(r, ValueCommands(e.key, e.value), [PEXPIREAT, e.key, Print(e.expire)]);
    } else {
      var nil: seq<Argv> := [];
      assert ValueCommands(e.key, e.value) + nil == ValueCommands(e.key, e.value);
    }
  }

  lemma CatAllOne(argv: Argv)
    ensures CatAll([argv]) == Cat(argv)
  {
    hide Cat;
    var nil: Bytestring := [];
    var cmds: seq<Argv> := [argv];
    assert |cmds[1..]| == 0 && Cat(argv) + nil == Cat(argv);
  }

  lemma NoCommands()
    ensures CatAll([]) == []
  {
  }

  lemma AppendLast(r: Bytestring, cmds: seq<Argv>, argv: Argv)
    ensures r + CatAll(cmds) + Cat(argv) == r + CatAll(cmds + [argv])
  {
    var nil: Bytestring := [];
    CatAllAppend(cmds, [argv]);
    assert CatAll([argv]) == Cat(argv) + CatAll([argv][1..]);
    assert Cat(argv) + nil == Cat(argv);
    hide CatAll, Cat;
    Assoc(r, CatAll(cmds), Cat(argv));
  }

  /** The constant head of a three-argument command, and the two strings after it. */
  lemma ThreeWritten(r: Bytestring, head: Bytestring, name: Bytestring, a: Bytestring, b: Bytestring)
    requires head == Header(STAR, 3) + Bulk(name)
    ensures r + head + Bulk(a) + Bulk(b) == r + Cat([name, a, b])
  {
    hide Header, Bulk;
    CatOpens(name, a, [b]);
    assert [name, a] + [b] == [name, a, b];
    var nil: Bytestring := [];
    assert Bulks([b]) == Bulk(b) + nil;
  }

  lemma ExpireWritten(r: Bytestring, key: Bytestring, when: int)
    requires Int64(when)
    ensures r + PEXPIREAT_HEAD + Bulk(key) + Bulk(Print(when)) == r + Cat([PEXPIREAT, key, Print(when)])
    ensures Int64(|Print(when)|)
  {
    hide Print, Header, Bulk, Cat;
    LogMachine.NumberFits(when);
    Heads();
    ThreeWritten(r, PEXPIREAT_HEAD, PEXPIREAT, key, Print(when));
  }

  lemma SetWritten(r: Bytestring, key: Bytestring, val: Bytestring)
    ensures r + SET_HEAD + Bulk(key) + Bulk(val) == r + CatAll([[SET, key, val]])
  {
    hide Print, Header, Bulk, Cat, CatAll;
    Heads();
    ThreeWritten(r, SET_HEAD, SET, key, val);
    CatAllOne([SET, key, val]);
  }

  method RewriteValue(r: Bytestring, e: Entry) returns (w: Bytestring)
    requires EntryFits(e)
    ensures w == r + CatAll(ValueCommands(e.key, e.value))
  {
    hide CatAll, Chunked, Cat;
    match e.value
    case StoredString(b) =>
      w := r + SET_HEAD;
      w := WriteString(w, e.key);
      w := WriteString(w, b);
      SetWritten(r, e.key, b);
    case StoredList(items) => w := RewriteItems(r, RPUSH, e.key, items);
    case StoredSet(members) => w := RewriteItems(r, SADD, e.key, members);
    case StoredHash(pairs) => w := RewriteHash(r, e.key, pairs);
  }

  /** The inner loop of rewriteAppendOnlyFile. */
  method RewriteDb(r: Bytestring, entries: seq<Entry>, now: int) returns (w: Bytestring)
    requires forall e :: e in entries ==> EntryFits(e)
    ensures w == r + CatAll(EntriesCommands(entries, now))
  {
    w := r;
    hide CatAll, EntryFits, EntryCommands;
    var rest := entries;
    while rest != []
      invariant forall e :: e in rest ==> EntryFits(e)
      invariant w + CatAll(EntriesCommands(rest, now)) == r + CatAll(EntriesCommands(entries, now))
      decreases |rest|
    {
      CatAllAppend(EntryCommands(rest[0], now), EntriesCommands(rest[1..], now));
      Assoc(w, CatAll(EntryCommands(rest[0], now)), CatAll(EntriesCommands(rest[1..], now)));
      assert rest[0] in rest;
      w := RewriteEntry(w, rest[0], now);
      rest := rest[1..];
    }
    NoCommands();
    assert w + [] == w;
  }

  lemma SelectWritten(r: Bytestring, d: nat)
    requires Int64(d)
    ensures r + SELECT_HEAD + Bulk(Print(d)) == r + Cat(SelectCommand(d))
    ensures Int64(|Print(d)|)
  {
    hide Print, Header, Bulk, Cat;
    LogMachine.NumberFits(d);
    Heads();
    var none: Argv := [];
    CatOpens(SELECT, Print(d), none);
    assert [SELECT, Print(d)] + none == SelectCommand(d);
  }

  /** rewriteAppendOnlyFile: database after database, the empty ones left out. */
  method RewriteAppendOnlyFile(layout: seq<seq<Entry>>, now: int) returns (w: Bytestring)
    requires Int64(|layout|) && forall entries, e :: entries in layout && e in entries ==> EntryFits(e)
    ensures w == CatAll(Dump(layout, 0, now))
  {
    hide CatAll, EntryFits, EntriesCommands, SelectCommand;
    w := [];
    var j := 0;
    while j < |layout|
      invariant 0 <= j <= |layout|
      invariant w + CatAll(Dump(layout[j..], j, now)) == CatAll(Dump(layout, 0, now))
    {
      var entries := layout[j];
      assert layout[j..][0] == entries && layout[j..][1..] == layout[j + 1..];
      var cmds := if entries == [] then [] else [SelectCommand(j)] + EntriesCommands(entries, now);
      ghost var more := Dump(layout[j + 1..], j + 1, now);
      assert Dump(layout[j..], j, now) == cmds + more;
      CatAllAppend(cmds, more);
      Assoc(w, CatAll(cmds), CatAll(more));
      w := RewriteOne(w, entries, j, now);
      j := j + 1;
    }
    NoCommands();
    assert layout[j..] == [] && w + [] == w;
  }

  method RewriteOne(r: Bytestring, entries: seq<Entry>, j: nat, now: int) returns (w: Bytestring)
    requires Int64(j) && forall e :: e in entries ==> EntryFits(e)
    ensures w == r + CatAll(if entries == [] then [] else [SelectCommand(j)] + EntriesCommands(entries, now))
  {
    hide CatAll, EntryFits, EntriesCommands, SelectCommand, Cat;
    if entries == [] {
      NoCommands();
      assert r + [] == r;
      return r;
    }
    SelectWritten(r, j);
    CatAllOne(SelectCommand(j));
    w := r + SELECT_HEAD;
    var s := Ll2String(j);
    w := WriteString(w, s);
    w := RewriteDb(w, entries, now);
    CatAllAppend([SelectCommand(j)], EntriesCommands(entries, now));
    Assoc(r, CatAll([SelectCommand(j)]), CatAll(EntriesCommands(entries, now)));
  }
}
