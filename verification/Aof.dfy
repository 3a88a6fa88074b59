/** aof.c as it updates the server's fields. */
module Aof {
  import opened Bytes
  import opened Decimal
  import opened Wire
  import opened Strtol
  import opened Commands
  import opened Keyspace
  import opened Effects
  import opened Propagation
  import opened LogFile
  import opened Rewrite
  import opened LogMachine
  import opened AofRewrite

  const BLOCK_SIZE := 10485760

  function Concat(blocks: seq<Bytestring>): Bytestring
  {
    if blocks == [] then [] else Concat(blocks[..|blocks| - 1]) + blocks[|blocks| - 1]
  }

  /** Every block but the last is full. */
  predicate Chunky(blocks: seq<Bytestring>)
  {
    forall i :: 0 <= i < |blocks| ==> if i < |blocks| - 1 then |blocks[i]| == BLOCK_SIZE else |blocks[i]| <= BLOCK_SIZE
  }

  lemma ConcatSnoc(blocks: seq<Bytestring>, b: Bytestring)
    ensures Concat(blocks + [b]) == Concat(blocks) + b
  {
    assert (blocks + [b])[..|blocks|] == blocks;
  }

  lemma ConcatLast(blocks: seq<Bytestring>, last: Bytestring, more: Bytestring)
    requires blocks != [] && blocks[|blocks| - 1] == last
    ensures Concat(blocks[..|blocks| - 1] + [last + more]) == Concat(blocks) + more
  {
    var front := blocks[..|blocks| - 1];
    assert Concat(blocks) == Concat(front) + last;
    hide Concat;
    ConcatSnoc(front, last + more);
    Assoc(Concat(front), last, more);
  }

  lemma {:induction false} FullBlocks(blocks: seq<Bytestring>)
    requires Chunky(blocks) && blocks != []
    ensures |Concat(blocks)| == (|blocks| - 1) * BLOCK_SIZE + |blocks[|blocks| - 1]|
  {
    var front := blocks[..|blocks| - 1];
    if front != [] {
      assert |front[|front| - 1]| == BLOCK_SIZE;
      FullBlocks(front);
    }
  }

  /** The server's aof_ fields. While there is a child, `childFile` is what its temporary file will
      hold when it is done. */
  class AppendOnlyFile {
    var mode: Mode
    var file: Bytestring
    var buf: Bytestring
    var selected: int
    var childRunning: bool
    var childFile: Bytestring
    var blocks: seq<Bytestring>
    var rewriteScheduled: bool

    ghost predicate Valid()
      reads this
    {
      Chunky(blocks) && (!childRunning ==> blocks == [])
    }

    /** The state of the log together with these databases. */
    ghost function View(w: World): LogMachine.Server
      reads this
    {
      Server(w, mode, file, buf, selected, if childRunning then Some(childFile) else None, Concat(blocks))
    }

    /** A server started with appendonly yes and no file. */
    constructor ()
      ensures Valid() && forall n: nat :: View(EmptyWorld(n)) == Initial(n)
    {
      mode, file, buf, selected := On, [], [], -1;
      childRunning, childFile, blocks, rewriteScheduled := false, [], [], false;
    }

    // ----- the rewrite buffer -----

    method RewriteBufferAppend(s: Bytestring)
      requires Chunky(blocks)
      modifies this`blocks
      ensures Chunky(blocks) && Concat(blocks) == old(Concat(blocks)) + s
    {
      var rest := s;
      ghost var before := Concat(blocks);
      hide Concat;
      while rest != []
        invariant Chunky(blocks)
        invariant Concat(blocks) + rest == before + s
        decreases 2 * |rest| + (if blocks == [] || |blocks[|blocks| - 1]| == BLOCK_SIZE then 1 else 0)
      {
        if blocks != [] {
          var last := blocks[|blocks| - 1];
          var room := BLOCK_SIZE - |last|;
          var n := if room < |rest| then room else |rest|;
          ConcatLast(blocks, last, rest[..n]);
          ghost var done := Concat(blocks);
          blocks := blocks[..|blocks| - 1] + [last + rest[..n]];
          assert done + rest == (done + rest[..n]) + rest[n..];
          rest := rest[n..];
        }
        if rest != [] {
          ConcatSnoc(blocks, []);
          assert Concat(blocks) + [] == Concat(blocks);
          blocks := blocks + [[]];
        }
      }
      assert Concat(blocks) + [] == Concat(blocks);
    }

    method RewriteBufferSize() returns (n: nat)
      requires Chunky(blocks)
      ensures n == |Concat(blocks)|
    {
      if blocks == [] { return 0; }
      FullBlocks(blocks);
      n := (|blocks| - 1) * BLOCK_SIZE + |blocks[|blocks| - 1]|;
    }

    /** Appends the whole buffer to a file. */
    method RewriteBufferWrite(fd: Bytestring) returns (r: Bytestring)
      ensures r == fd + Concat(blocks)
    {
      r := fd;
      var i := 0;
      while i < |blocks|
        invariant 0 <= i <= |blocks| && r == fd + Concat(blocks[..i])
      {
        assert blocks[..i + 1] == blocks[..i] + [blocks[i]];
        ConcatSnoc(blocks[..i], blocks[i]);
        Assoc(fd, Concat(blocks[..i]), blocks[i]);
        if |blocks[i]| > 0 { r := r + blocks[i]; }
        i := i + 1;
      }
      assert blocks[..|blocks|] == blocks;
    }

    // ----- feeding -----

    /** catAppendOnlyExpireAtCommand. */
    method CatExpireAt(dst: Bytestring, c: Command, key: Bytestring, text: Bytestring, now: int) returns (r: Bytestring)
      requires |key| <= INT64_MAX
      ensures r == dst + Cat(ExpireAtCommand(c, key, text, now))
    {
      hide Strtoll, Wrap, Cat, Print, Fits;
      var when := Strtoll(text);
      if c == Expire || c == SetEx || c == ExpireAt { when := Wrap(when * 1000); }
      if c == Expire || c == PExpire || c == SetEx || c == PSetEx { when := Wrap(when + now); }
      var s := Ll2String(when);
      ThreeFit(PEXPIREAT, key, when);
      r := CatAppendOnlyGenericCommand(dst, [PEXPIREAT, key, s]);
    }

    /** SETEX and PSETEX. */
    method CatSetEx(dst: Bytestring, c: Command, argv: Argv, now: int) returns (r: Bytestring)
      requires |argv| == 4 && Fits(argv)
      ensures r == dst + CatAll([[SET, argv[1], argv[3]], ExpireAtCommand(c, argv[1], argv[2], now)])
    {
      hide Cat, CatAll, ExpireAtCommand;
      assert argv[1] in argv && argv[3] in argv;
      var plain := [SET, argv[1], argv[3]];
      r := CatAppendOnlyGenericCommand(dst, plain);
      r := CatExpireAt(r, c, argv[1], argv[2], now);
      ghost var expire := ExpireAtCommand(c, argv[1], argv[2], now);
      CatAllTwo(plain, expire);
      Assoc(dst, Cat(plain), Cat(expire));
    }

    /** The bytes of one call of feedAppendOnlyFile after any SELECT. */
    method CatTranslated(dst: Bytestring, argv: Argv, now: int) returns (r: Bytestring)
      requires Runnable(argv) && Fits(argv)
      ensures r == dst + CatAll(Translate(argv, now))
    {
      var c := Lookup(argv[0]).value;
      FitsInt64(argv);
      TranslatedAs(argv, now);
      hide Lookup, Cat, CatAll, ExpireAtCommand, Fits, Int64, Translate;
      if c == Expire || c == PExpire || c == ExpireAt {
        r := CatExpireAt(dst, c, argv[1], argv[2], now);
        CatAllOne(ExpireAtCommand(c, argv[1], argv[2], now));
      } else if c == SetEx || c == PSetEx {
        r := CatSetEx(dst, c, argv, now);
      } else {
        r := CatAppendOnlyGenericCommand(dst, argv);
        CatAllOne(argv);
      }
    }

    /** feedAppendOnlyFile. */
    method FeedAppendOnlyFile(dictid: nat, argv: Argv, now: int, ghost w: World)
      requires Valid() && mode != Off && Runnable(argv) && Fits(argv) && dictid <= INT64_MAX
      modifies this`buf, this`selected, this`blocks
      ensures Valid() && View(w) == Fed(old(View(w)), [Record(dictid, Translate(argv, now))])
    {
      hide Lookup, Translate, Cat, CatAll, Concat, SelectCommand, Feed, LastDb, Fits;
      var bytes: Bytestring := [];
      ghost var before := selected;
      if dictid != selected {
        bytes := CatSelect(dictid);
        selected := dictid;
      }
      bytes := CatTranslated(bytes, argv, now);
      FeedOneIs(before, dictid, Translate(argv, now));
      if mode == On { buf := buf + bytes; }
      if childRunning { RewriteBufferAppend(bytes); }
    }

    method CatSelect(d: nat) returns (r: Bytestring)
      requires d <= INT64_MAX
      ensures r == Cat(SelectCommand(d))
    {
      hide Cat, Bulk, SelectCommand;
      r := [] + SELECT_HEAD;
      var s := Ll2String(d);
      SelectWritten([], d);
      r := WriteString(r, s);
      assert r == [] + Cat(SelectCommand(d));
    }

    // ----- the file -----

    /** flushAppendOnlyFile, when it is not postponed. */
    method Flush(ghost w: World)
      requires Valid()
      modifies this`file, this`buf
      ensures Valid() && View(w) == Step(old(View(w)), Event.Flush)
    {
      if |buf| == 0 {
        assert file + buf == file;
        return;
      }
      file := file + buf;
      buf := [];
    }

    /** rewriteAppendOnlyFileBackground: the child is a copy of the server as it is now. */
    method RewriteBackground(ghost w: World, layout: seq<seq<Entry>>, now: int) returns (ok: bool)
      requires Valid() && DepictsAll(layout, w) && now >= 0
      requires Int64(|layout|) && forall entries, e :: entries in layout && e in entries ==> EntryFits(e)
      modifies this`childRunning, this`childFile, this`selected, this`rewriteScheduled
      ensures Valid() && ok == !old(childRunning) && View(w) == Step(old(View(w)), Rewrite(layout, now))
    {
      hide CatAll, Dump, DepictsAll, EntryFits;
      if childRunning { return false; }
      rewriteScheduled := false;
      childRunning := true;
      childFile := RewriteAppendOnlyFile(layout, now);
      selected := -1;
      return true;
    }

    /** startAppendOnly. */
    method StartAppendOnly(ghost w: World, layout: seq<seq<Entry>>, now: int) returns (ok: bool)
      requires Valid() && mode == Off && DepictsAll(layout, w) && now >= 0
      requires Int64(|layout|) && forall entries, e :: entries in layout && e in entries ==> EntryFits(e)
      modifies this
      ensures Valid() && ok == !old(childRunning) && View(w) == Step(old(View(w)), Start(layout, now))
    {
      hide CatAll, Dump, DepictsAll, EntryFits;
      ok := RewriteBackground(w, layout, now);
      if ok { mode := Waiting; }
    }

    /** stopAppendOnly: a running child is killed. */
    method StopAppendOnly(ghost w: World)
      requires Valid() && mode != Off
      modifies this
      ensures Valid() && View(w) == Step(old(View(w)), Stop)
    {
      Flush(w);
      selected := -1;
      mode := Off;
      if childRunning {
        blocks := [];
        childRunning := false;
      }
      assert blocks == [];
    }

    /** backgroundRewriteDoneHandler: `ok` is the child's success; `reopened`, `written` and `renamed`
        say how the steps on its file went. */
    method RewriteDone(ok: bool, reopened: bool, written: bool, renamed: bool, ghost w: World)
      requires Valid() && childRunning
      modifies this
      ensures Valid() && View(w) == Done(old(View(w)), ok && reopened && written && renamed)
    {
      if ok && reopened {
        var newFile := RewriteBufferWrite(childFile);
        if written && renamed {
          file := newFile;
          if mode != Off {
            selected := -1;
            buf := [];
          }
          if mode == Waiting { mode := On; }
        }
      }
      blocks := [];
      childRunning := false;
      if mode == Waiting { rewriteScheduled := true; }
    }
  }

  lemma CatAllTwo(a: Argv, b: Argv)
    ensures CatAll([a, b]) == Cat(a) + Cat(b)
  {
    hide Cat, CatAll;
    CatAllOne(a);
    CatAllOne(b);
    CatAllAppend([a], [b]);
    assert [a] + [b] == [a, b];
  }

  lemma FitsInt64(argv: Argv)
    requires Fits(argv)
    ensures Int64(|argv|) && forall a :: a in argv ==> Int64(|a|) && |a| <= INT64_MAX
  {
  }

  lemma TranslatedAs(argv: Argv, now: int)
    requires Runnable(argv)
    ensures var c := Lookup(argv[0]).value;
      Translate(argv, now) == (if c in {Expire, PExpire, ExpireAt} then [ExpireAtCommand(c, argv[1], argv[2], now)]
                               else if c in {SetEx, PSetEx} then
                                 [[SET, argv[1], argv[3]], ExpireAtCommand(c, argv[1], argv[2], now)]
                               else [argv])
  {
    hide Lookup, ExpireAtCommand;
  }

  lemma ThreeFit(name: Bytestring, key: Bytestring, v: int)
    requires |name| <= INT64_MAX && |key| <= INT64_MAX && Int64(v)
    ensures forall a :: a in [name, key, Print(v)] ==> Int64(|a|)
  {
    NumberFits(v);
    hide Print;
  }

  lemma FeedOneIs(selected: int, d: nat, cmds: seq<Argv>)
    ensures CatAll(Feed(selected, [Record(d, cmds)]))
         == (if d != selected then Cat(SelectCommand(d)) else []) + CatAll(cmds)
    ensures LastDb(selected, [Record(d, cmds)]) == d
  {
    hide Cat, SelectCommand;
    var nil: seq<Argv> := [];
    var sel := if d != selected then [SelectCommand(d)] else [];
    assert |[Record(d, cmds)][1..]| == 0;
    assert Feed(selected, [Record(d, cmds)]) == sel + cmds + nil == sel + cmds;
    CatAllAppend(sel, cmds);
    CatAllOne(SelectCommand(d));
  }
}
