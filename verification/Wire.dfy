/** The command format shared by clients and the append only file: *argc, then $len and the bytes
    of each argument, every line ended by CR LF. */
module Wire {
  import opened Bytes
  import opened Decimal

  const CR: Byte := 13
  const LF: Byte := 10
  const STAR: Byte := 42
  const DOLLAR: Byte := 36
  const SPACE: Byte := 32
  const NUL: Byte := 0

  const CRLF: Bytestring := [CR, LF]

  const MAX_ARGC := 1048576
  const MAX_BULK := 536870912

  type Argv = seq<Bytestring>

  function Header(prefix: Byte, n: int): Bytestring { [prefix] + Print(n) + CRLF }

  function Bulk(arg: Bytestring): Bytestring { Header(DOLLAR, |arg|) + arg + CRLF }

  function Bulks(argv: Argv): Bytestring
  {
    if argv == [] then [] else Bulk(argv[0]) + Bulks(argv[1..])
  }

  function Cat(argv: Argv): Bytestring { Header(STAR, |argv|) + Bulks(argv) }

  function CatAll(cmds: seq<Argv>): Bytestring
  {
    if cmds == [] then [] else Cat(cmds[0]) + CatAll(cmds[1..])
  }

  /** An argument vector the format is meant for. */
  ghost predicate Sendable(argv: Argv)
  {
    1 <= |argv| <= MAX_ARGC && forall a :: a in argv ==> |a| <= MAX_BULK
  }

  lemma {:induction false} CatAllAppend(a: seq<Argv>, b: seq<Argv>)
    ensures CatAll(a + b) == CatAll(a) + CatAll(b)
  {
    if a == [] {
      assert a + b == b;
    } else {
      assert (a + b)[1..] == a[1..] + b;
      CatAllAppend(a[1..], b);
    }
  }

  /** Appends one length-prefixed argument. */
  method CatBulk(dst: Bytestring, o: Bytestring) returns (r: Bytestring)
    requires Int64(|o|)
    ensures r == dst + Bulk(o)
  {
    var n := Ll2String(|o|);
    r := dst + ([DOLLAR] + n + CRLF);
    r := r + o;
    r := r + CRLF;
  }

  /** The loop over the arguments. */
  method CatBulks(dst: Bytestring, argv: Argv) returns (r: Bytestring)
    requires forall a :: a in argv ==> Int64(|a|)
    ensures r == dst + Bulks(argv)
  {
    r := dst;
    var j := 0;
    hide Bulk, Int64;
    while j < |argv|
      invariant 0 <= j <= |argv|
      invariant r + Bulks(argv[j..]) == dst + Bulks(argv)
    {
      Assoc(r, Bulk(argv[j]), Bulks(argv[j + 1..]));
      r := CatBulk(r, argv[j]);
      j := j + 1;
    }
    assert r + [] == r;
  }

  /** catAppendOnlyGenericCommand: appends the command to `dst`, a header and then the loop. */
  method CatAppendOnlyGenericCommand(dst: Bytestring, argv: Argv) returns (r: Bytestring)
    requires Int64(|argv|) && forall a :: a in argv ==> Int64(|a|)
    ensures r == dst + Cat(argv)
  {
    hide Bulks;
    var n := Ll2String(|argv|);
    r := CatBulks(dst + ([STAR] + n + CRLF), argv);
    Assoc(dst, Header(STAR, |argv|), Bulks(argv));
  }

  lemma Assoc(a: Bytestring, b: Bytestring, c: Bytestring)
    ensures (a + b) + c == a + (b + c)
  {
  }
}
