/** rdb.c, on values: lengths and strings as they are written to the dump file and read back. */
module RdbFormat {
  import opened Bytes
  import opened Decimal
  import opened Wire
  import opened Strtol
  import opened LzfFormat

  const LENERR := 0xFFFF_FFFF

  // ----- lengths -----

  /** rdbSaveLen; the length has been converted to 32 bits. */
  function SaveLen(len: nat): Bytestring
  {
    var n := len % 0x1_0000_0000;
    if n < 64 then [n]
    else if n < 16384 then [64 + n / 256, n % 256]
    else [128, n / 0x100_0000, n / 0x1_0000 % 256, n / 256 % 256, n % 256]
  }

  function Num(b: Byte): nat { b }

  /** rdbLoadLen: the number, whether it is an encoding type, and what is left. A failed read gives
      LENERR, which is also what the largest length looks like. */
  function LoadLen(s: Bytestring): (r: (nat, bool, Bytestring))
    ensures |r.2| <= |s|
  {
    if s == [] then (LENERR, false, s)
    else
      var b: int := s[0];
      if b / 64 == 3 then (b % 64, true, s[1..])
      else if b / 64 == 0 then (b % 64, false, s[1..])
      else if b / 64 == 1 then
        if |s| < 2 then (LENERR, false, s) else (b % 64 * 256 + s[1], false, s[2..])
      else if |s| < 5 then (LENERR, false, s)
      else (Num(s[1]) * 0x100_0000 + Num(s[2]) * 0x1_0000 + Num(s[3]) * 256 + Num(s[4]), false, s[5..])
  }

  lemma LenLoads(len: nat, rest: Bytestring)
    ensures LoadLen(SaveLen(len) + rest) == (len % 0x1_0000_0000, false, rest)
    ensures len < 0x1_0000_0000 ==> |SaveLen(len)| == if len < 64 then 1 else if len < 16384 then 2 else 5
  {
    var n := len % 0x1_0000_0000;
    var w := SaveLen(len);
    var s := w + rest;
    assert s[|w|..] == rest;
    if n >= 16384 {
      BigEndian(n);
      var x: int := s[0];
      assert x / 64 == 2;
    } else if n >= 64 {
      var x: int := s[0];
      assert x == 64 + n / 256 && n / 256 < 64;
    }
  }

  lemma BigEndian(n: nat)
    requires n < 0x1_0000_0000
    ensures n == n / 0x100_0000 * 0x100_0000 + n / 0x1_0000 % 256 * 0x1_0000 + n / 256 % 256 * 256 + n % 256
    ensures n / 0x100_0000 < 256
  {
    LittleEndian(n);
    assert n % 0x1_0000_0000 == n && n / 0x100_0000 % 256 == n / 0x100_0000;
  }

  // ----- integers -----

  function Low(v: int, k: nat): Byte { v / Shift(k) % 256 }

  function Shift(k: nat): (p: nat)
    ensures p > 0
  {
    if k == 0 then 1 else if k == 1 then 256 else if k == 2 then 0x1_0000 else 0x100_0000
  }

  /** rdbEncodeInteger. */
  function EncodeInteger(v: int): Bytestring
  {
    if -0x80 <= v < 0x80 then [192, Low(v, 0)]
    else if -0x8000 <= v < 0x8000 then [193, Low(v, 0), Low(v, 1)]
    else if -0x8000_0000 <= v < 0x8000_0000 then [194, Low(v, 0), Low(v, 1), Low(v, 2), Low(v, 3)]
    else []
  }

  /** A number of `bits` values read as two's complement. */
  function Signed(u: nat, range: nat): int { if u < range / 2 then u else u - range }

  /** rdbLoadIntegerObject. */
  function LoadInteger(enctype: nat, s: Bytestring): Option<(Bytestring, Bytestring)>
  {
    if enctype == 0 then
      if |s| < 1 then None else Some((Print(Signed(s[0], 256)), s[1..]))
    else if enctype == 1 then
      if |s| < 2 then None else Some((Print(Signed(Num(s[0]) + Num(s[1]) * 256, 0x1_0000)), s[2..]))
    else
      if |s| < 4 then None
      else
        var v := Num(s[0]) + Num(s[1]) * 256 + Num(s[2]) * 0x1_0000 + Num(s[3]) * 0x100_0000;
        Some((Print(Signed(v, 0x1_0000_0000)), s[4..]))
  }

  /** rdbTryIntegerEncoding: only text that is exactly what the number prints as. */
  function TryInteger(s: Bytestring): Bytestring
  {
    var v := Strtoll(s);
    if At(s, Number(s).1) != NUL || Print(v) != s then [] else EncodeInteger(v)
  }

  // ----- strings -----

  const ENC_LZF: Byte := 195

  function Zeros(n: nat): Bytestring { seq(n, i => 0) }

  /** rdbLoadLzfStringObject. */
  function LoadLzf(s: Bytestring): Option<(Bytestring, Bytestring)>
  {
    var (clen, _, s1) := LoadLen(s);
    if clen == LENERR then None
    else
      var (len, _, s2) := LoadLen(s1);
      if len == LENERR || clen == 0 || |s2| < clen then None
      else match Decode(s2[..clen], [], len)
        case Done(out) => if out == [] || |out| > len then None else Some((out + Zeros(len - |out|), s2[clen..]))
        case _ => None
  }

  /** rdbGenericLoadStringObject; None is NULL, or the panic for an unknown type. */
  function LoadString(s: Bytestring): Option<(Bytestring, Bytestring)>
  {
    var (len, isencoded, rest) := LoadLen(s);
    if isencoded then (if len <= 2 then LoadInteger(len, rest) else if len == 3 then LoadLzf(rest) else None)
    else if len == LENERR || |rest| < len then None
    else Some((rest[..len], rest[len..]))
  }

  // ----- the three forms -----

  function LzfForm(c: Bytestring, len: nat): Bytestring
  {
    [ENC_LZF] + SaveLen(|c|) + SaveLen(len) + c
  }

  function Verbatim(s: Bytestring): Bytestring { SaveLen(|s|) + s }

  /** What rdbSaveRawString may write for s: the integer form if there is one; else a compressed form,
      whatever the compressor made of it; else the string itself. */
  ghost predicate Saved(w: Bytestring, s: Bytestring)
  {
    || (|s| <= 11 && TryInteger(s) != [] && w == TryInteger(s))
    || (|s| > 20 && exists c :: IsCompressed(c, s) && w == LzfForm(c, |s|))
    || w == Verbatim(s)
  }

  ghost predicate IsCompressed(c: Bytestring, s: Bytestring)
  {
    c != [] && |c| + 4 <= |s| && Decode(c, [], |s|) == Done(s)
  }

  lemma LittleEndian(v: int)
    ensures v % 0x1_0000 == v % 256 + v / 256 % 256 * 256
    ensures v % 0x100_0000 == v % 0x1_0000 + v / 0x1_0000 % 256 * 0x1_0000
    ensures v % 0x1_0000_0000 == v % 0x100_0000 + v / 0x100_0000 % 256 * 0x100_0000
  {
    var a, b, c := v / 256, v / 0x1_0000, v / 0x100_0000;
    assert v == a / 256 * 0x1_0000 + (v % 256 + a % 256 * 256);
    assert v == b / 256 * 0x100_0000 + (v % 0x1_0000 + b % 256 * 0x1_0000);
    assert v == c / 256 * 0x1_0000_0000 + (v % 0x100_0000 + c % 256 * 0x100_0000);
  }

  /** The strings stored as integers are exactly the 32-bit integers as they are printed. */
  lemma IntegersOnly(s: Bytestring)
    ensures TryInteger(s) != [] <==> exists v :: -0x8000_0000 <= v < 0x8000_0000 && s == Print(v)
  {
    hide Strtoll, Number, Print, Low;
    if TryInteger(s) != [] {
      var v := Strtoll(s);
      assert -0x8000_0000 <= v < 0x8000_0000 && s == Print(v);
    }
    if v :| -0x8000_0000 <= v < 0x8000_0000 && s == Print(v) {
      PrintedReads(v);
      assert EncodeInteger(v) != [];
    }
  }

  lemma PrintedReads(v: int)
    requires Int64(v)
    ensures Strtoll(Print(v)) == v && At(Print(v), Number(Print(v)).1) == NUL
  {
    hide Print;
    NumberOfPrint(v, []);
    assert Print(v) + [] == Print(v);
  }

  /** Two's complement bytes stand for the number they were made from. */
  lemma SignedBytes(v: int)
    ensures -0x80 <= v < 0x80 ==> Signed(Num(Low(v, 0)), 256) == v
    ensures -0x8000 <= v < 0x8000 ==> Signed(Num(Low(v, 0)) + Num(Low(v, 1)) * 256, 0x1_0000) == v
    ensures -0x8000_0000 <= v < 0x8000_0000 ==>
      Signed(Num(Low(v, 0)) + Num(Low(v, 1)) * 256 + Num(Low(v, 2)) * 0x1_0000 + Num(Low(v, 3)) * 0x100_0000,
        0x1_0000_0000) == v
  {
    LittleEndian(v);
    assert v / 1 == v;
    assert -0x8000_0000 <= v < 0x8000_0000 ==> v % 0x1_0000_0000 == if v < 0 then v + 0x1_0000_0000 else v;
    assert -0x8000 <= v < 0x8000 ==> v % 0x1_0000 == if v < 0 then v + 0x1_0000 else v;
  }

  lemma TypeLoads(x: Byte, rest: Bytestring)
    requires 192 <= x
    ensures LoadLen([x] + rest) == (x - 192, true, rest)
  {
    assert ([x] + rest)[1..] == rest;
  }

  lemma EncodedLoads(x: Byte, d: Bytestring, rest: Bytestring)
    requires 192 <= x <= 194
    ensures LoadString([x] + d + rest) == LoadInteger(x - 192, d + rest)
  {
    hide LoadInteger, LoadLen;
    TypeLoads(x, d + rest);
    assert [x] + d + rest == [x] + (d + rest);
  }

  lemma ByteLoads(v: int, rest: Bytestring)
    requires -0x80 <= v < 0x80
    ensures LoadInteger(0, [Low(v, 0)] + rest) == Some((Print(v), rest))
  {
    SignedBytes(v);
    hide Print, Low, Signed;
    assert ([Low(v, 0)] + rest)[1..] == rest;
  }

  lemma ShortLoads(v: int, rest: Bytestring)
    requires -0x8000 <= v < 0x8000
    ensures LoadInteger(1, [Low(v, 0), Low(v, 1)] + rest) == Some((Print(v), rest))
  {
    SignedBytes(v);
    hide Print, Low, Signed;
    assert ([Low(v, 0), Low(v, 1)] + rest)[2..] == rest;
  }

  lemma LongLoads(v: int, rest: Bytestring)
    requires -0x8000_0000 <= v < 0x8000_0000
    ensures LoadInteger(2, [Low(v, 0), Low(v, 1), Low(v, 2), Low(v, 3)] + rest) == Some((Print(v), rest))
  {
    SignedBytes(v);
    hide Print, Low, Signed;
    assert ([Low(v, 0), Low(v, 1), Low(v, 2), Low(v, 3)] + rest)[4..] == rest;
  }

  lemma IntegerLoads(v: int, rest: Bytestring)
    requires EncodeInteger(v) != []
    ensures LoadString(EncodeInteger(v) + rest) == Some((Print(v), rest))
    ensures |EncodeInteger(v)| == if -128 <= v <= 127 then 2 else if -32768 <= v <= 32767 then 3 else 5
  {
    hide Print, LoadString, LoadInteger, Low;
    if -0x80 <= v < 0x80 {
      EncodedLoads(192, [Low(v, 0)], rest);
      assert EncodeInteger(v) == [192] + [Low(v, 0)];
      ByteLoads(v, rest);
    } else if -0x8000 <= v < 0x8000 {
      EncodedLoads(193, [Low(v, 0), Low(v, 1)], rest);
      assert EncodeInteger(v) == [193] + [Low(v, 0), Low(v, 1)];
      ShortLoads(v, rest);
    } else {
      EncodedLoads(194, [Low(v, 0), Low(v, 1), Low(v, 2), Low(v, 3)], rest);
      assert EncodeInteger(v) == [194] + [Low(v, 0), Low(v, 1), Low(v, 2), Low(v, 3)];
      LongLoads(v, rest);
    }
  }

  lemma LzfLoads(c: Bytestring, s: Bytestring, rest: Bytestring)
    requires IsCompressed(c, s) && |s| < LENERR
    ensures LoadString(LzfForm(c, |s|) + rest) == Some((s, rest))
  {
    hide SaveLen, Decode, LoadLen;
    var a, b := SaveLen(|c|), SaveLen(|s|);
    var body := a + (b + (c + rest));
    assert LzfForm(c, |s|) + rest == [ENC_LZF] + body;
    TypeLoads(ENC_LZF, body);
    LenLoads(|c|, b + (c + rest));
    LenLoads(|s|, c + rest);
    assert (c + rest)[..|c|] == c && (c + rest)[|c|..] == rest;
    assert s + Zeros(0) == s;
  }

  /** The string itself is read back exactly when its length fits in 32 bits and is not the one that
      stands for an error. */
  lemma VerbatimLoads(s: Bytestring, rest: Bytestring)
    ensures LoadString(Verbatim(s) + rest) == Some((s, rest)) <==> |s| < LENERR
  {
    hide SaveLen;
    assert Verbatim(s) + rest == SaveLen(|s|) + (s + rest);
    LenLoads(|s|, s + rest);
    assert (s + rest)[..|s|] == s && (s + rest)[|s|..] == rest;
  }

  /** Whichever form was chosen, and whatever follows it, the same string is read back, and exactly
      what was written is consumed. */
  lemma SavedLoads(w: Bytestring, s: Bytestring, rest: Bytestring)
    requires Saved(w, s) && |s| < LENERR
    ensures LoadString(w + rest) == Some((s, rest))
  {
    hide LoadString, EncodeInteger, LzfForm, Verbatim;
    if w == Verbatim(s) {
      VerbatimLoads(s, rest);
    } else if |s| <= 11 && TryInteger(s) != [] && w == TryInteger(s) {
      IntegerLoads(Strtoll(s), rest);
    } else {
      var c :| IsCompressed(c, s) && w == LzfForm(c, |s|);
      LzfLoads(c, s, rest);
    }
  }
}
