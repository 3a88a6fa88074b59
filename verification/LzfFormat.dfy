/** The LZF stream format, as a reference decoder on values.
    A stream is a sequence of literal runs (control byte < 32) and back references. */
module LzfFormat {
  import opened Bytes

  datatype Decoded = Done(out: Bytestring) | TooBig | Invalid

  /** Appends `len` bytes to `out`, each one a copy of the byte `dist` places back; with
      dist < len the copy reads bytes that it has just written. */
  function CopyBack(out: Bytestring, dist: nat, len: nat): (r: Bytestring)
    requires 0 < dist <= |out|
    ensures |r| == |out| + len
    ensures r[..|out|] == out
    ensures forall k :: |out| <= k < |r| ==> r[k] == r[k - dist]
    decreases len
  {
    if len == 0 then out else CopyBack(out + [out[|out| - dist]], dist, len - 1)
  }

  /** The periodic extension is the only sequence that begins with `out` and repeats at `dist`. */
  lemma {:induction false} CopyBackUnique(out: Bytestring, dist: nat, s: Bytestring)
    requires 0 < dist <= |out| <= |s|
    requires s[..|out|] == out
    requires forall k :: |out| <= k < |s| ==> s[k] == s[k - dist]
    ensures s == CopyBack(out, dist, |s| - |out|)
    decreases |s| - |out|
  {
    if |s| == |out| {
      assert s == s[..|out|];
    } else {
      var next := out + [out[|out| - dist]];
      assert s[..|next|] == next;
      CopyBackUnique(next, dist, s);
    }
  }

  /** Bytes taken by the back reference that starts with control byte `ctrl`. */
  function RefSize(ctrl: Byte): nat { if ctrl / 32 == 7 then 3 else 2 }

  /** Bytes that the back reference at the head of `c` copies. */
  function RefLen(c: Bytestring): nat
    requires c != [] && RefSize(c[0]) <= |c|
  {
    var short: int := c[0] / 32;
    var extra: int := if short == 7 then c[1] else 0;
    short + extra + 2
  }

  /** How far back the reference at the head of `c` reaches. */
  function RefDist(c: Bytestring): nat
    requires c != [] && RefSize(c[0]) <= |c|
    ensures 1 <= RefDist(c) <= 8192
  {
    var high: int := c[0] % 32;
    var low: int := c[RefSize(c[0]) - 1];
    high * 256 + low + 1
  }

  /** One block of the stream applied to the output so far: what it used up and what it left. */
  datatype Block = Block(size: nat, out: Bytestring) | Overflow | Malformed

  /** Applies the block at the head of `c` to `out`, in a buffer of `limit` bytes. */
  function FirstBlock(c: Bytestring, out: Bytestring, limit: nat): (b: Block)
    requires c != []
    ensures b.Block? ==> 0 < b.size <= |c| && out <= b.out && |b.out| <= limit
  {
    if c[0] < 32 then
      var n: int := c[0] + 1;
      if |out| + n > limit then Overflow
      else if 1 + n > |c| then Malformed
      else Block(1 + n, out + c[1..1 + n])
    else if |c| < RefSize(c[0]) then Malformed
    else if |out| + RefLen(c) > limit then Overflow
    else if RefDist(c) > |out| then Malformed
    else Block(RefSize(c[0]), CopyBack(out, RefDist(c), RefLen(c)))
  }

  /** Decodes `c` on top of the bytes `out` already produced. */
  function Decode(c: Bytestring, out: Bytestring, limit: nat): Decoded
    decreases |c|
  {
    if c == [] then Done(out)
    else match FirstBlock(c, out, limit)
      case Block(size, out') => Decode(c[size..], out', limit)
      case Overflow => TooBig
      case Malformed => Invalid
  }

  /** A complete block is read the same whatever follows it. */
  lemma FirstBlockAppend(c: Bytestring, d: Bytestring, out: Bytestring, limit: nat)
    requires c != [] && FirstBlock(c, out, limit).Block?
    ensures FirstBlock(c + d, out, limit) == FirstBlock(c, out, limit)
  {
    if c[0] < 32 {
      var n: int := c[0] + 1;
      assert (c + d)[1..1 + n] == c[1..1 + n];
    } else {
      assert RefLen(c + d) == RefLen(c) && RefDist(c + d) == RefDist(c);
    }
  }

  /** A stream may be decoded in two parts. */
  lemma {:induction false} DecodeAppend(c: Bytestring, d: Bytestring, out: Bytestring, limit: nat)
    requires Decode(c, out, limit).Done?
    ensures Decode(c + d, out, limit) == Decode(d, Decode(c, out, limit).out, limit)
    decreases |c|
  {
    hide FirstBlock;
    if c == [] {
      assert c + d == d;
    } else {
      var b := FirstBlock(c, out, limit);
      FirstBlockAppend(c, d, out, limit);
      assert (c + d)[b.size..] == c[b.size..] + d;
      DecodeAppend(c[b.size..], d, b.out, limit);
    }
  }

  /** A block that fits in one buffer fits in another exactly when its output does. */
  lemma FirstBlockFits(c: Bytestring, out: Bytestring, limit: nat, room: nat)
    requires c != [] && FirstBlock(c, out, limit).Block?
    ensures var b := FirstBlock(c, out, limit);
      FirstBlock(c, out, room) == if |b.out| <= room then b else Overflow
  {
  }

  /** Decoding only ever appends, and any buffer that holds the result will do. */
  lemma {:induction false} DecodeFits(c: Bytestring, out: Bytestring, limit: nat, room: nat)
    requires Decode(c, out, limit).Done?
    ensures out <= Decode(c, out, limit).out
    ensures |Decode(c, out, limit).out| <= room ==> Decode(c, out, room) == Decode(c, out, limit)
    decreases |c|
  {
    hide FirstBlock;
    if c != [] {
      var b := FirstBlock(c, out, limit);
      FirstBlockFits(c, out, limit, room);
      DecodeFits(c[b.size..], b.out, limit, room);
    }
  }
}
