/** Both halves of the codec together. */
module LzfRoundTrip {
  import opened Bytes
  import opened LzfFormat
  import opened LzfCompress
  import opened LzfDecompress

  /** What the compressor accepts, the decompressor gives back: for every input, output bound and
      initial table, into any buffer at least as long as the input. */
  method RoundTrip(input: array<Byte>, packed: array<Byte>, outLen: nat, htab: array<Address>, base: nat,
      out: array<Byte>)
    returns (r: nat, n: nat, errno: Errno)
    requires input != packed && input != out && packed != out && input.Length != 1
    requires packed.Length == outLen + 1 && input.Length <= out.Length
    requires htab.Length == HSIZE && MAX_OFF <= base && base + input.Length <= 0x1_0000_0000_0000_0000
    modifies packed, htab, out
    ensures r > 0 ==> errno == NoError && n == input.Length && out[..n] == input[..]
    ensures input.Length > 0 && outLen >= Roomy(input.Length) ==> r > 0
  {
    r := Compress(input, packed, outLen, htab, base);
    n, errno := 0, NoError;
    if r > 0 {
      DecodeFits(packed[..r], [], input.Length, out.Length);
      n, errno := Decompress(packed, r, out);
    }
  }

  /** The same on values: a stream that decodes to `s` in one buffer does so in every buffer that
      can hold `s`, and in no smaller one. */
  lemma {:induction false} DecodeNeedsRoom(c: Bytestring, out: Bytestring, s: Bytestring, limit: nat, room: nat)
    requires Decode(c, out, limit) == Done(s) && |out| <= room
    ensures Decode(c, out, room) == (if |s| <= room then Done(s) else TooBig)
    decreases |c|
  {
    hide FirstBlock;
    DecodeFits(c, out, limit, room);
    if |s| > room && c != [] {
      var b := FirstBlock(c, out, limit);
      FirstBlockFits(c, out, limit, room);
      if |b.out| <= room { DecodeNeedsRoom(c[b.size..], b.out, s, limit, room); }
    }
  }

  /** A block gives no more than 264 bytes for each of its own, and a malformed one is malformed in any larger room. */
  lemma BlockGives(c: Bytestring, out: Bytestring, limit: nat)
    requires c != []
    ensures var b := FirstBlock(c, out, limit);
      && (b.Block? ==> |b.out| <= |out| + 264 * b.size)
      && (limit >= |out| + 264 * |c| ==> b != Overflow)
      && (b == Malformed ==> forall room: nat :: room >= limit ==> FirstBlock(c, out, room) == Malformed)
  {
    if c[0] >= 32 && |c| >= RefSize(c[0]) { assert RefLen(c) <= 264; }
  }

  /** A stream that is refused as invalid is invalid for every larger buffer, and none is refused as too big by a buffer
      with 264 bytes for each of its own. */
  lemma {:induction false} VerdictsAreRight(c: Bytestring, out: Bytestring, limit: nat, room: nat)
    requires limit <= room
    ensures Decode(c, out, limit) == Invalid ==> Decode(c, out, room) == Invalid
    ensures room >= |out| + 264 * |c| ==> Decode(c, out, room) != TooBig
    decreases |c|
  {
    if c != [] {
      BlockGives(c, out, limit);
      BlockGives(c, out, room);
      hide FirstBlock;
      var b, d := FirstBlock(c, out, limit), FirstBlock(c, out, room);
      if b.Block? {
        FirstBlockFitsHere(c, out, limit, room);
        VerdictsAreRight(c[b.size..], b.out, limit, room);
      } else if d.Block? {
        VerdictsAreRight(c[d.size..], d.out, room, room);
      }
    }
  }

  lemma FirstBlockFitsHere(c: Bytestring, out: Bytestring, limit: nat, room: nat)
    requires c != [] && FirstBlock(c, out, limit).Block? && limit <= room
    ensures FirstBlock(c, out, room) == FirstBlock(c, out, limit)
  {
    FirstBlockFits(c, out, limit, room);
  }
}
