/** bitops.c, SETBIT and GETBIT: one bit is written, and every other reads as it did. */
module SetBit {
  import opened Bytes
  import opened Effects

  /** The bit GETBIT finds in a byte. */
  predicate IsSet(b: bv8, bit: nat)
    requires bit < 8
  {
    b & ((1 as bv8) << bit) != 0
  }

  predicate ByteHasBit(b: Byte, bit: nat)
    requires bit < 8
  {
    IsSet(b as bv8, bit)
  }

  /** getbitCommand, its offset parsed: nothing is set beyond the end. */
  predicate GetBit(s: Bytestring, offset: nat)
  {
    offset / 8 < |s| && ByteHasBit(s[offset / 8], 7 - offset % 8)
  }

  function Mask(bit: nat): bv8
    requires bit < 8
  {
    if bit == 0 then 1 else if bit == 1 then 2 else if bit == 2 then 4 else if bit == 3 then 8
    else if bit == 4 then 16 else if bit == 5 then 32 else if bit == 6 then 64 else 128
  }

  lemma Masks(bit: nat)
    requires bit < 8
    ensures (1 as bv8) << bit == Mask(bit) && Mask(bit) != 0
  {
    if bit == 0 { assert (1 as bv8) << 0 == 1; }
    else if bit == 1 { assert (1 as bv8) << 1 == 2; }
    else if bit == 2 { assert (1 as bv8) << 2 == 4; }
    else if bit == 3 { assert (1 as bv8) << 3 == 8; }
    else if bit == 4 { assert (1 as bv8) << 4 == 16; }
    else if bit == 5 { assert (1 as bv8) << 5 == 32; }
    else if bit == 6 { assert (1 as bv8) << 6 == 64; }
    else { assert (1 as bv8) << 7 == 128; }
  }

  lemma MasksApart(i: nat, j: nat)
    requires i < 8 && j < 8 && i != j
    ensures Mask(i) & Mask(j) == 0
  {
  }

  /** on shifted to its place. */
  lemma OnAt(bit: nat, on: nat)
    requires bit < 8 && on <= 1
    ensures ((if on == 1 then 1 else 0) as bv8) << bit == if on == 1 then Mask(bit) else 0
  {
    Masks(bit);
  }

  lemma ByteWritten(b: bv8, m: bv8, n: bv8, v: bv8)
    requires v == 0 || v == m
    ensures m & n == 0 ==> ((b & !m) | v) & n == b & n
    ensures ((b & !m) | v) & m == v
  {
  }

  lemma BitWritten(b: bv8, i: nat, j: nat, on: nat)
    requires i < 8 && j < 8 && on <= 1
    ensures IsSet(SetBitOf(b, i, on), j) <==> if i == j then on == 1 else IsSet(b, j)
  {
    Masks(i);
    Masks(j);
    OnAt(i, on);
    ByteWritten(b, Mask(i), Mask(j), if on == 1 then Mask(i) else 0);
    if i != j { MasksApart(i, j); }
    hide Mask;
  }

  lemma ByteBitWritten(b: Byte, i: nat, j: nat, on: nat)
    requires i < 8 && j < 8 && on <= 1
    ensures ByteHasBit(ByteWithBit(b, i, on), j) <==> if i == j then on == 1 else ByteHasBit(b, j)
  {
    hide SetBitOf, IsSet;
    BitWritten(b as bv8, i, j, on);
    ByteKept(SetBitOf(b as bv8, i, on));
  }

  lemma ByteKept(b: bv8)
    ensures (b as Byte) as bv8 == b
  {
  }

  /** SETBIT then GETBIT: the bit written reads as it was written, and every other bit, in the string
      or beyond its old end, as it did before. */
  lemma SetThenGet(s: Bytestring, offset: nat, on: nat, other: nat)
    requires on <= 1
    ensures GetBit(WithBit(s, offset, on), other) <==> if other == offset then on == 1 else GetBit(s, other)
  {
    hide ByteHasBit, ByteWithBit, Grow;
    var i, j := offset / 8, other / 8;
    var g := Grow(s, i + 1);
    var bit, at := 7 - offset % 8, 7 - other % 8;
    assert other == offset <==> i == j && bit == at;
    ByteBitWritten(g[i], bit, at, on);
    GrownBit(s, i + 1, j, at);
  }

  lemma GrownBit(s: Bytestring, n: nat, j: nat, at: nat)
    requires at < 8
    ensures j < |Grow(s, n)| && ByteHasBit(Grow(s, n)[j], at) <==> j < |s| && ByteHasBit(s[j], at)
  {
    NothingSet(at);
    hide ByteHasBit;
    if j < |s| {
      assert Grow(s, n)[..|s|][j] == Grow(s, n)[j];
    }
  }

  lemma NothingSet(at: nat)
    requires at < 8
    ensures !ByteHasBit(0, at)
  {
    Masks(at);
  }
}
