/** intset.c, on values: integers as little endian bytes, all of one width, in one buffer. */
module IntsetFormat {
  import opened Bytes

  // ----- one integer -----

  /** Half the range of w bytes. */
  function Half(w: nat): (h: int)
    requires w > 0
    ensures h > 0
  {
    if w == 1 then 128 else 256 * Half(w - 1)
  }

  predicate FitsIn(v: int, w: nat)
    requires w > 0
  {
    -Half(w) <= v < Half(w)
  }

  /** The low w bytes, least significant first. */
  function Encode(v: int, w: nat): (b: Bytestring)
    ensures |b| == w
    decreases w
  {
    if w == 0 then [] else [v % 256] + Encode(v / 256, w - 1)
  }

  /** Bytes as a two's complement integer. */
  function Decode(b: Bytestring): int
    requires b != []
  {
    var low: int := b[0];
    if |b| == 1 then (if low < 128 then low else low - 256) else low + 256 * Decode(b[1..])
  }

  lemma {:induction false} DecodeEncode(v: int, w: nat)
    requires w > 0 && FitsIn(v, w)
    ensures Decode(Encode(v, w)) == v
    decreases w
  {
    var b := Encode(v, w);
    assert b[1..] == Encode(v / 256, w - 1);
    if w > 1 { DecodeEncode(v / 256, w - 1); }
  }

  lemma {:induction false} EncodeDecode(b: Bytestring)
    requires b != []
    ensures Encode(Decode(b), |b|) == b && FitsIn(Decode(b), |b|)
  {
    var low: int := b[0];
    assert b == [b[0]] + b[1..];
    if |b| == 1 {
      assert Encode(Decode(b) / 256, 0) == [];
    } else {
      EncodeDecode(b[1..]);
      assert Decode(b) % 256 == low && Decode(b) / 256 == Decode(b[1..]);
    }
  }

  // ----- widths -----

  predicate Width(w: nat) { w == 2 || w == 4 || w == 8 }

  /** _intsetValueEncoding, for 64-bit values. */
  function ValueEncoding(v: int): (w: nat)
    ensures Width(w)
  {
    if v < -0x8000_0000 || v > 0x7FFF_FFFF then 8
    else if v < -0x8000 || v > 0x7FFF then 4
    else 2
  }

  lemma Halves()
    ensures Half(2) == 0x8000 && Half(4) == 0x8000_0000 && Half(8) == 0x8000_0000_0000_0000
  {
    assert Half(3) == 0x80_0000;
    assert Half(5) == 0x80_0000_0000;
    assert Half(6) == 0x8000_0000_0000;
    assert Half(7) == 0x80_0000_0000_0000;
  }

  lemma EncodingFits(v: int, w: nat)
    requires Width(w) && FitsIn(v, 8)
    ensures FitsIn(v, w) <==> ValueEncoding(v) <= w
  {
    Halves();
  }

  // ----- cells -----

  /** Where cell i of width w begins. */
  function Off(i: nat, w: nat): (o: nat) { if i == 0 then 0 else Off(i - 1, w) + w }

  lemma {:induction false} OffMono(i: nat, j: nat, w: nat)
    requires i <= j
    ensures Off(i, w) <= Off(j, w)
    ensures i < j ==> Off(i, w) + w <= Off(j, w)
    decreases j
  {
    if i < j { OffMono(i, j - 1, w); }
  }

  lemma {:induction false} OffWider(i: nat, w: nat, x: nat)
    requires w <= x
    ensures Off(i, w) <= Off(i, x)
  {
    if i > 0 { OffWider(i - 1, w, x); }
  }

  lemma {:induction false} OffIs(i: nat, w: nat)
    ensures Off(i, w) == i * w
  {
    if i > 0 { OffIs(i - 1, w); }
  }

  // ----- sizes, in 32 bits -----

  const UINT32 := 0x1_0000_0000

  /** A number of cells times their width, as a uint32_t. */
  function Size(n: nat, w: nat): (s: nat)
    ensures s < UINT32
  {
    (n * w) % UINT32
  }

  /** The size computed has room for the cells exactly while they take less than 4 GB. */
  lemma SizeHolds(n: nat, w: nat)
    ensures Off(n, w) <= Size(n, w) <==> n * w < UINT32
    ensures n * w < UINT32 ==> Size(n, w) == Off(n, w)
  {
    OffIs(n, w);
    Remainder(n * w);
  }

  lemma Remainder(x: nat)
    ensures x <= x % UINT32 <==> x < UINT32
    ensures x < UINT32 ==> x % UINT32 == x
  {
  }

  /** One cell too many, and the size computed is zero: with eight-byte cells at 2^29 of them. */
  lemma SizeWrapsToZero(n: nat, w: nat)
    requires Width(w) && n * w < UINT32 <= (n + 1) * w
    ensures Size(n + 1, w) == 0
    ensures n + 1 == if w == 8 then 0x2000_0000 else if w == 4 then 0x4000_0000 else 0x8000_0000
  {
    if w == 8 {
      assert n + 1 == 0x2000_0000;
    } else if w == 4 {
      assert n + 1 == 0x4000_0000;
    } else {
      assert n + 1 == 0x8000_0000;
    }
  }

  /** Where the size for one more cell has wrapped, the end of the new last cell lies outside, and so does
      the end of the one before it. */
  lemma WrappedIsShort(n: nat, w: nat)
    requires Width(w) && (n + 1) * w >= UINT32
    ensures Size(n + 1, w) < Off(n, w) < Off(n + 1, w)
  {
    OffIs(n, w);
    var x := (n + 1) * w;
    assert x == n * w + w;
    ShortByRange(x, w);
  }

  lemma ShortByRange(x: nat, w: nat)
    requires x >= UINT32 && w <= 8
    ensures x % UINT32 <= x - UINT32 < x - w
  {
  }

  predicate CellIs(b: Bytestring, i: nat, w: nat, v: int)
  {
    Off(i, w) + w <= |b| && b[Off(i, w)..Off(i, w) + w] == Encode(v, w)
  }

  /** The bytes with some of them replaced. */
  function Splice(b: Bytestring, o: nat, s: Bytestring): (r: Bytestring)
    requires o + |s| <= |b|
    ensures |r| == |b|
  {
    b[..o] + s + b[o + |s|..]
  }

  lemma SpliceHere(b: Bytestring, i: nat, w: nat, v: int)
    requires Off(i, w) + w <= |b|
    ensures CellIs(Splice(b, Off(i, w), Encode(v, w)), i, w, v)
  {
    hide Off, Encode;
  }

  /** Cells that lie elsewhere are untouched. */
  lemma SpliceElsewhere(b: Bytestring, o: nat, s: Bytestring, i: nat, w: nat, v: int)
    requires o + |s| <= |b| && CellIs(b, i, w, v) && (Off(i, w) + w <= o || o + |s| <= Off(i, w))
    ensures CellIs(Splice(b, o, s), i, w, v)
  {
    hide Off, Encode;
    var r, c := Splice(b, o, s), Off(i, w);
    assert r[c..c + w] == b[c..c + w];
  }

  /** The bytes hold these values, one after the other and nothing else. */
  ghost predicate Holds(b: Bytestring, vals: seq<int>, w: nat)
  {
    |b| == Off(|vals|, w) && forall i :: 0 <= i < |vals| ==> CellIs(b, i, w, vals[i])
  }

  /** The bytes are determined by the values. */
  lemma {:induction false} HoldsUnique(a: Bytestring, b: Bytestring, vals: seq<int>, w: nat)
    requires Holds(a, vals, w) && Holds(b, vals, w)
    ensures a == b
    decreases |vals|
  {
    if vals == [] {
    } else {
      var n := |vals| - 1;
      HoldsFront(a, vals, w);
      HoldsFront(b, vals, w);
      HoldsUnique(a[..Off(n, w)], b[..Off(n, w)], vals[..n], w);
      hide Off, Encode;
      assert CellIs(a, n, w, vals[n]) && CellIs(b, n, w, vals[n]);
      assert a == a[..Off(n, w)] + a[Off(n, w)..Off(n, w) + w];
      assert b == b[..Off(n, w)] + b[Off(n, w)..Off(n, w) + w];
    }
  }

  lemma HoldsFront(b: Bytestring, vals: seq<int>, w: nat)
    requires Holds(b, vals, w) && vals != []
    ensures var n := |vals| - 1; Off(n, w) <= |b| && Holds(b[..Off(n, w)], vals[..n], w)
  {
    hide Encode;
    var n := |vals| - 1;
    forall i | 0 <= i < n ensures CellIs(b[..Off(n, w)], i, w, vals[i]) {
      OffMono(i, n, w);
      assert CellIs(b, i, w, vals[i]);
      assert b[..Off(n, w)][Off(i, w)..Off(i, w) + w] == b[Off(i, w)..Off(i, w) + w];
    }
  }

  // ----- sorted values -----

  predicate Increasing(vals: seq<int>)
  {
    forall i, j :: 0 <= i < j < |vals| ==> vals[i] < vals[j]
  }

  predicate AllFit(vals: seq<int>, w: nat)
    requires w > 0
  {
    forall i :: 0 <= i < |vals| ==> FitsIn(vals[i], w)
  }

  // ----- the steps of the operations, on bytes -----

  /** The cells from `from` on, moved to `to`; the cells before both stay. */
  predicate Moved(b: Bytestring, vals: seq<int>, w: nat, from: nat, to: nat, r: Bytestring)
    requires from <= |vals| && Off(|vals|, w) <= |b|
  {
    OffMono(from, |vals|, w);
    Off(to, w) + Off(|vals|, w) - Off(from, w) <= |b| && r == Splice(b, Off(to, w), b[Off(from, w)..Off(|vals|, w)])
  }

  lemma {:induction false} OffAdd(i: nat, j: nat, w: nat)
    ensures Off(i + j, w) == Off(i, w) + Off(j, w)
  {
    if j > 0 { OffAdd(i, j - 1, w); }
  }

  lemma SpliceMiddle(b: Bytestring, t: nat, m: Bytestring, d: nat, w: nat)
    requires t + |m| <= |b| && d + w <= |m|
    ensures Splice(b, t, m)[t + d..t + d + w] == m[d..d + w]
  {
  }

  lemma SliceSlice(b: Bytestring, s: nat, e: nat, d: nat, w: nat)
    requires s + d + w <= e <= |b|
    ensures b[s..e][d..d + w] == b[s + d..s + d + w]
  {
    assert b[s..e] == b[s..s + d] + b[s + d..s + d + w] + b[s + d + w..e];
  }

  lemma MovedSlice(b: Bytestring, t: nat, s: nat, e: nat, d: nat, w: nat)
    requires s + d + w <= e <= |b| && t + e - s <= |b|
    ensures Splice(b, t, b[s..e])[t + d..t + d + w] == b[s + d..s + d + w]
  {
    hide Splice;
    SpliceMiddle(b, t, b[s..e], d, w);
    SliceSlice(b, s, e, d, w);
  }

  /** A moved cell. */
  lemma MovedCell(b: Bytestring, vals: seq<int>, w: nat, from: nat, to: nat, r: Bytestring, i: nat)
    requires from <= |vals| && Off(|vals|, w) <= |b| && Moved(b, vals, w, from, to, r)
    requires from <= i < |vals| && CellIs(b, i, w, vals[i])
    ensures CellIs(r, to + i - from, w, vals[i])
  {
    hide Encode, Splice;
    OffMono(i, |vals|, w);
    OffMono(from, i, w);
    OffAdd(from, i - from, w);
    OffAdd(to, i - from, w);
    hide Off;
    MovedSlice(b, Off(to, w), Off(from, w), Off(|vals|, w), Off(i - from, w), w);
  }

  lemma StayedCell(b: Bytestring, vals: seq<int>, w: nat, from: nat, to: nat, r: Bytestring, i: nat)
    requires from <= |vals| && Off(|vals|, w) <= |b| && Moved(b, vals, w, from, to, r)
    requires i < to && i < |vals| && CellIs(b, i, w, vals[i])
    ensures CellIs(r, i, w, vals[i])
  {
    OffMono(i, to, w);
    OffMono(from, |vals|, w);
    SpliceElsewhere(b, Off(to, w), b[Off(from, w)..Off(|vals|, w)], i, w, vals[i]);
  }

  // ----- sets -----

  function SetOf(vals: seq<int>): set<int> { set v | v in vals }

  /** v belongs at this place. */
  predicate Place(vals: seq<int>, v: int, pos: nat)
  {
    pos <= |vals| && (forall i :: 0 <= i < pos ==> vals[i] < v) && (forall i :: pos <= i < |vals| ==> v < vals[i])
  }

  function Inserted(vals: seq<int>, pos: nat, v: int): seq<int>
    requires pos <= |vals|
  {
    vals[..pos] + [v] + vals[pos..]
  }

  function Removed(vals: seq<int>, pos: nat): seq<int>
    requires pos < |vals|
  {
    vals[..pos] + vals[pos + 1..]
  }

  lemma InsertedIs(vals: seq<int>, pos: nat, v: int)
    requires Increasing(vals) && Place(vals, v, pos)
    ensures v !in vals && Increasing(Inserted(vals, pos, v)) && SetOf(Inserted(vals, pos, v)) == SetOf(vals) + {v}
  {
    var r := Inserted(vals, pos, v);
    forall x ensures x in r <==> x in vals || x == v {
      if x in vals {
        var i :| 0 <= i < |vals| && vals[i] == x;
        assert r[if i < pos then i else i + 1] == x;
      }
      if x == v { assert r[pos] == v; }
    }
  }

  lemma RemovedIs(vals: seq<int>, pos: nat)
    requires Increasing(vals) && pos < |vals|
    ensures Increasing(Removed(vals, pos)) && SetOf(Removed(vals, pos)) == SetOf(vals) - {vals[pos]}
  {
    var r, v := Removed(vals, pos), vals[pos];
    forall x ensures x in r <==> x in vals && x != v {
      if x in vals && x != v {
        var i :| 0 <= i < |vals| && vals[i] == x;
        assert r[if i < pos then i else i - 1] == x;
      }
      if x in r {
        var i :| 0 <= i < |r| && r[i] == x;
        assert vals[if i < pos then i else i + 1] == x;
      }
    }
  }
}
