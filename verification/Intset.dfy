/** intset.c: the set in its buffer. */
module Intset {
  import opened Bytes
  import opened IntsetFormat

  /** Bytes the other way round, as memrev16, memrev32 and memrev64 leave them. */
  function Reverse(s: Bytestring): (r: Bytestring)
    ensures |r| == |s|
  {
    if s == [] then [] else Reverse(s[1..]) + [s[0]]
  }

  lemma {:induction false} ReverseSnoc(s: Bytestring, x: Byte)
    ensures Reverse(s + [x]) == [x] + Reverse(s)
  {
    if s == [] {
      assert s + [x] == [x];
      assert |[x][1..]| == 0;
    } else {
      assert (s + [x])[1..] == s[1..] + [x];
      ReverseSnoc(s[1..], x);
    }
  }

  lemma {:induction false} ReverseTwice(s: Bytestring)
    ensures Reverse(Reverse(s)) == s
  {
    if s != [] {
      ReverseSnoc(Reverse(s[1..]), s[0]);
      ReverseTwice(s[1..]);
      assert [s[0]] + s[1..] == s;
    }
  }

  class Intset {
    /** The byte order of the host. */
    const bigEndian: bool
    var encoding: nat
    var length: nat
    var contents: array<Byte>
    ghost var elements: seq<int>

    ghost predicate Valid()
      reads this, contents
    {
      && Width(encoding) && length == |elements| && Holds(contents[..], elements, encoding)
      && Increasing(elements) && AllFit(elements, encoding) && length * encoding < UINT32
    }

    /** intsetNew. */
    constructor (bigEndian: bool)
      ensures Valid() && elements == [] && encoding == 2 && this.bigEndian == bigEndian && fresh(contents)
    {
      this.bigEndian := bigEndian;
      encoding, length, elements := 2, 0, [];
      contents := new Byte[0];
    }

    // ----- memory -----

    /** memcpy into the buffer. */
    static method Store(a: array<Byte>, o: nat, s: Bytestring)
      requires o + |s| <= a.Length
      modifies a
      ensures a[..] == Splice(old(a[..]), o, s)
    {
      forall k | 0 <= k < |s| { a[o + k] := s[k]; }
    }

    /** _intsetGetEncoded: the host reads its own byte order, after memrev on a big endian one. */
    method GetEncoded(pos: nat, enc: nat) returns (v: int)
      requires Width(enc) && Off(pos, enc) + enc <= contents.Length
      ensures v == Decode(contents[Off(pos, enc)..Off(pos, enc) + enc])
    {
      hide Off;
      var bytes := contents[Off(pos, enc)..Off(pos, enc) + enc];
      if bigEndian {
        var swapped := Reverse(bytes);
        ReverseTwice(bytes);
        v := Decode(Reverse(swapped));
      } else {
        v := Decode(bytes);
      }
    }

    /** _intsetSet, with the encoding given: stored in host order, then put in little endian order. */
    method SetEncoded(pos: nat, enc: nat, value: int)
      requires Width(enc) && Off(pos, enc) + enc <= contents.Length
      modifies contents
      ensures contents[..] == Splice(old(contents[..]), Off(pos, enc), Encode(value, enc))
    {
      hide Off;
      ghost var before := contents[..];
      var host := if bigEndian then Reverse(Encode(value, enc)) else Encode(value, enc);
      Store(contents, Off(pos, enc), host);
      if bigEndian {
        ReverseTwice(Encode(value, enc));
        Store(contents, Off(pos, enc), Reverse(host));
        SpliceTwice(before, Off(pos, enc), host, Reverse(host));
      }
    }

    /** intsetResize: what fits of the old contents is kept. The size is computed in 32 bits. */
    method Resize(len: nat)
      modifies this`contents
      ensures fresh(contents) && contents.Length == Size(len, encoding)
      ensures var n := if contents.Length < old(contents).Length then contents.Length else old(contents).Length;
        contents[..n] == old(contents[..])[..n]
    {
      hide Size;
      var size := Size(len, encoding);
      var keep := if size < contents.Length then size else contents.Length;
      var old' := contents;
      contents := new Byte[size](i requires 0 <= i < size reads old' => if i < old'.Length then old'[i] else 0);
      assert contents[..keep] == old'[..keep];
    }

    // ----- searching -----

    /** intsetSearch. */
    method Search(value: int) returns (found: bool, pos: nat)
      requires Valid()
      ensures found <==> value in elements
      ensures if found then pos < length && elements[pos] == value else Place(elements, value, pos)
    {
      hide Holds, AllFit;
      if length == 0 { return false, 0; }
      var cur := Get(length - 1);
      if value > cur { return false, length; }
      cur := Get(0);
      if value < cur { return false, 0; }
      var min, max, mid := 0, length - 1, -1;
      cur := -1;
      while max >= min
        invariant 0 <= min <= length && -1 <= max < length && min <= max + 1
        invariant forall i :: 0 <= i < min ==> elements[i] < value
        invariant forall i :: max < i < length ==> value < elements[i]
        invariant mid == -1 ==> min == 0 && max == length - 1
        invariant mid != -1 ==> cur != value
        decreases max - min
      {
        mid := (min + max) / 2;
        cur := Get(mid);
        if value > cur {
          min := mid + 1;
        } else if value < cur {
          max := mid - 1;
        } else {
          break;
        }
      }
      if value == cur { return true, mid; }
      return false, min;
    }

    /** _intsetGet. */
    method Get(pos: nat) returns (v: int)
      requires Valid() && pos < length
      ensures v == elements[pos]
    {
      CellOf(contents[..], elements, encoding, pos);
      v := GetEncoded(pos, encoding);
      ghost var o := Off(pos, encoding);
      assert contents[o..o + encoding] == contents[..][o..o + encoding];
    }

    /** intsetFind. */
    method Find(value: int) returns (found: bool)
      requires Valid() && FitsIn(value, 8)
      ensures found <==> value in elements
    {
      var valenc := ValueEncoding(value);
      NotTooWide(elements, encoding, value);
      if valenc > encoding { return false; }
      var pos;
      found, pos := Search(value);
    }

    // ----- changing -----

    /** intsetMoveTail. The number of bytes is computed in 32 bits. */
    method MoveTail(from: nat, to: nat)
      requires from <= length == |elements| && Off(length, encoding) <= contents.Length && length * encoding < UINT32
      requires Off(to, encoding) + Off(length, encoding) - Off(from, encoding) <= contents.Length
      modifies contents
      ensures Moved(old(contents[..]), elements, encoding, from, to, contents[..])
    {
      OffMono(from, length, encoding);
      TailSize(from, length, encoding);
      hide Off, Size;
      var src, dst := Off(from, encoding), Off(to, encoding);
      var bytes := Size(length - from, encoding);
      Store(contents, dst, contents[src..src + bytes]);
    }

    /** One step of the widening loop. */
    method Widen(i: nat, prepend: nat, curenc: nat)
      requires Width(curenc) && Width(encoding) && curenc < encoding && i < length == |elements| && prepend <= 1
      requires Off(length + 1, encoding) == contents.Length
      requires forall j :: 0 <= j <= i ==> CellIs(contents[..], j, curenc, elements[j]) && FitsIn(elements[j], curenc)
      requires forall j :: i < j < length ==> CellIs(contents[..], j + prepend, encoding, elements[j])
      modifies contents
      ensures forall j :: 0 <= j < i ==> CellIs(contents[..], j, curenc, elements[j])
      ensures forall j :: i <= j < length ==> CellIs(contents[..], j + prepend, encoding, elements[j])
    {
      hide Off, Encode, Decode, CellIs;
      ghost var b := contents[..];
      OffMono(i + prepend, length + 1, encoding);
      CellBounds(b, i, curenc, elements[i]);
      var v := GetEncoded(i, curenc);
      assert b[Off(i, curenc)..Off(i, curenc) + curenc] == contents[Off(i, curenc)..Off(i, curenc) + curenc];
      SetEncoded(i + prepend, encoding, v);
      WidenCells(b, elements, i, prepend, curenc, encoding);
    }

    /** intsetUpgradeAndAdd: the values are widened from the last to the first, in place. It overruns the
        buffer exactly when the cells would take 4 GB: the size has wrapped, and the first cell to be
        written lies outside. What happens then is not modelled. */
    method UpgradeAndAdd(value: int) returns (overrun: bool)
      requires Valid() && FitsIn(value, 8) && ValueEncoding(value) > encoding
      modifies this, contents
      ensures overrun <==> (old(length) + 1) * ValueEncoding(value) >= UINT32
      ensures !overrun ==> Valid() && encoding == ValueEncoding(value) && (contents == old(contents) || fresh(contents))
      ensures !overrun ==> elements == if value < 0 then [value] + old(elements) else old(elements) + [value]
    {
      hide Off, Encode, Decode, CellIs, ValueEncoding, Size;
      var curenc := encoding;
      var newenc := ValueEncoding(value);
      var prepend := if value < 0 then 1 else 0;
      ghost var n, vals, b := length, elements, contents[..];
      OutsideAll(elements, curenc, value);
      encoding := newenc;
      OffWider(n, curenc, newenc);
      OffMono(n, n + 1, newenc);
      SizeHolds(n + 1, newenc);
      Resize(length + 1);
      if contents.Length < Off(length + 1, newenc) {
        WrappedIsShort(n, newenc);
        OneFits(newenc);
        assert n > 0 && contents.Length < Off(n - 1 + prepend + 1, newenc) by { OffMono(n, n + prepend, newenc); }
        return true;
      }
      ghost var grown := contents[..];
      assert grown[..|b|] == b;
      PrefixCells(b, grown, vals, curenc);
      var i := length;
      while i > 0
        invariant 0 <= i <= length == n == |elements| && elements == vals && encoding == newenc
        invariant fresh(contents) && Off(n + 1, newenc) == contents.Length
        invariant forall j :: 0 <= j < i ==> CellIs(contents[..], j, curenc, vals[j])
        invariant forall j :: i <= j < n ==> CellIs(contents[..], j + prepend, newenc, vals[j])
      {
        i := i - 1;
        Widen(i, prepend, curenc);
      }
      PlaceEnd(value, prepend, newenc);
      return false;
    }

    /** The new value at the free end. */
    method PlaceEnd(value: int, prepend: nat, newenc: nat)
      requires Width(encoding) && encoding == newenc && length == |elements| && prepend == if value < 0 then 1 else 0
      requires Off(length + 1, newenc) == contents.Length && FitsIn(value, newenc)
      requires forall j :: 0 <= j < length ==> CellIs(contents[..], j + prepend, newenc, elements[j])
      requires AllFit(elements, newenc) && Increasing(elements)
      requires if value < 0 then Place(elements, value, 0) else Place(elements, value, length)
      requires (length + 1) * encoding < UINT32
      modifies this`length, this`elements, contents
      ensures Valid() && elements == if value < 0 then [value] + old(elements) else old(elements) + [value]
    {
      hide Off, Encode, CellIs;
      ghost var b, vals := contents[..], elements;
      var at := if prepend == 1 then 0 else length;
      OffMono(at, length + 1, newenc);
      SetEncoded(at, newenc, value);
      length := length + 1;
      elements := if value < 0 then [value] + elements else elements + [value];
      EndPlaced(b, vals, value, prepend, newenc);
      assert elements == Inserted(vals, at, value);
      InsertedIs(vals, at, value);
    }

    /** intsetAdd. It overruns the buffer exactly when the value is new and the cells would take 4 GB. */
    method Add(value: int) returns (success: bool, overrun: bool)
      requires Valid() && FitsIn(value, 8)
      modifies this, contents
      ensures overrun <==> value !in old(elements) && (old(length) + 1) * WidthWith(old(encoding), value) >= UINT32
      ensures !overrun ==> Valid() && success == (value !in old(elements))
      ensures !overrun ==> contents == old(contents) || fresh(contents)
      ensures !overrun ==> SetOf(elements) == SetOf(old(elements)) + {value}
      ensures !overrun && !success ==>
        elements == old(elements) && encoding == old(encoding) && contents[..] == old(contents[..])
      ensures !overrun && success ==> encoding == WidthWith(old(encoding), value)
    {
      hide Holds, Off, ValueEncoding;
      success := true;
      var valenc := ValueEncoding(value);
      if valenc > encoding {
        OutsideAll(elements, encoding, value);
        NotTooWide(elements, encoding, value);
        ghost var vals := elements;
        overrun := UpgradeAndAdd(value);
        if !overrun {
          InsertedIs(vals, if value < 0 then 0 else |vals|, value);
          assert elements == Inserted(vals, if value < 0 then 0 else |vals|, value);
        }
      } else {
        var found, pos := Search(value);
        if found {
          assert SetOf(elements) + {value} == SetOf(elements);
          return false, false;
        }
        InsertedIs(elements, pos, value);
        EncodingFits(value, encoding);
        overrun := Insert(pos, value);
      }
    }

    /** The rest of intsetAdd: the tail moves up, and the value takes its place. */
    method Insert(pos: nat, value: int) returns (overrun: bool)
      requires Valid() && Place(elements, value, pos) && FitsIn(value, encoding)
      requires Increasing(Inserted(elements, pos, value))
      modifies this`length, this`elements, this`contents
      ensures overrun <==> (old(length) + 1) * encoding >= UINT32
      ensures !overrun ==> Valid() && elements == Inserted(old(elements), pos, value) && fresh(contents)
    {
      hide Off, CellIs, Encode, Moved, Size;
      ghost var vals, w := elements, encoding;
      ghost var grown;
      overrun, grown := OpenGap(pos);
      if overrun { return; }
      ghost var moved := contents[..];
      OffMono(pos, length + 1, w);
      OffMono(length, length + 1, w);
      MovedSize(grown, vals, w, pos, pos + 1, moved);
      SetEncoded(pos, encoding, value);
      length := length + 1;
      elements := Inserted(elements, pos, value);
      InsertedHolds(grown, vals, w, pos, value, moved);
    }

    /** Room for one more at the end, and the tail moved into it. Where the size has wrapped it is zero, and
        whatever is moved or written next falls outside. */
    method OpenGap(pos: nat) returns (overrun: bool, ghost grown: Bytestring)
      requires Valid() && pos <= length
      modifies this`contents
      ensures overrun <==> (length + 1) * encoding >= UINT32
      ensures overrun ==> contents.Length == 0
      ensures !overrun ==> fresh(contents) && contents.Length == |grown| == Off(length + 1, encoding)
      ensures !overrun ==> Off(length, encoding) <= |grown|
      ensures !overrun ==> Moved(grown, elements, encoding, pos, pos + 1, contents[..])
      ensures !overrun ==> forall i :: 0 <= i < length ==> CellIs(grown, i, encoding, elements[i])
    {
      hide Off, CellIs, Encode, Moved, Size;
      ghost var b, w := contents[..], encoding;
      OffMono(length, length + 1, w);
      OffMono(pos, pos + 1, w);
      OffMono(pos, length, w);
      SizeHolds(length + 1, w);
      Resize(length + 1);
      grown := contents[..];
      if contents.Length < Off(length + 1, encoding) {
        SizeWrapsToZero(length, w);
        return true, grown;
      }
      assert grown[..|b|] == b;
      PrefixCells(b, grown, elements, w);
      OffAdd(pos, 1, w);
      OffAdd(length, 1, w);
      if pos < length { MoveTail(pos, pos + 1); } else { MovedNothing(grown, elements, w, pos); }
      return false, grown;
    }

    /** intsetRemove. */
    method Remove(value: int) returns (success: bool)
      requires Valid() && FitsIn(value, 8)
      modifies this`length, this`elements, this`contents, contents
      ensures Valid() && success == (value in old(elements)) && (contents == old(contents) || fresh(contents))
      ensures SetOf(elements) == SetOf(old(elements)) - {value} && encoding == old(encoding)
      ensures !success ==> elements == old(elements)
    {
      hide Holds, Off, ValueEncoding;
      var valenc := ValueEncoding(value);
      NotTooWide(elements, encoding, value);
      if valenc > encoding {
        assert SetOf(elements) - {value} == SetOf(elements);
        return false;
      }
      var found, pos := Search(value);
      if !found {
        assert SetOf(elements) - {value} == SetOf(elements);
        return false;
      }
      RemovedIs(elements, pos);
      Delete(pos);
      return true;
    }

    /** The rest of intsetRemove: the tail moves down over the value. */
    method Delete(pos: nat)
      requires Valid() && pos < length && Increasing(Removed(elements, pos))
      modifies this`length, this`elements, this`contents, contents
      ensures Valid() && elements == Removed(old(elements), pos) && fresh(contents)
    {
      hide Off, CellIs, Encode, Moved, Size;
      ghost var b, vals, w := contents[..], elements, encoding;
      CloseGap(pos);
      ghost var moved := contents[..];
      OffMono(length - 1, length, w);
      OneLess(length, w);
      SizeHolds(length - 1, w);
      Resize(length - 1);
      length := length - 1;
      elements := Removed(elements, pos);
      RemovedHolds(b, vals, w, pos, moved);
      assert contents[..] == moved[..Off(|vals| - 1, w)];
    }

    method CloseGap(pos: nat)
      requires Valid() && pos < length
      modifies contents
      ensures Moved(old(contents[..]), elements, encoding, pos + 1, pos, contents[..])
    {
      hide Off, CellIs, Encode, Moved;
      OffMono(pos, pos + 1, encoding);
      OffMono(pos + 1, length, encoding);
      if pos < length - 1 { MoveTail(pos + 1, pos); } else { MovedDown(contents[..], elements, encoding, pos); }
    }
  }

  /** The width a set has once a value is in it. */
  function WidthWith(w: nat, value: int): nat { if ValueEncoding(value) > w then ValueEncoding(value) else w }

  lemma OneFits(w: nat)
    requires Width(w)
    ensures (0 + 1) * w < UINT32
  {
  }

  lemma OneLess(n: nat, w: nat)
    requires n > 0 && Width(w) && n * w < UINT32
    ensures (n - 1) * w < UINT32
  {
  }

  /** The bytes of a tail of a set that is in memory do not wrap. */
  lemma TailSize(from: nat, n: nat, w: nat)
    requires from <= n && n * w < UINT32
    ensures Off(from, w) + Size(n - from, w) == Off(n, w)
  {
    OffAdd(from, n - from, w);
    OffIs(n, w);
    OffIs(n - from, w);
    hide Off, Size;
    SizeHolds(n - from, w);
  }

  /** The contents do not depend on the byte order of the host: two sets of the same members, in the
      same encoding, are the same bytes. */
  lemma SameImage(a: Intset, b: Intset)
    requires a.Valid() && b.Valid() && a.encoding == b.encoding && SetOf(a.elements) == SetOf(b.elements)
    ensures a.elements == b.elements && a.contents[..] == b.contents[..]
  {
    hide Holds;
    IncreasingUnique(a.elements, b.elements);
    HoldsUnique(a.contents[..], b.contents[..], a.elements, a.encoding);
  }

  lemma {:induction false} IncreasingUnique(a: seq<int>, b: seq<int>)
    requires Increasing(a) && Increasing(b) && SetOf(a) == SetOf(b)
    ensures a == b
    decreases |a|
  {
    EmptySet(a);
    EmptySet(b);
    if a != [] {
      assert a[0] in SetOf(a) && b[0] in SetOf(b);
      FirstIsLeast(a, b[0]);
      FirstIsLeast(b, a[0]);
      TailSet(a);
      TailSet(b);
      IncreasingUnique(a[1..], b[1..]);
      assert a == [a[0]] + a[1..] && b == [b[0]] + b[1..];
    }
  }

  lemma EmptySet(a: seq<int>)
    ensures SetOf(a) == {} <==> a == []
  {
    if a != [] { assert a[0] in SetOf(a); }
  }

  lemma FirstIsLeast(a: seq<int>, v: int)
    requires Increasing(a) && v in a
    ensures a[0] <= v
  {
  }

  lemma TailSet(a: seq<int>)
    requires Increasing(a) && a != []
    ensures Increasing(a[1..]) && SetOf(a[1..]) == SetOf(a) - {a[0]}
  {
    assert a == [a[0]] + a[1..];
  }

  lemma MovedNothing(b: Bytestring, vals: seq<int>, w: nat, pos: nat)
    requires pos == |vals| && |b| == Off(|vals| + 1, w)
    ensures Off(|vals|, w) <= |b| && Moved(b, vals, w, pos, pos + 1, b)
  {
    OffMono(pos, pos + 1, w);
    assert Splice(b, Off(pos + 1, w), []) == b;
  }

  lemma MovedDown(b: Bytestring, vals: seq<int>, w: nat, pos: nat)
    requires pos + 1 == |vals| && |b| == Off(|vals|, w)
    ensures Moved(b, vals, w, pos + 1, pos, b)
  {
    OffMono(pos, pos + 1, w);
    assert Splice(b, Off(pos, w), []) == b;
  }

  lemma InsertedHolds(b: Bytestring, vals: seq<int>, w: nat, pos: nat, v: int, moved: Bytestring)
    requires Width(w) && pos <= |vals| && |b| == Off(|vals| + 1, w) && Off(|vals|, w) <= |b|
    requires forall i :: 0 <= i < |vals| ==> CellIs(b, i, w, vals[i])
    requires Moved(b, vals, w, pos, pos + 1, moved)
    ensures Off(pos, w) + w <= |moved| && Holds(Splice(moved, Off(pos, w), Encode(v, w)), Inserted(vals, pos, v), w)
  {
    hide Off, Encode, CellIs, Moved;
    MovedSize(b, vals, w, pos, pos + 1, moved);
    OffMono(pos, |vals| + 1, w);
    var o, s, all := Off(pos, w), Encode(v, w), Inserted(vals, pos, v);
    var r := Splice(moved, o, s);
    SpliceHere(moved, pos, w, v);
    forall i | 0 <= i < |all| ensures CellIs(r, i, w, all[i]) {
      if i < pos {
        StayedCell(b, vals, w, pos, pos + 1, moved, i);
        OffMono(i, pos, w);
        SpliceElsewhere(moved, o, s, i, w, all[i]);
      } else if i > pos {
        MovedCell(b, vals, w, pos, pos + 1, moved, i - 1);
        OffMono(pos, i, w);
        SpliceElsewhere(moved, o, s, i, w, all[i]);
      }
    }
  }

  lemma MovedSize(b: Bytestring, vals: seq<int>, w: nat, from: nat, to: nat, r: Bytestring)
    requires from <= |vals| && Off(|vals|, w) <= |b| && Moved(b, vals, w, from, to, r)
    ensures |r| == |b|
  {
    OffMono(from, |vals|, w);
  }

  lemma RemovedHolds(b: Bytestring, vals: seq<int>, w: nat, pos: nat, moved: Bytestring)
    requires Width(w) && pos < |vals| && Holds(b, vals, w) && Moved(b, vals, w, pos + 1, pos, moved)
    ensures Off(|vals| - 1, w) <= |moved| && Holds(moved[..Off(|vals| - 1, w)], Removed(vals, pos), w)
  {
    hide Off, Encode, CellIs, Moved;
    MovedSize(b, vals, w, pos + 1, pos, moved);
    OffMono(|vals| - 1, |vals|, w);
    var all := Removed(vals, pos);
    var r := moved[..Off(|vals| - 1, w)];
    forall i | 0 <= i < |all| ensures CellIs(r, i, w, all[i]) {
      if i < pos {
        StayedCell(b, vals, w, pos + 1, pos, moved, i);
      } else {
        MovedCell(b, vals, w, pos + 1, pos, moved, i + 1);
      }
      OffMono(i, |all|, w);
      CutCell(moved, |all|, w, i, all[i]);
    }
  }

  lemma CutCell(b: Bytestring, n: nat, w: nat, i: nat, v: int)
    requires CellIs(b, i, w, v) && Off(n, w) <= |b| && i < n && Off(i, w) + w <= Off(n, w)
    ensures CellIs(b[..Off(n, w)], i, w, v)
  {
    hide Off, Encode;
    assert b[..Off(n, w)][Off(i, w)..Off(i, w) + w] == b[Off(i, w)..Off(i, w) + w];
  }

  lemma CellBounds(b: Bytestring, i: nat, w: nat, v: int)
    requires CellIs(b, i, w, v) && Width(w) && FitsIn(v, w)
    ensures Off(i, w) + w <= |b| && Decode(b[Off(i, w)..Off(i, w) + w]) == v
  {
    hide Encode, Decode, Off;
    DecodeEncode(v, w);
  }

  /** Writing the wide cell i spares the narrow cells before it and the wide cells after it. */
  lemma WidenCells(b: Bytestring, vals: seq<int>, i: nat, prepend: nat, cur: nat, wide: nat)
    requires Width(cur) && Width(wide) && cur < wide && i < |vals| && Off(i + prepend, wide) + wide <= |b|
    requires forall j :: 0 <= j < i ==> CellIs(b, j, cur, vals[j])
    requires forall j :: i < j < |vals| ==> CellIs(b, j + prepend, wide, vals[j])
    ensures var r := Splice(b, Off(i + prepend, wide), Encode(vals[i], wide));
      && (forall j :: 0 <= j < i ==> CellIs(r, j, cur, vals[j]))
      && (forall j :: i <= j < |vals| ==> CellIs(r, j + prepend, wide, vals[j]))
  {
    hide Off, Encode, CellIs;
    var o, s := Off(i + prepend, wide), Encode(vals[i], wide);
    var r := Splice(b, o, s);
    SpliceHere(b, i + prepend, wide, vals[i]);
    forall j | 0 <= j < i ensures CellIs(r, j, cur, vals[j]) {
      OffMono(j, i, cur);
      OffWider(i, cur, wide);
      OffMono(i, i + prepend, wide);
      SpliceElsewhere(b, o, s, j, cur, vals[j]);
    }
    forall j | i < j < |vals| ensures CellIs(r, j + prepend, wide, vals[j]) {
      OffMono(i + prepend, j + prepend, wide);
      SpliceElsewhere(b, o, s, j + prepend, wide, vals[j]);
    }
  }

  lemma PrefixCells(b: Bytestring, grown: Bytestring, vals: seq<int>, w: nat)
    requires Holds(b, vals, w) && |b| <= |grown| && grown[..|b|] == b
    ensures forall i :: 0 <= i < |vals| ==> CellIs(grown, i, w, vals[i])
  {
    hide Encode, Off;
    forall i | 0 <= i < |vals| ensures CellIs(grown, i, w, vals[i]) {
      assert CellIs(b, i, w, vals[i]);
      assert grown[..|b|][Off(i, w)..Off(i, w) + w] == grown[Off(i, w)..Off(i, w) + w];
    }
  }

  /** A value that needs a wider encoding lies beyond all that are there, on the side of its sign. */
  lemma OutsideAll(vals: seq<int>, w: nat, v: int)
    requires Width(w) && AllFit(vals, w) && FitsIn(v, 8) && ValueEncoding(v) > w
    ensures if v < 0 then Place(vals, v, 0) else Place(vals, v, |vals|)
    ensures AllFit(vals, ValueEncoding(v)) && FitsIn(v, ValueEncoding(v))
  {
    Halves();
    EncodingFits(v, ValueEncoding(v));
  }

  lemma EndPlaced(b: Bytestring, vals: seq<int>, v: int, prepend: nat, w: nat)
    requires Width(w) && |b| == Off(|vals| + 1, w) && prepend == if v < 0 then 1 else 0
    requires forall j :: 0 <= j < |vals| ==> CellIs(b, j + prepend, w, vals[j])
    ensures var at := if prepend == 1 then 0 else |vals|;
      Off(at, w) + w <= |b| && Holds(Splice(b, Off(at, w), Encode(v, w)), if v < 0 then [v] + vals else vals + [v], w)
  {
    hide Off, Encode, CellIs;
    var at := if prepend == 1 then 0 else |vals|;
    OffMono(at, |vals| + 1, w);
    SpliceHere(b, at, w, v);
    var all := if v < 0 then [v] + vals else vals + [v];
    var r := Splice(b, Off(at, w), Encode(v, w));
    forall i | 0 <= i < |all| ensures CellIs(r, i, w, all[i]) {
      if i != at {
        if i < at { OffMono(i, at, w); } else { OffMono(at, i, w); }
        assert all[i] == vals[i - prepend] && CellIs(b, i - prepend + prepend, w, vals[i - prepend]);
        SpliceElsewhere(b, Off(at, w), Encode(v, w), i, w, all[i]);
      }
    }
  }

  lemma SpliceTwice(b: Bytestring, o: nat, s: Bytestring, t: Bytestring)
    requires |s| == |t| && o + |s| <= |b|
    ensures Splice(Splice(b, o, s), o, t) == Splice(b, o, t)
  {
  }

  lemma CellOf(b: Bytestring, vals: seq<int>, w: nat, i: nat)
    requires Width(w) && Holds(b, vals, w) && AllFit(vals, w) && i < |vals|
    ensures Off(i, w) + w <= |b| && Decode(b[Off(i, w)..Off(i, w) + w]) == vals[i]
  {
    hide Encode, Decode, Off;
    assert CellIs(b, i, w, vals[i]);
    DecodeEncode(vals[i], w);
  }

  /** A value too wide for the encoding is not there. */
  lemma NotTooWide(vals: seq<int>, w: nat, v: int)
    requires Width(w) && AllFit(vals, w) && FitsIn(v, 8)
    ensures ValueEncoding(v) > w ==> v !in vals
  {
    EncodingFits(v, w);
  }
}
