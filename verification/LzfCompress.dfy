/** lzf_c.c: the compressor. Its hash table starts with arbitrary contents, so nothing below may
    rest on what a slot holds: every candidate is checked before it is used. */
module LzfCompress {
  import opened Bytes
  import opened LzfFormat

  const MAX_LIT := 32
  const MAX_OFF := 8192
  const MAX_REF := 264
  const HSIZE := 65536

  /** A machine address; the table holds addresses, most of them meaningless at the start. */
  type Address = a: int | 0 <= a < 0x1_0000_0000_0000_0000

  type Hash = h: int | 0 <= h < 0x1_0000_0000

  function First(a: Byte, b: Byte): Hash { var high: int := a; high * 256 + b }

  function Next(h: Hash, b: Byte): Hash { var v: int := h; (v * 256 + b) % 0x1_0000_0000 }

  function Idx(h: Hash): (i: nat)
    ensures i < HSIZE
  {
    var v: int := h;
    (v / 256 - v * 5) % HSIZE
  }

  /** The slot of the three bytes `a`, `b`, `c`. */
  function Slot(a: Byte, b: Byte, c: Byte): (i: nat)
    ensures i < HSIZE
  {
    var x: int, y: int, z: int := a, b, c;
    (x * 256 + y - (x * 65536 + y * 256 + z) * 5) % HSIZE
  }

  /** What the running hash is about before its next byte: `a`, then `b`. */
  ghost predicate Rolled(h: Hash, a: Byte, b: Byte) { var v: int := h; v % 65536 == a as int * 256 + b }

  /** Shifting in `z` pushes out the oldest byte and leaves some `e` above the last three. */
  lemma ShiftIn(v: nat, low: nat, z: nat) returns (e: nat)
    requires v % 65536 == low && z < 256
    ensures (v * 256 + z) % 0x1_0000_0000 == e * 16777216 + low * 256 + z
  {
    var q := v / 65536;
    e := q % 256;
    assert q == q / 256 * 256 + e;
    OneRest(v * 256 + z, q / 256, e * 16777216 + low * 256 + z);
  }

  lemma OneRest(v: int, q: int, r: int)
    requires v == 0x1_0000_0000 * q + r && 0 <= r < 0x1_0000_0000
    ensures v % 0x1_0000_0000 == r
  {
  }

  lemma SlotOfRest(u: nat, e: nat, top: nat, z: nat)
    requires u == e * 16777216 + top * 256 + z && z < 256
    ensures (u / 256 - u * 5) % HSIZE == (top - (top * 256 + z) * 5) % HSIZE
  {
    assert u / 256 == e * 65536 + top;
    SameRest(top - (top * 256 + z) * 5, e - e * 1280);
  }

  /** The running hash keeps older bytes as well, but the slot does not depend on them. */
  lemma NextRolls(h: Hash, a: Byte, b: Byte, c: Byte)
    requires Rolled(h, a, b)
    ensures Rolled(Next(h, c), b, c) && Idx(Next(h, c)) == Slot(a, b, c)
  {
    var x: int, y: int, z: int := a, b, c;
    var e := ShiftIn(h, x * 256 + y, z);
    SlotOfRest(Next(h, c), e, x * 256 + y, z);
    assert Next(h, c) == (e * 256 + x) * 65536 + (y * 256 + z);
    SameRest(y * 256 + z, e * 256 + x);
  }

  lemma SameRest(v: int, k: int)
    ensures (v + HSIZE * k) % HSIZE == v % HSIZE
  {
  }

  // ----- what the bytes written so far mean -----

  ghost predicate Decodes(c: Bytestring, s: Bytestring) { Decode(c, [], |s|) == Done(s) }

  /** `o` is the output up to the cursor: finished blocks, then the control byte still to be
      filled in at `Header`, then the `lit` literals of the open run. */
  ghost predicate OpenRun(input: Bytestring, o: Bytestring, ip: nat, lit: nat)
  {
    && lit <= MAX_LIT && lit <= ip <= |input| && lit < |o|
    && o[|o| - lit..] == input[ip - lit..ip]
    && Decodes(o[..|o| - lit - 1], input[..ip - lit])
    && 32 * (|o| - lit - 1) <= 33 * (ip - lit)
  }

  /** Finished output: it decodes to the input consumed, and has not outgrown it. */
  ghost predicate Finished(input: Bytestring, o: Bytestring, ip: nat)
  {
    ip <= |input| && Decodes(o, input[..ip])
  }

  /** The output once the open run's length has been filled in. */
  function CloseRun(o: Bytestring, lit: nat): Bytestring
    requires lit < |o| && lit <= MAX_LIT
  {
    if lit == 0 then o[..|o| - 1] else o[|o| - lit - 1 := lit - 1]
  }

  lemma LiteralsDecode(data: Bytestring, out: Bytestring, limit: nat)
    requires 0 < |data| <= MAX_LIT && |out| + |data| <= limit
    ensures Decode([|data| - 1] + data, out, limit) == Done(out + data)
  {
    hide CopyBack;
    var c := [|data| - 1] + data;
    assert c[1..1 + |data|] == data;
    assert c[1 + |data|..] == [];
  }

  lemma CloseRunFinishes(input: Bytestring, o: Bytestring, ip: nat, lit: nat)
    requires OpenRun(input, o, ip, lit)
    ensures Finished(input, CloseRun(o, lit), ip)
  {
    hide Decode;
    if lit > 0 {
      var done, data := o[..|o| - lit - 1], input[ip - lit..ip];
      assert CloseRun(o, lit) == done + ([lit - 1] + data);
      assert input[..ip - lit] + data == input[..ip];
      DecodeFits(done, [], ip - lit, ip);
      DecodeAppend(done, [lit - 1] + data, [], ip);
      LiteralsDecode(data, input[..ip - lit], ip);
    }
  }

  lemma ExtendRun(input: Bytestring, o: Bytestring, ip: nat, lit: nat)
    requires OpenRun(input, o, ip, lit) && lit < MAX_LIT && ip < |input|
    ensures OpenRun(input, o + [input[ip]], ip + 1, lit + 1)
  {
    var o' := o + [input[ip]];
    assert o'[..|o'| - lit - 2] == o[..|o| - lit - 1];
    assert o'[|o'| - lit - 1..] == o[|o| - lit..] + [input[ip]];
  }

  /** Finished output that has not outgrown its input may be followed by a fresh control byte. */
  lemma ReopenRun(input: Bytestring, o: Bytestring, ip: nat, control: Byte)
    requires Finished(input, o, ip) && 32 * |o| <= 33 * ip
    ensures OpenRun(input, o + [control], ip, 0)
  {
    assert (o + [control])[..|o|] == o;
  }

  /** The two- or three-byte form of a back reference: `off` + 1 back, `n` + 2 long. */
  function EncodeRef(off: nat, n: nat): Bytestring
    requires off < MAX_OFF && 1 <= n <= MAX_REF - 2
  {
    if n < 7 then [off / 256 + n * 32, off % 256] else [off / 256 + 7 * 32, n - 7, off % 256]
  }

  lemma EncodeRefDecodes(off: nat, n: nat, out: Bytestring, limit: nat)
    requires off < MAX_OFF && 1 <= n <= MAX_REF - 2
    requires off < |out| && |out| + n + 2 <= limit
    ensures Decode(EncodeRef(off, n), out, limit) == Done(CopyBack(out, off + 1, n + 2))
  {
    hide CopyBack;
    var e := EncodeRef(off, n);
    assert RefSize(e[0]) == |e| && RefLen(e) == n + 2 && RefDist(e) == off + 1;
    assert e[|e|..] == [];
  }

  ghost predicate Matches(input: Bytestring, ref: nat, ip: nat, len: nat)
  {
    ref < ip && ip + len <= |input| && forall k :: ip <= k < ip + len ==> input[k] == input[k - ip + ref]
  }

  /** A match, overlapping or not, is what the copying loop of the decoder reproduces. */
  lemma MatchIsCopy(input: Bytestring, ref: nat, ip: nat, len: nat)
    requires Matches(input, ref, ip, len)
    ensures CopyBack(input[..ip], ip - ref, len) == input[..ip + len]
  {
    var s, t := input[..ip], input[..ip + len];
    assert t[..ip] == s;
    assert forall k :: ip <= k < ip + len ==> t[k] == input[k] == input[k - (ip - ref)];
    CopyBackUnique(s, ip - ref, t);
  }

  /** Appending the reference to an earlier copy extends what has been encoded by the match. */
  lemma ReferenceExtends(input: Bytestring, o: Bytestring, ref: nat, ip: nat, len: nat)
    requires Finished(input, o, ip) && Matches(input, ref, ip, len)
    requires ip - ref - 1 < MAX_OFF && 3 <= len <= MAX_REF
    ensures Finished(input, o + EncodeRef(ip - ref - 1, len - 2), ip + len)
  {
    hide Decode, CopyBack, EncodeRef;
    DecodeFits(o, [], ip, ip + len);
    DecodeAppend(o, EncodeRef(ip - ref - 1, len - 2), [], ip + len);
    EncodeRefDecodes(ip - ref - 1, len - 2, input[..ip], ip + len);
    MatchIsCopy(input, ref, ip, len);
  }

  // ----- the steps of the loop -----

  /** Copies one literal, and closes the run when it is full. */
  method CopyLiteral(input: array<Byte>, out: array<Byte>, ip: nat, op: nat, lit: nat)
    returns (ip': nat, op': nat, lit': nat)
    requires input != out && ip < input.Length && op + 1 < out.Length && lit < MAX_LIT
    requires OpenRun(input[..], out[..op], ip, lit)
    modifies out
    ensures ip' == ip + 1 && op' <= out.Length && lit' < MAX_LIT
    ensures if lit + 1 < MAX_LIT then op' == op + 1 && lit' == lit + 1 else op' == op + 2 && lit' == 0
    ensures OpenRun(input[..], out[..op'], ip', lit')
  {
    hide Decodes, OpenRun, Finished;
    ghost var o := out[..op];
    lit' := lit + 1;
    out[op] := input[ip];
    op', ip' := op + 1, ip + 1;
    ghost var longer := o + [input[ip]];
    assert out[..op'] == longer;
    ExtendRun(input[..], o, ip, lit);
    if lit' == MAX_LIT {
      out[op' - lit' - 1] := lit' - 1;
      ghost var closed := out[..op'];
      assert closed == CloseRun(longer, lit');
      CloseRunFinishes(input[..], longer, ip', lit');
      lit' := 0;
      op' := op' + 1;
      ReopenRun(input[..], closed, ip', out[op' - 1]);
      assert out[..op'] == closed + [out[op' - 1]];
    }
  }

  /** Fills in the length of the open run, or takes its control byte back when it is empty. The
      byte is written before that is decided, so an empty run may write one past `op` - 1. */
  method StopRun(input: array<Byte>, out: array<Byte>, ip: nat, op: nat, lit: nat) returns (op': nat)
    requires input != out && op <= out.Length && lit < MAX_LIT
    requires OpenRun(input[..], out[..op], ip, lit)
    modifies out
    ensures op' == (if lit == 0 then op - 1 else op)
    ensures Finished(input[..], out[..op'], ip) && 32 * op' <= 33 * ip + 31
  {
    ghost var o := out[..op];
    out[op - lit - 1] := (lit - 1) % 256;
    op' := if lit == 0 then op - 1 else op;
    CloseRunFinishes(input[..], o, ip, lit);
    assert out[..op'] == CloseRun(o, lit);
  }

  /** Extends a three-byte match: sixteen comparisons unrolled when there is room, then a loop. */
  method MatchLength(input: array<Byte>, ref: nat, ip: nat) returns (len: nat)
    requires ip + 4 < input.Length && Matches(input[..], ref, ip, 3)
    ensures 3 <= len <= MAX_REF && Matches(input[..], ref, ip, len)
    ensures len < MAX_REF && ip + len + 2 < input.Length ==> input[ref + len] != input[ip + len]
  {
    len := 2;
    var maxlen := input.Length - ip - len;
    maxlen := if maxlen > MAX_REF then MAX_REF else maxlen;
    if maxlen > 16 {
      var k := 0;
      while k < 16
        invariant 0 <= k <= 16 && len == 2 + k
        invariant Matches(input[..], ref, ip, if len == 2 then 3 else len + 1)
      {
        len := len + 1;
        if input[ref + len] != input[ip + len] { return; }
        k := k + 1;
      }
    }
    len := len + 1;
    while len < maxlen && input[ref + len] == input[ip + len]
      invariant 3 <= len <= MAX_REF && (len <= maxlen || len == 19)
      invariant Matches(input[..], ref, ip, len)
    {
      len := len + 1;
    }
  }

  /** Writes the bytes of a back reference. */
  method WriteReference(out: array<Byte>, op: nat, off: nat, n: nat) returns (op': nat)
    requires op + 3 <= out.Length && off < MAX_OFF && 1 <= n <= MAX_REF - 2
    modifies out
    ensures op' == op + |EncodeRef(off, n)|
    ensures out[..op'] == old(out[..op]) + EncodeRef(off, n)
  {
    op' := op;
    if n < 7 {
      out[op'] := off / 256 + n * 32;
      op' := op' + 1;
    } else {
      out[op'] := off / 256 + 7 * 32;
      op' := op' + 1;
      out[op'] := n - 7;
      op' := op' + 1;
    }
    out[op'] := off % 256;
    op' := op' + 1;
  }

  /** Writes the back reference and opens the next run. */
  method EmitReference(input: array<Byte>, out: array<Byte>, ref: nat, ip: nat, op: nat, len: nat)
    returns (ip': nat, op': nat)
    requires input != out && op + 4 < out.Length && 3 <= len <= MAX_REF
    requires Finished(input[..], out[..op], ip) && Matches(input[..], ref, ip, len)
    requires ip - ref - 1 < MAX_OFF && 32 * op <= 33 * ip + 31
    modifies out
    ensures ip' == ip + len && op < op' <= op + 4
    ensures OpenRun(input[..], out[..op'], ip', 0)
  {
    ghost var o := out[..op];
    ReferenceExtends(input[..], o, ref, ip, len);
    op' := WriteReference(out, op, ip - ref - 1, len - 2);
    ghost var closed := out[..op'];
    op' := op' + 1;
    ip' := ip + len;
    ReopenRun(input[..], closed, ip', out[op' - 1]);
    assert out[..op'] == closed + [out[op' - 1]];
  }

  /** The candidate test: the distance is taken modulo 2^64, and no byte is read before the
      address is known to lie inside the input. No object lives in the first two pages. */
  method IsMatch(input: array<Byte>, base: nat, ref: Address, ip: nat) returns (found: bool)
    requires MAX_OFF <= base && base + input.Length <= 0x1_0000_0000_0000_0000
    requires ip + 2 < input.Length
    ensures found <==>
      && ip + 4 < input.Length && 0 < ref - base < ip && ip - (ref - base) - 1 < MAX_OFF
      && Matches(input[..], ref - base, ip, 3)
  {
    var addr: int := ref;
    var off := (base + ip - addr - 1) % 0x1_0000_0000_0000_0000;
    if off < MAX_OFF && ip + 4 < input.Length && addr > base {
      WrappedDistance(base, ip, addr);
      var r := addr - base;
      found := input[r] == input[ip] && input[r + 1] == input[ip + 1] && input[r + 2] == input[ip + 2];
    } else {
      found := false;
    }
  }

  /** A distance that wrapped around cannot be small. */
  lemma WrappedDistance(base: nat, ip: nat, ref: Address)
    requires MAX_OFF <= base <= ref
    requires (base + ip - ref - 1) % 0x1_0000_0000_0000_0000 < MAX_OFF
    requires base + ip < 0x1_0000_0000_0000_0000
    ensures base + ip - ref - 1 == (base + ip - ref - 1) % 0x1_0000_0000_0000_0000
  {
  }

  /** Enters the last two positions of a match in the table, and returns the running hash. */
  method RehashTail(input: array<Byte>, htab: array<Address>, base: nat, ip: nat) returns (hval: Hash)
    requires 2 <= ip && ip + 2 < input.Length && htab.Length == HSIZE
    requires base + input.Length <= 0x1_0000_0000_0000_0000
    modifies htab
    ensures Rolled(hval, input[ip], input[ip + 1])
    ensures htab[..] == old(htab[..])[Slot(input[ip - 2], input[ip - 1], input[ip]) := base + (ip - 2)]
      [Slot(input[ip - 1], input[ip], input[ip + 1]) := base + (ip - 1)]
  {
    hval := First(input[ip - 2], input[ip - 1]);
    NextRolls(hval, input[ip - 2], input[ip - 1], input[ip]);
    hval := Next(hval, input[ip]);
    htab[Idx(hval)] := base + (ip - 2);
    NextRolls(hval, input[ip - 1], input[ip], input[ip + 1]);
    hval := Next(hval, input[ip + 1]);
    htab[Idx(hval)] := base + (ip - 1);
  }

  /** The longest output the compressor can need before it gives up on `outLen` bytes. */
  function Roomy(n: nat): nat { n + n / 32 + 4 }

  // ----- what becomes of equal bytes -----

  /** All bytes are equal, and there is the room that the server gives them. */
  ghost predicate Even(input: Bytestring, outLen: nat)
  {
    |input| >= 32 && outLen + 4 >= |input| && forall k :: 0 <= k < |input| ==> input[k] == input[0]
  }

  /** At the head of the loop over `n` equal bytes, whose slot holds `entry`: two literals, then
      back references of full length while a match may start. */
  ghost predicate Steady(n: nat, entry: Address, base: nat, ip: nat, op: nat, lit: nat)
  {
    && (ip > 0 ==> entry == base + ip - 1)
    && (if ip <= 2 then lit == ip && op == ip + 1
        else (lit == 0 || lit + n <= ip + 4) && op <= lit + 4 + 3 * (ip / MAX_REF))
  }

  /** When no match can start any more. */
  ghost predicate Packed(n: nat, op: nat, lit: nat) { lit <= 2 && op <= lit + 7 + 3 * (n / MAX_REF) }

  ghost predicate Going(n: nat, entry: Address, base: nat, ip: nat, op: nat, lit: nat)
  {
    if ip + 2 < n then Steady(n, entry, base, ip, op, lit) else Packed(n, op, lit)
  }

  /** A position is a match exactly if it is not one of the first two and has four more behind it. */
  lemma EvenMatches(input: Bytestring, outLen: nat, entry: Address, base: nat, ip: nat, op: nat, lit: nat)
    requires Even(input, outLen) && Steady(|input|, entry, base, ip, op, lit) && ip + 2 < |input|
    ensures ip >= 2 && ip + 4 < |input|
      ==> 0 < entry - base < ip && ip - (entry - base) - 1 < MAX_OFF && Matches(input, entry - base, ip, 3)
  {
  }

  /** A literal is copied only where no match can start, and there is room for it. */
  lemma EvenLiteral(input: Bytestring, outLen: nat, entry: Address, base: nat, ip: nat, op: nat, lit: nat)
    requires Even(input, outLen) && ip + 2 < |input| && base + |input| <= 0x1_0000_0000_0000_0000
    requires Steady(|input|, entry, base, ip, op, lit) && (ip < 2 || ip + 4 >= |input|)
    ensures op < outLen && lit + 1 < MAX_LIT && Steady(|input|, base + ip, base, ip + 1, op + 1, lit + 1)
    ensures ip + 3 >= |input| ==> Packed(|input|, op + 1, lit + 1)
  {
  }

  lemma EvenRoom(input: Bytestring, outLen: nat, entry: Address, base: nat, ip: nat, op: nat, lit: nat)
    requires Even(input, outLen) && 2 <= ip && ip + 4 < |input|
    requires Steady(|input|, entry, base, ip, op, lit)
    ensures (if lit == 0 then op - 1 else op) + 4 < outLen
  {
  }

  /** A match takes three bytes for 264, or reaches the end. */
  lemma EvenReference(n: nat, entry: Address, base: nat, ip: nat, op: nat, lit: nat, len: nat,
      op': nat)
    requires 2 <= ip && ip + 4 < n && ip + len <= n
    requires base + n <= 0x1_0000_0000_0000_0000
    requires Steady(n, entry, base, ip, op, lit) && (len == MAX_REF || (len < MAX_REF && ip + len + 2 >= n))
    requires op' <= (if lit == 0 then op - 1 else op) + 4
    ensures Packed(n, op', 0)
    ensures ip + len + 2 < n ==> Steady(n, base + ip + len - 1, base, ip + len, op', 0)
  {
  }

  /** The three bytes at `ip` have the slot of the first three. */
  lemma EvenSlot(input: Bytestring, outLen: nat, ip: nat)
    requires Even(input, outLen) && ip + 2 < |input|
    ensures Slot(input[ip], input[ip + 1], input[ip + 2]) == Slot(input[0], input[1], input[2])
  {
  }

  lemma EvenRuns(input: Bytestring, outLen: nat, ref: nat, ip: nat, len: nat)
    requires Even(input, outLen) && ref < ip && ip + len <= |input|
    requires len < MAX_REF && ip + len + 2 < |input| ==> input[ref + len] != input[ip + len]
    ensures len >= MAX_REF || ip + len + 2 >= |input|
  {
  }

  /** A run that is still open has not used up the promised slack. */
  lemma RoomLeft(input: Bytestring, o: Bytestring, ip: nat, lit: nat, outLen: nat)
    requires OpenRun(input, o, ip, lit) && outLen >= Roomy(|input|)
    ensures |o| < outLen
  {
  }

  lemma Start(s: Bytestring, outLen: nat, control: Byte, entry: Address, base: nat)
    requires |s| >= 2
    ensures OpenRun(s, [control], 0, 0) && Rolled(First(s[0], s[1]), s[0], s[1])
    ensures Even(s, outLen) ==> Going(|s|, entry, base, 0, 1, 0)
  {
    assert s[0..0] == [] && [control][1..] == [] && [control][..0] == [];
  }

  /** Looks up the three bytes at `ip` and enters them; the entry found may be a match. */
  method LookUp(input: array<Byte>, htab: array<Address>, base: nat, hash: Hash, ip: nat,
      ghost s: Bytestring)
    returns (hval: Hash, ref: Address, found: bool)
    requires htab.Length == HSIZE && MAX_OFF <= base && base + input.Length <= 0x1_0000_0000_0000_0000
    requires input[..] == s && ip + 2 < |s| && Rolled(hash, s[ip], s[ip + 1])
    modifies htab
    ensures input[..] == s
    ensures Rolled(hval, s[ip + 1], s[ip + 2])
    ensures var slot := Slot(s[ip], s[ip + 1], s[ip + 2]);
      ref == old(htab[slot]) && htab[..] == old(htab[..])[slot := base + ip]
    ensures found <==>
      && ip + 4 < |s| && 0 < ref - base < ip && ip - (ref - base) - 1 < MAX_OFF
      && Matches(s, ref - base, ip, 3)
  {
    NextRolls(hash, input[ip], input[ip + 1], input[ip + 2]);
    hval := Next(hash, input[ip + 2]);
    var slot := Idx(hval);
    ref := htab[slot];
    htab[slot] := base + ip;
    found := IsMatch(input, base, ref, ip);
  }

  /** The branch of the loop for a match at `ref`. */
  method TakeMatch(input: array<Byte>, out: array<Byte>, outLen: nat, htab: array<Address>, base: nat,
      ref: nat, ip: nat, op: nat, lit: nat, ghost entry: Address, ghost s: Bytestring)
    returns (ok: bool, hval: Hash, ip': nat, op': nat)
    requires input != out && out.Length == outLen + 1 && htab.Length == HSIZE
    requires base + input.Length <= 0x1_0000_0000_0000_0000
    requires 0 < ip && ip + 4 < |s| && Matches(s, ref, ip, 3) && ip - ref - 1 < MAX_OFF
    requires op <= out.Length && lit < MAX_LIT && OpenRun(s, out[..op], ip, lit)
    requires input[..] == s
    modifies out, htab
    ensures input[..] == s
    ensures outLen >= Roomy(|s|) ==> ok
    ensures ok ==> ip < ip' <= |s| && op' <= out.Length && OpenRun(s, out[..op'], ip', 0)
    ensures ok && ip' + 2 < |s| ==>
      && ip' > 1 && Rolled(hval, s[ip'], s[ip' + 1])
      && htab[Slot(s[ip' - 1], s[ip'], s[ip' + 1])] == base + ip' - 1
    ensures (Even(s, outLen) && ip >= 2 && Steady(|s|, entry, base, ip, op, lit)) ==>
      && ok && ip' > 0
      && Going(|s|, base + ip' - 1, base, ip', op', 0)
  {
    hide OpenRun, Finished, Steady, Packed, Even, Slot, Rolled, EncodeRef;
    hval, ip' := 0, ip;
    op' := StopRun(input, out, ip, op, lit);
    ghost var steady := Even(s, outLen) && ip >= 2 && Steady(input.Length, entry, base, ip, op, lit);
    if steady { EvenRoom(s, outLen, entry, base, ip, op, lit); }
    ok := op' + 3 + 1 < outLen;
    if !ok { return; }
    var len := MatchLength(input, ref, ip);
    ip', op' := EmitReference(input, out, ref, ip, op', len);
    if steady {
      EvenRuns(s, outLen, ref, ip, len);
      EvenReference(input.Length, entry, base, ip, op, lit, len, op');
    }
    if ip' >= input.Length - 2 { return; }
    hval := RehashTail(input, htab, base, ip');
  }

  /** The branch of the loop for no match. */
  method TakeLiteral(input: array<Byte>, out: array<Byte>, outLen: nat, base: nat,
      ip: nat, op: nat, lit: nat, ghost entry: Address, ghost s: Bytestring)
    returns (ok: bool, ip': nat, op': nat, lit': nat)
    requires input != out && out.Length == outLen + 1 && ip + 2 < input.Length
    requires base + input.Length <= 0x1_0000_0000_0000_0000
    requires op <= out.Length && lit < MAX_LIT && OpenRun(s, out[..op], ip, lit)
    requires input[..] == s
    modifies out
    ensures input[..] == s
    ensures outLen >= Roomy(|s|) ==> ok
    ensures ok ==> ip' == ip + 1 && op' <= out.Length && lit' < MAX_LIT && OpenRun(s, out[..op'], ip', lit')
    ensures (Even(s, outLen) && (ip < 2 || ip + 4 >= |s|) && Steady(|s|, entry, base, ip, op, lit)) ==>
      && ok && ip' > 0
      && Going(|s|, base + ip' - 1, base, ip', op', lit')
  {
    hide OpenRun, Steady, Packed, Even;
    if Even(s, outLen) && (ip < 2 || ip + 4 >= input.Length)
      && Steady(input.Length, entry, base, ip, op, lit) {
      EvenLiteral(s, outLen, entry, base, ip, op, lit);
    }
    if outLen >= Roomy(input.Length) { RoomLeft(s, out[..op], ip, lit, outLen); }
    ok, ip', op', lit' := op < outLen, ip, op, lit;
    if ok { ip', op', lit' := CopyLiteral(input, out, ip, op, lit); }
  }

  /** Compresses as long as a match could start; false when the output ran out of room. */
  method CompressBody(input: array<Byte>, out: array<Byte>, outLen: nat, htab: array<Address>, base: nat)
    returns (ok: bool, ip: nat, op: nat, lit: nat)
    requires input != out && input.Length >= 2 && 0 < outLen && out.Length == outLen + 1
    requires htab.Length == HSIZE && MAX_OFF <= base && base + input.Length <= 0x1_0000_0000_0000_0000
    modifies out, htab
    ensures outLen >= Roomy(input.Length) ==> ok
    ensures ok ==> op <= out.Length && lit < MAX_LIT && OpenRun(input[..], out[..op], ip, lit)
    ensures ok ==> input.Length - 2 <= ip
    ensures Even(input[..], outLen) ==> ok && Packed(input.Length, op, lit)
  {
    hide OpenRun, Finished, Steady, Packed, Even, Slot, Rolled, Matches, First, Roomy, Decodes;
    ip, op, lit := 0, 1, 0;
    var hval := First(input[0], input[1]);
    ghost var s, n := input[..], input.Length;
    ghost var even := Even(s, outLen);
    ghost var home := if n > 2 then Slot(s[0], s[1], s[2]) else 0;
    Start(s, outLen, out[0], htab[home], base);
    assert out[..op] == [out[0]];
    while ip < input.Length - 2
      invariant 0 <= ip <= input.Length && op <= out.Length && lit < MAX_LIT
      invariant input[..] == s && OpenRun(s, out[..op], ip, lit)
      invariant ip + 2 < n ==> Rolled(hval, s[ip], s[ip + 1])
      invariant even ==> Going(n, htab[home], base, ip, op, lit)
    {
      var ref: Address, found: bool;
      hval, ref, found := LookUp(input, htab, base, hval, ip, s);
      if even {
        EvenSlot(s, outLen, ip);
        EvenMatches(s, outLen, ref, base, ip, op, lit);
      }
      if found {
        ok, hval, ip, op := TakeMatch(input, out, outLen, htab, base, ref - base, ip, op, lit, ref, s);
        lit := 0;
        if !ok { return; }
        if ip >= input.Length - 2 { break; }
        if even { EvenSlot(s, outLen, ip - 1); }
      } else {
        ok, ip, op, lit := TakeLiteral(input, out, outLen, base, ip, op, lit, ref, s);
        if !ok { return; }
      }
    }
    ok := true;
  }

  /** The compressor. Whatever the table held, a non-empty result decodes to the input; it is at
      most one control byte per 32 literals longer; and it exists whenever `outLen` leaves four
      bytes of slack. The array bound says that at most one byte past `outLen` is written. And 32 or
      more equal bytes take three bytes for every 264 of them, and at most eleven besides. */
  method Compress(input: array<Byte>, out: array<Byte>, outLen: nat, htab: array<Address>, base: nat) returns (r: nat)
    requires input != out && input.Length != 1 && out.Length == outLen + 1
    requires htab.Length == HSIZE && MAX_OFF <= base && base + input.Length <= 0x1_0000_0000_0000_0000
    modifies out, htab
    ensures r > 0 ==> r <= outLen && Decode(out[..r], [], input.Length) == Done(input[..])
    ensures r <= input.Length + (input.Length + 31) / 32
    ensures input.Length > 0 && outLen >= Roomy(input.Length) ==> r > 0
    ensures Even(input[..], outLen) ==> 0 < r <= 11 + 3 * (input.Length / MAX_REF)
  {
    if input.Length == 0 || outLen == 0 { return 0; }
    var ok: bool, ip: nat, op: nat, lit: nat := CompressBody(input, out, outLen, htab, base);
    if !ok { return 0; }
    if op + 3 > outLen { return 0; }
    ghost var start, n, few, size := ip, input.Length, lit, op;
    while ip < input.Length
      invariant start <= ip <= n && n - 2 <= start && lit < MAX_LIT && op <= out.Length
      invariant op + 3 <= outLen + 2 * (ip - start)
      invariant ip > start && op + 3 == outLen + 2 * (ip - start) ==> lit == 0
      invariant OpenRun(input[..], out[..op], ip, lit)
      invariant few <= 2 ==> lit == few + (ip - start) && op == size + (ip - start)
    {
      ip, op, lit := CopyLiteral(input, out, ip, op, lit);
    }
    r := StopRun(input, out, ip, op, lit);
    assert input[..ip] == input[..];
  }
}
