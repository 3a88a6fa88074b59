/** migrate.c, createDumpPayload and verifyDumpPayload: the footer of a serialized value. */
module DumpPayload {
  import opened BitString
  import opened Bitops
  import opened Crc64
  import opened Crc64Bursts

  const RDB_VERSION: bv16 := 6

  const VERSION_BYTES: Bits := [6, 0]

  /** A serialized value, the version and the checksum of both, lowest byte first. */
  function Payload(body: Bits): (p: Bits)
    ensures |p| == |body| + 10 && p[..|body|] == body
  {
    body + VERSION_BYTES + Spelled(Specified(0, body + VERSION_BYTES), 8)
  }

  predicate Accepted(p: Bits) { |p| >= 10 && p == Payload(p[..|p| - 10]) }

  lemma VersionIsSplit()
    ensures [(RDB_VERSION & 0xff) as bv8, ((RDB_VERSION >> 8) & 0xff) as bv8] == VERSION_BYTES
  {
  }

  /** The footer is appended to the serialized value. */
  method CreateDumpPayload(body: Bits) returns (payload: Bits)
    ensures payload == Payload(body)
    ensures Accepted(payload)
  {
    hide Specified, Spelled;
    payload := body;
    var buf := [(RDB_VERSION & 0xff) as bv8, ((RDB_VERSION >> 8) & 0xff) as bv8];
    VersionIsSplit();
    payload := payload + buf;
    var crc := Checksum(0, payload);
    payload := payload + Spelled(crc, 8);
    assert payload[..|payload| - 10] == body;
  }

  function TwoBytes(high: bv8, low: bv8): bv16 { ((high as bv16) << 8) | (low as bv16) }

  lemma VersionRead(high: bv8, low: bv8)
    ensures TwoBytes(high, low) == RDB_VERSION <==> high == 0 && low == 6
  {
  }

  lemma PayloadSplit(p: Bits)
    requires |p| >= 10
    ensures Accepted(p) <==>
      p[|p| - 10] == 6 && p[|p| - 9] == 0 && p[|p| - 8..] == Spelled(Specified(0, p[..|p| - 8]), 8)
  {
    hide Specified, Spelled;
    var n := |p|;
    var body := p[..n - 10];
    assert p == body + [p[n - 10], p[n - 9]] + p[n - 8..];
    assert p[..n - 8] == body + [p[n - 10], p[n - 9]];
    if p[n - 10] == 6 && p[n - 9] == 0 {
      assert p[..n - 8] == body + VERSION_BYTES;
      assert Payload(body)[n - 8..] == Spelled(Specified(0, body + VERSION_BYTES), 8);
    } else {
      assert Payload(body)[n - 10] == 6 && Payload(body)[n - 9] == 0;
    }
  }

  /** A payload is taken exactly when it is one that can be created. */
  method VerifyDumpPayload(p: Bits) returns (ok: bool)
    ensures ok <==> exists body :: p == Payload(body)
    ensures ok <==> Accepted(p)
  {
    hide Specified, Spelled;
    if exists body :: p == Payload(body) {
      ghost var body :| p == Payload(body);
      assert p[..|p| - 10] == body;
    }
    if |p| < 10 { return false; }
    var footer := p[|p| - 10..];
    PayloadSplit(p);
    VersionRead(footer[1], footer[0]);
    hide TwoBytes;
    if TwoBytes(footer[1], footer[0]) != RDB_VERSION { return false; }
    var crc := Checksum(0, p[..|p| - 8]);
    assert footer[2..] == p[|p| - 8..];
    return Spelled(crc, 8) == footer[2..];
  }

  lemma AcceptedLeavesNothing(p: Bits)
    requires Accepted(p)
    ensures Run(0, p) == 0
  {
    hide Run, Specified, Spelled;
    PayloadSplit(p);
    RunIsSpecified(0, p[..|p| - 8]);
    ResidueIsZero(p[..|p| - 8], p[|p| - 8..]);
    assert p == p[..|p| - 8] + p[|p| - 8..];
  }

  /** No change within eight consecutive bytes turns one acceptable payload into another, wherever the
      eight bytes lie: in the value, the version, the checksum or across them. */
  lemma BurstIsRejected(a: Bits, s: Bits, t: Bits, b: Bits)
    requires |s| == |t| <= 8
    requires Accepted(a + s + b)
    ensures Accepted(a + t + b) <==> s == t
  {
    hide Accepted, Run;
    if Accepted(a + t + b) {
      AcceptedLeavesNothing(a + s + b);
      AcceptedLeavesNothing(a + t + b);
      BurstIsSeen(0, a, s, t, b);
    }
  }

  /** In particular, no byte of a created payload can be altered. */
  lemma OneByteIsRejected(body: Bits, k: nat, x: bv8)
    requires k < |body| + 10
    ensures Accepted(Payload(body)[k := x]) <==> x == Payload(body)[k]
  {
    var p := Payload(body);
    assert p[..|p| - 10] == body;
    hide Payload, Accepted;
    var a, b := p[..k], p[k + 1..];
    assert p == a + [p[k]] + b && p[k := x] == a + [x] + b;
    assert p[k] == [p[k]][0] && x == [x][0];
    assert Accepted(p);
    BurstIsRejected(a, [p[k]], [x], b);
  }
}
