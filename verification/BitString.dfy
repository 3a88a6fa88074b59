/** bitops.c: what BITOP computes, byte by byte on strings padded with zeros. */
module BitString {
  import opened Bytes

  type Bits = seq<bv8>

  datatype Operation = And | Or | Xor | Not

  function ToBits(s: Bytestring): (r: Bits)
    ensures |r| == |s|
  {
    seq(|s|, i requires 0 <= i < |s| => s[i] as bv8)
  }

  function FromBits(s: Bits): (r: Bytestring)
    ensures |r| == |s|
  {
    seq(|s|, i requires 0 <= i < |s| => s[i] as Byte)
  }

  function Padded(s: Bits, j: nat): bv8 { if j < |s| then s[j] else 0 }

  function Combine(op: Operation, a: bv8, b: bv8): bv8
  {
    match op case And => a & b case Or => a | b case Xor => a ^ b case Not => a
  }

  /** The sources' bytes at one position, combined from left to right. */
  function Column(op: Operation, srcs: seq<Bits>, j: nat): bv8
    requires srcs != []
    decreases |srcs|
  {
    var n := |srcs| - 1;
    if n == 0 then (if op == Not then !Padded(srcs[0], j) else Padded(srcs[0], j))
    else Combine(op, Column(op, srcs[..n], j), Padded(srcs[n], j))
  }

  function MaxLen(srcs: seq<Bits>): (n: nat)
    ensures forall s :: s in srcs ==> |s| <= n
    ensures n > 0 ==> exists s :: s in srcs && |s| == n
  {
    if srcs == [] then 0
    else
      var m := MaxLen(srcs[1..]);
      assert srcs == [srcs[0]] + srcs[1..];
      if |srcs[0]| > m then (assert srcs[0] in srcs; |srcs[0]|) else m
  }

  function Result(op: Operation, srcs: seq<Bits>): (r: Bits)
    requires srcs != []
    ensures |r| == MaxLen(srcs)
  {
    seq(MaxLen(srcs), j requires j >= 0 => Column(op, srcs, j))
  }
}
