/** lzf_d.c: the decompressor, a cursor over the input and one over the output. */
module LzfDecompress {
  import opened Bytes
  import opened LzfFormat

  datatype Errno = NoError | E2BIG | EINVAL

  /** Copies `n` literal bytes. */
  method CopyLiterals(input: array<Byte>, ip: nat, out: array<Byte>, op: nat, n: nat)
    requires input != out && ip + n <= input.Length && op + n <= out.Length
    modifies out
    ensures out[..op + n] == old(out[..op]) + input[ip..ip + n]
  {
    var k := 0;
    while k < n
      invariant 0 <= k <= n
      invariant forall j :: 0 <= j < op ==> out[j] == old(out[j])
      invariant forall j :: op <= j < op + k ==> out[j] == input[j - op + ip]
    {
      out[op + k] := input[ip + k];
      k := k + 1;
    }
  }

  /** The overlapping forward copy: each byte is read after the previous one was written. */
  method CopyReference(out: array<Byte>, op: nat, dist: nat, len: nat)
    requires 0 < dist <= op && op + len <= out.Length
    modifies out
    ensures out[..op + len] == CopyBack(old(out[..op]), dist, len)
  {
    var k := 0;
    while k < len
      invariant 0 <= k <= len
      invariant forall j :: 0 <= j < op ==> out[j] == old(out[j])
      invariant forall j :: op <= j < op + k ==> out[j] == out[j - dist]
    {
      out[op + k] := out[op + k - dist];
      k := k + 1;
    }
    CopyBackUnique(old(out[..op]), dist, out[..op + len]);
  }

  ghost predicate Failed(d: Decoded, errno: Errno)
  {
    (d == TooBig && errno == E2BIG) || (d == Invalid && errno == EINVAL)
  }

  lemma Within(s: Bytestring, i: nat, j: nat, a: nat, b: nat)
    requires a <= b <= j - i && j <= |s|
    ensures s[i..j][a..b] == s[i + a..i + b]
  {
    var t := s[i..j];
    forall k | 0 <= k < b - a ensures t[a..b][k] == s[i + a..i + b][k] { assert t[a + k] == s[i + a + k]; }
  }

  /** What decoding makes of a run of literals at the head of a stream, or of the beginning of one. */
  lemma LiteralsRead(c: Bytestring, out: Bytestring, limit: nat)
    requires c != [] && c[0] < 32
    ensures var n: int := c[0] + 1;
      Decode(c, out, limit) ==
      if |out| + n > limit then TooBig
      else if 1 + n > |c| then Invalid
      else Decode(c[1 + n..], out + c[1..1 + n], limit)
  {
  }

  /** The literal-run branch of the decoding loop; `ip` is just past the control byte. */
  method LiteralRun(input: array<Byte>, start: nat, inLen: nat, out: array<Byte>, op: nat)
      returns (ip': nat, op': nat, errno: Errno)
    requires input != out && start < inLen <= input.Length && op <= out.Length && input[start] < 32
    modifies out
    ensures var d := Decode(input[start..inLen], old(out[..op]), out.Length);
      if errno != NoError then Failed(d, errno)
      else start < ip' <= inLen && op' <= out.Length && d == Decode(input[ip'..inLen], out[..op'], out.Length)
  {
    hide Decode;
    LiteralsRead(input[start..inLen], out[..op], out.Length);
    var ctrl: int := input[start] + 1;
    var ip := start + 1;
    if op + ctrl > out.Length { return ip, op, E2BIG; }
    if ip + ctrl > inLen { return ip, op, EINVAL; }
    ghost var rest := input[start..inLen];
    Within(input[..], start, inLen, 1, 1 + ctrl);
    Within(input[..], start, inLen, 1 + ctrl, |rest|);
    assert rest == input[..][start..inLen];
    assert rest[1..1 + ctrl] == input[ip..ip + ctrl];
    assert rest[1 + ctrl..] == input[ip + ctrl..inLen];
    CopyLiterals(input, ip, out, op, ctrl);
    return ip + ctrl, op + ctrl, NoError;
  }

  /** What decoding makes of a back reference at the head of a stream, or of the beginning of one. */
  lemma ReferenceRead(c: Bytestring, out: Bytestring, limit: nat)
    requires c != [] && c[0] >= 32
    ensures Decode(c, out, limit) ==
      if |c| < RefSize(c[0]) then Invalid
      else if |out| + RefLen(c) > limit then TooBig
      else if RefDist(c) > |out| then Invalid
      else Decode(c[RefSize(c[0])..], CopyBack(out, RefDist(c), RefLen(c)), limit)
  {
    hide CopyBack;
  }

  /** The back-reference branch of the decoding loop. */
  method BackReference(input: array<Byte>, start: nat, inLen: nat, out: array<Byte>, op: nat)
      returns (ip': nat, op': nat, errno: Errno)
    requires input != out && start < inLen <= input.Length && op <= out.Length && input[start] >= 32
    modifies out
    ensures var d := Decode(input[start..inLen], old(out[..op]), out.Length);
      if errno != NoError then Failed(d, errno)
      else start < ip' <= inLen && op' <= out.Length && d == Decode(input[ip'..inLen], out[..op'], out.Length)
  {
    hide CopyBack, Decode;
    ReferenceRead(input[start..inLen], out[..op], out.Length);
    var ctrl: int := input[start];
    var ip := start + 1;
    var len := ctrl / 32;
    var ref := op - ctrl % 32 * 256 - 1;
    if ip >= inLen { return ip, op, EINVAL; }
    if len == 7 {
      len := len + input[ip];
      ip := ip + 1;
      if ip >= inLen { return ip, op, EINVAL; }
    }
    ref := ref - input[ip];
    ip := ip + 1;
    ghost var rest := input[start..inLen];
    assert RefLen(rest) == len + 2 && RefDist(rest) == op - ref;
    assert rest[RefSize(rest[0])..] == input[ip..inLen];
    if op + len + 2 > out.Length { return ip, op, E2BIG; }
    if ref < 0 { return ip, op, EINVAL; }
    CopyReference(out, op, op - ref, len + 2);
    return ip, op + len + 2, NoError;
  }

  /** Decompresses `inLen` bytes of `input` into `out`: exactly what the format says, E2BIG for a
      stream that does not fit, EINVAL for one that is malformed, no access outside the buffers. */
  method Decompress(input: array<Byte>, inLen: nat, out: array<Byte>) returns (r: nat, errno: Errno)
    requires input != out && 0 < inLen <= input.Length
    modifies out
    ensures var d := Decode(input[..inLen], [], out.Length);
      if errno != NoError then r == 0 && Failed(d, errno)
      else r <= out.Length && d == Done(out[..r])
  {
    var ip, op := 0, 0;
    assert input[0..inLen] == input[..inLen] && out[..0] == [];
    while ip < inLen
      invariant 0 <= ip <= inLen && 0 <= op <= out.Length
      invariant Decode(input[ip..inLen], out[..op], out.Length) == Decode(input[..inLen], [], out.Length)
    {
      var next, at;
      if input[ip] < 32 {
        next, at, errno := LiteralRun(input, ip, inLen, out, op);
      } else {
        next, at, errno := BackReference(input, ip, inLen, out, op);
      }
      if errno != NoError { return 0, errno; }
      ip, op := next, at;
    }
    return op, NoError;
  }
}
