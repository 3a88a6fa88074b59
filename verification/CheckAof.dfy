/** redis-check-aof.c as it reads the file. */
module CheckAof {
  import opened Bytes
  import opened Wire
  import opened Strtol
  import opened LogFile
  import AofLoad
  import opened CheckAofModel

  /** An open file: its bytes and how many of them have been read. */
  class File {
    const bytes: Bytestring
    var pos: nat

    constructor (bytes: Bytestring)
      ensures this.bytes == bytes && pos == 0
    {
      this.bytes, pos := bytes, 0;
    }

    ghost predicate Valid()
      reads this
    {
      pos <= |bytes|
    }

    function Rest(): Bytestring
      reads this
      requires Valid()
    {
      bytes[pos..]
    }

    method ReadLong(prefix: Byte) returns (r: Option<int>)
      requires Valid()
      modifies this`pos
      ensures Valid() && pos >= old(pos)
      ensures match CheckAofModel.ReadLong(old(Rest()), prefix)
        case None => r == None
        case Some((v, rest)) => r == Some(v) && Rest() == rest
    {
      hide LineLength, Number, Strtoll;
      var buf, rest := AofLoad.Fgets(Rest());
      if |buf| == 0 { return None; }
      assert bytes[pos..][|buf|..] == bytes[pos + |buf|..];
      pos := pos + |buf|;
      if buf[0] != prefix { return None; }
      var target, eptr := Strtoll(buf[1..]), Number(buf[1..]).1;
      if !AtNewline(buf[1..], eptr) { return None; }
      return Some(target);
    }

    method ReadString() returns (r: Option<Bytestring>)
      requires Valid()
      modifies this`pos
      ensures Valid() && pos >= old(pos)
      ensures match CheckAofModel.ReadString(old(Rest()))
        case None => r == None
        case Some((a, rest)) => r == Some(a) && Rest() == rest
    {
      hide CheckAofModel.ReadLong;
      var len := ReadLong(DOLLAR);
      if len == None || len.value < 0 { return None; }
      var n := len.value;
      if |bytes| - pos < n + 2 { return None; }
      var target := bytes[pos..pos + n + 2];
      ghost var rest := Rest();
      assert rest[..n] == target[..n] && rest[n] == target[n] && rest[n + 1] == target[n + 1];
      assert rest[n + 2..] == bytes[pos + n + 2..];
      pos := pos + n + 2;
      if target[n] != CR || target[n + 1] != LF { return None; }
      return Some(target[..n]);
    }

    /** The arguments of one command; false where process breaks out of its loop. */
    method ReadArguments(argc: int, multi: nat) returns (ok: bool, m: nat)
      requires Valid()
      modifies this`pos
      ensures Valid() && pos >= old(pos)
      ensures match CheckAofModel.ReadArgs(old(Rest()), argc, true, multi)
        case None => !ok
        case Some((rest, k)) => ok && m == k && Rest() == rest
    {
      hide CheckAofModel.ReadString, Enter;
      m := multi;
      var i := 0;
      while i < argc
        invariant Valid() && pos >= old(pos) && i >= 0 && (argc >= 0 ==> i <= argc)
        invariant ReadArgs(Rest(), argc - i, i == 0, m) == ReadArgs(old(Rest()), argc, true, multi)
      {
        var str := ReadString();
        if str == None { return false, m; }
        if i == 0 {
          var e := Enter(str.value, m);
          if e == None { return false, m; }
          m := e.value;
        }
        i := i + 1;
      }
      return true, m;
    }
  }

  /** process: how much of the file can be kept. */
  method Process(fp: File) returns (pos: nat)
    requires fp.Valid() && fp.pos == 0
    modifies fp`pos
    ensures pos == SafeLength(fp.bytes)
  {
    hide CheckAofModel.ReadLong, ReadArgs;
    pos := 0;
    var multi := 0;
    assert fp.bytes[0..] == fp.bytes;
    while true
      invariant fp.Valid() && CheckAofModel.Process(fp.Rest(), fp.pos, pos, multi) == SafeLength(fp.bytes)
      decreases |fp.bytes| - fp.pos
    {
      ghost var rest := fp.Rest();
      if multi == 0 { pos := fp.pos; }
      var argc := fp.ReadLong(STAR);
      if argc == None { break; }
      var ok;
      ok, multi := fp.ReadArguments(argc.value, multi);
      if !ok { break; }
      assert fp.pos == |fp.bytes| - |fp.Rest()|;
    }
  }
}
