/** rdb.c, strings, as they go through a stream. */
module Rdb {
  import opened Bytes
  import opened Decimal
  import opened Wire
  import opened Strtol
  import opened LzfFormat
  import opened LzfCompress
  import opened LzfDecompress
  import opened RdbFormat

  /** A stream: what has been written to it, and what is left to read. */
  class Rio {
    var written: Bytestring
    var unread: Bytestring

    constructor (s: Bytestring)
      ensures written == [] && unread == s
    {
      written, unread := [], s;
    }

    method Write(s: Bytestring)
      modifies this`written
      ensures written == old(written) + s
    {
      written := written + s;
    }

    /** All n bytes or nothing; reading no bytes counts as a failure. */
    method Read(n: nat) returns (ok: bool, s: Bytestring)
      modifies this`unread
      ensures ok == (0 < n <= |old(unread)|)
      ensures if ok then s == old(unread)[..n] && unread == old(unread)[n..] else s == [] && unread == old(unread)
    {
      if n == 0 || |unread| < n { return false, []; }
      ok, s := true, unread[..n];
      unread := unread[n..];
    }
  }

  /** rdbSaveLen. */
  method RdbSaveLen(rdb: Rio, length: nat) returns (written: nat)
    modifies rdb`written
    ensures rdb.written == old(rdb.written) + SaveLen(length) && written == |SaveLen(length)|
  {
    var len := length % 0x1_0000_0000;
    if len < 64 {
      rdb.Write([len]);
      return 1;
    } else if len < 16384 {
      rdb.Write([64 + len / 256, len % 256]);
      return 2;
    }
    rdb.Write([128]);
    rdb.Write([len / 0x100_0000, len / 0x1_0000 % 256, len / 256 % 256, len % 256]);
    return 5;
  }

  /** rdbLoadLen. */
  method RdbLoadLen(rdb: Rio) returns (len: nat, isencoded: bool)
    modifies rdb`unread
    ensures var (n, e, rest) := LoadLen(old(rdb.unread));
      len == n && isencoded == e && (n != LENERR ==> rdb.unread == rest)
  {
    var ok, buf := rdb.Read(1);
    if !ok { return LENERR, false; }
    var b: int := buf[0];
    if b / 64 == 3 { return b % 64, true; }
    if b / 64 == 0 { return b % 64, false; }
    if b / 64 == 1 {
      var more, low := rdb.Read(1);
      if !more { return LENERR, false; }
      return b % 64 * 256 + low[0], false;
    }
    var more, n := rdb.Read(4);
    if !more { return LENERR, false; }
    return Num(n[0]) * 0x100_0000 + Num(n[1]) * 0x1_0000 + Num(n[2]) * 256 + Num(n[3]), false;
  }

  /** rdbEncodeInteger. */
  method RdbEncodeInteger(value: int) returns (enc: Bytestring)
    ensures enc == EncodeInteger(value)
  {
    if -0x80 <= value <= 0x7F { return [192, Low(value, 0)]; }
    if -0x8000 <= value <= 0x7FFF { return [193, Low(value, 0), Low(value, 1)]; }
    if -0x8000_0000 <= value <= 0x7FFF_FFFF {
      return [194, Low(value, 0), Low(value, 1), Low(value, 2), Low(value, 3)];
    }
    return [];
  }

  /** rdbTryIntegerEncoding. */
  method RdbTryIntegerEncoding(s: Bytestring) returns (enc: Bytestring)
    ensures enc == TryInteger(s)
  {
    var value := Strtoll(s);
    if At(s, Number(s).1) != NUL { return []; }
    var buf := Ll2String(value);
    if |buf| != |s| || buf != s { return []; }
    enc := RdbEncodeInteger(value);
  }

  /** rdbSaveLzfStringObject: compression has to gain four bytes. The hash table is whatever it was;
      `base` is the address of the string. */
  method RdbSaveLzfStringObject(rdb: Rio, s: array<Byte>, htab: array<Address>, base: nat)
    returns (nwritten: nat, ghost c: Bytestring)
    requires htab.Length == HSIZE && MAX_OFF <= base && base + s.Length <= 0x1_0000_0000_0000_0000
    modifies rdb`written, htab
    ensures (nwritten == 0) == (c == []) && (nwritten == 0 ==> rdb.written == old(rdb.written))
    ensures nwritten > 0 ==> IsCompressed(c, s[..]) && rdb.written == old(rdb.written) + LzfForm(c, s.Length)
    ensures nwritten > 0 ==> nwritten == |LzfForm(c, s.Length)|
    ensures s.Length >= 32 && (forall k :: 0 <= k < s.Length ==> s[k] == s[0])
      ==> 0 < |c| <= 11 + 3 * (s.Length / 264) && nwritten > 0
  {
    hide SaveLen, Decode;
    c := [];
    if s.Length <= 4 { return 0, []; }
    var outlen := s.Length - 4;
    var out := new Byte[outlen + 1];
    var comprlen := Compress(s, out, outlen, htab, base);
    if comprlen == 0 { return 0, []; }
    c := out[..comprlen];
    rdb.Write([ENC_LZF]);
    nwritten := 1;
    var n := RdbSaveLen(rdb, comprlen);
    nwritten := nwritten + n;
    n := RdbSaveLen(rdb, s.Length);
    nwritten := nwritten + n;
    rdb.Write(out[..comprlen]);
    nwritten := nwritten + comprlen;
    ghost var a, b := SaveLen(comprlen), SaveLen(s.Length);
    assert old(rdb.written) + [ENC_LZF] + a + b + c == old(rdb.written) + ([ENC_LZF] + a + b + c);
  }

  lemma LzfFormSize(c: Bytestring, length: nat)
    ensures |LzfForm(c, length)| <= 11 + |c|
  {
  }

  /** rdbSaveRawString: whatever the compressor made of the string is what is written, and 32 or more
      equal bytes take 3 for every 264 of them, and at most 22 besides. */
  method RdbSaveRawString(rdb: Rio, s: array<Byte>, compression: bool, htab: array<Address>, base: nat)
    returns (nwritten: nat, ghost w: Bytestring, ghost c: Bytestring)
    requires htab.Length == HSIZE && MAX_OFF <= base && base + s.Length <= 0x1_0000_0000_0000_0000
    modifies rdb`written, htab
    ensures rdb.written == old(rdb.written) + w && nwritten == |w| && Saved(w, s[..])
    ensures s.Length <= 11 && TryInteger(s[..]) != [] ==> w == TryInteger(s[..])
    ensures !(s.Length <= 11 && TryInteger(s[..]) != []) ==>
      w == if c == [] then Verbatim(s[..]) else LzfForm(c, s.Length)
    ensures c != [] ==> compression && s.Length > 20 && IsCompressed(c, s[..])
    ensures compression && s.Length >= 32 && (forall k :: 0 <= k < s.Length ==> s[k] == s[0])
      ==> nwritten <= 22 + 3 * (s.Length / 264)
  {
    hide TryInteger, SaveLen, IsCompressed;
    c := [];
    if s.Length <= 11 {
      var enc := RdbTryIntegerEncoding(s[..]);
      if |enc| > 0 {
        rdb.Write(enc);
        return |enc|, enc, [];
      }
    }
    if compression && s.Length > 20 {
      nwritten, c := RdbSaveLzfStringObject(rdb, s, htab, base);
      if nwritten > 0 {
        LzfFormSize(c, s.Length);
        return nwritten, LzfForm(c, s.Length), c;
      }
    }
    nwritten := RdbSaveLen(rdb, s.Length);
    if s.Length > 0 {
      rdb.Write(s[..]);
      nwritten := nwritten + s.Length;
    }
    w := Verbatim(s[..]);
    Wire.Assoc(old(rdb.written), SaveLen(s.Length), s[..]);
    assert s.Length == 0 ==> old(rdb.written) + SaveLen(s.Length) + [] == old(rdb.written) + SaveLen(s.Length);
  }

  /** rdbLoadIntegerObject. */
  method RdbLoadIntegerObject(rdb: Rio, enctype: nat) returns (r: Option<Bytestring>)
    requires enctype <= 2
    modifies rdb`unread
    ensures match LoadInteger(enctype, old(rdb.unread))
      case None => r == None
      case Some((v, rest)) => r == Some(v) && rdb.unread == rest
  {
    hide Print;
    var bytes := if enctype == 0 then 1 else if enctype == 1 then 2 else 4;
    var ok, enc := rdb.Read(bytes);
    if !ok { return None; }
    var val;
    if enctype == 0 {
      val := Signed(enc[0], 256);
    } else if enctype == 1 {
      val := Signed(Num(enc[0]) + Num(enc[1]) * 256, 0x1_0000);
    } else {
      val := Signed(Num(enc[0]) + Num(enc[1]) * 256 + Num(enc[2]) * 0x1_0000 + Num(enc[3]) * 0x100_0000, 0x1_0000_0000);
    }
    var s := Ll2String(val);
    return Some(s);
  }

  /** rdbLoadLzfStringObject. */
  method RdbLoadLzfStringObject(rdb: Rio) returns (r: Option<Bytestring>)
    modifies rdb`unread
    ensures match LoadLzf(old(rdb.unread))
      case None => r == None
      case Some((v, rest)) => r == Some(v) && rdb.unread == rest
  {
    hide LoadLen, Decode;
    var clen, e1 := RdbLoadLen(rdb);
    if clen == LENERR { return None; }
    var len, e2 := RdbLoadLen(rdb);
    if len == LENERR { return None; }
    var ok, c := rdb.Read(clen);
    if !ok { return None; }
    r := Unpack(c, len);
  }

  /** lzf_decompress into a new string of the given length, which is zeros to begin with. */
  method Unpack(c: Bytestring, len: nat) returns (r: Option<Bytestring>)
    requires c != []
    ensures r == match Decode(c, [], len)
      case Done(out) => if out == [] || |out| > len then None else Some(out + Zeros(len - |out|))
      case _ => None
  {
    hide Decode;
    var input := new Byte[|c|](i requires 0 <= i < |c| => c[i]);
    var val := new Byte[len](i => 0);
    assert input[..|c|] == c;
    var n, errno := Decompress(input, |c|, val);
    if n == 0 { return None; }
    return Some(val[..n] + Zeros(len - n));
  }

  /** rdbGenericLoadStringObject. */
  method RdbGenericLoadStringObject(rdb: Rio) returns (r: Option<Bytestring>)
    modifies rdb`unread
    ensures match LoadString(old(rdb.unread))
      case None => r == None
      case Some((v, rest)) => r == Some(v) && rdb.unread == rest
  {
    hide LoadLen, LoadInteger, LoadLzf;
    var len, isencoded := RdbLoadLen(rdb);
    if isencoded {
      if len <= 2 {
        r := RdbLoadIntegerObject(rdb, len);
      } else if len == 3 {
        r := RdbLoadLzfStringObject(rdb);
      } else {
        r := None;
      }
      return;
    }
    if len == LENERR { return None; }
    if len == 0 { return Some([]); }
    var ok, val := rdb.Read(len);
    if !ok { return None; }
    return Some(val);
  }
}
