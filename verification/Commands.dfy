/** redis.c: the command table, as far as the commands below are concerned. */
module Commands {
  import opened Bytes
  import opened Wire
  import opened Strtol

  datatype Command = Get | Exists | Type | GetBit | Set | SetNx | SetEx | PSetEx | GetSet | Del
                   | Rename | RenameNx | Move | Expire | PExpire | ExpireAt | PExpireAt | Persist
                   | FlushDb | FlushAll | SetBit | BitOp | RPush | SAdd | HMSet | Select | Multi | Exec

  const DEL: Bytestring := [68, 69, 76]
  const SET: Bytestring := [83, 69, 84]
  const PEXPIREAT: Bytestring := [80, 69, 88, 80, 73, 82, 69, 65, 84]
  const SELECT: Bytestring := [83, 69, 76, 69, 67, 84]
  const MULTI: Bytestring := [77, 85, 76, 84, 73]
  const RPUSH: Bytestring := [82, 80, 85, 83, 72]
  const SADD: Bytestring := [83, 65, 68, 68]
  const HMSET: Bytestring := [72, 77, 83, 69, 84]

  function Lower(b: Byte): int { if 65 <= b <= 90 then b + 32 else b }

  /** strcasecmp says the text is this word, which is in lower case. */
  predicate IsWord(s: Bytestring, word: string)
  {
    && (forall i :: 0 <= i < |word| ==> Lower(At(s, i)) == word[i] as int)
    && At(s, |word|) == NUL
  }

  /** A command name, which has no NUL in it. */
  predicate Named(s: Bytestring, name: string)
  {
    |s| == |name| && forall i :: 0 <= i < |s| ==> Lower(s[i]) == name[i] as int
  }

  /** lookupCommand. */
  function Lookup(s: Bytestring): Option<Command>
  {
    if |s| <= 3 then
      if Named(s, "get") then Some(Get) else if Named(s, "set") then Some(Set)
      else if Named(s, "del") then Some(Del) else None
    else if |s| == 4 then
      if Named(s, "type") then Some(Type) else if Named(s, "move") then Some(Move)
      else if Named(s, "sadd") then Some(SAdd) else if Named(s, "exec") then Some(Exec) else None
    else if |s| == 5 then
      if Named(s, "setnx") then Some(SetNx) else if Named(s, "setex") then Some(SetEx)
      else if Named(s, "bitop") then Some(BitOp) else if Named(s, "rpush") then Some(RPush)
      else if Named(s, "hmset") then Some(HMSet) else if Named(s, "multi") then Some(Multi) else None
    else if |s| == 6 then
      if Named(s, "exists") then Some(Exists) else if Named(s, "getbit") then Some(GetBit)
      else if Named(s, "psetex") then Some(PSetEx) else if Named(s, "getset") then Some(GetSet)
      else if Named(s, "rename") then Some(Rename) else if Named(s, "expire") then Some(Expire)
      else if Named(s, "setbit") then Some(SetBit) else if Named(s, "select") then Some(Select) else None
    else
      if Named(s, "renamenx") then Some(RenameNx) else if Named(s, "pexpire") then Some(PExpire)
      else if Named(s, "expireat") then Some(ExpireAt) else if Named(s, "pexpireat") then Some(PExpireAt)
      else if Named(s, "persist") then Some(Persist) else if Named(s, "flushdb") then Some(FlushDb)
      else if Named(s, "flushall") then Some(FlushAll) else None
  }

  /** The arity of the table: negative for "at least". */
  function Arity(c: Command): int
  {
    match c
    case Multi | Exec | FlushDb | FlushAll => 1
    case Get | Exists | Type | Persist | Select => 2
    case Del => -2
    case GetBit | SetNx | GetSet | Rename | RenameNx | Move | Expire | PExpire | ExpireAt | PExpireAt => 3
    case Set | RPush | SAdd => -3
    case SetEx | PSetEx | SetBit => 4
    case BitOp | HMSet => -4
  }

  predicate ArityOk(c: Command, argc: nat)
  {
    if Arity(c) > 0 then argc == Arity(c) else argc >= -Arity(c)
  }

  /** REDIS_CMD_READONLY. */
  predicate ReadOnly(c: Command)
  {
    match c
    case Get | Exists | Type | GetBit | Select | Multi => true
    case _ => false
  }

  /** What processCommand finds fit to run or to queue. */
  predicate Runnable(argv: Argv)
  {
    argv != [] && Lookup(argv[0]).Some? && ArityOk(Lookup(argv[0]).value, |argv|)
  }

  /** The name in the table. */
  function Name(c: Command): string
  {
    match c
    case Get => "get"
    case Exists => "exists"
    case Type => "type"
    case GetBit => "getbit"
    case Set => "set"
    case SetNx => "setnx"
    case SetEx => "setex"
    case PSetEx => "psetex"
    case GetSet => "getset"
    case Del => "del"
    case Rename => "rename"
    case RenameNx => "renamenx"
    case Move => "move"
    case Expire => "expire"
    case PExpire => "pexpire"
    case ExpireAt => "expireat"
    case PExpireAt => "pexpireat"
    case Persist => "persist"
    case FlushDb => "flushdb"
    case FlushAll => "flushall"
    case SetBit => "setbit"
    case BitOp => "bitop"
    case RPush => "rpush"
    case SAdd => "sadd"
    case HMSet => "hmset"
    case Select => "select"
    case Multi => "multi"
    case Exec => "exec"
  }

  /** Names are found as they stand in the table, letter case aside. */
  lemma LookupNames(s: Bytestring)
    requires Lookup(s).Some?
    ensures Named(s, Name(Lookup(s).value))
  {
    hide Named;
  }

  lemma OneName(s: Bytestring, a: string, b: string)
    requires Named(s, a) && Named(s, b)
    ensures a == b
  {
    forall i | 0 <= i < |s| ensures a[i] == b[i] { assert a[i] as int == Lower(s[i]) == b[i] as int; }
  }

  /** A letter in which names of one length differ, and the command it tells. */
  function Told(name: string): Command
    requires |name| >= 3
  {
    if |name| == 3 then (if name[0] == 'g' then Get else if name[0] == 's' then Set else Del)
    else if |name| == 4 then
      if name[0] == 't' then Type else if name[0] == 'm' then Move else if name[0] == 's' then SAdd else Exec
    else if |name| == 5 then
      if name[0] == 's' then (if name[3] == 'n' then SetNx else SetEx)
      else if name[0] == 'b' then BitOp else if name[0] == 'r' then RPush else if name[0] == 'h' then HMSet else Multi
    else if |name| == 6 then
      if name[0] == 'e' then (if name[2] == 'i' then Exists else Expire)
      else if name[0] == 'g' then (if name[3] == 'b' then GetBit else GetSet)
      else if name[0] == 'p' then PSetEx else if name[0] == 'r' then Rename
      else if name[2] == 't' then SetBit else Select
    else if |name| == 7 then
      if name[0] == 'f' then FlushDb else if name[2] == 'x' then PExpire else Persist
    else if |name| == 8 then (if name[0] == 'r' then RenameNx else if name[0] == 'e' then ExpireAt else FlushAll)
    else PExpireAt
  }

  lemma NameTells(c: Command)
    ensures |Name(c)| >= 3 && Told(Name(c)) == c
  {
  }

  lemma NameIsFound(s: Bytestring, c: Command)
    requires Named(s, Name(c))
    ensures Lookup(s).Some?
  {
    assert |s| == |Name(c)|;
    hide Named;
  }

  /** A command is found by its name in letters of either case, and by nothing else. */
  lemma LookupIsName(s: Bytestring, c: Command)
    ensures Lookup(s) == Some(c) <==> Named(s, Name(c))
  {
    if Named(s, Name(c)) {
      NameIsFound(s, c);
      LookupNames(s);
      OneName(s, Name(c), Name(Lookup(s).value));
      NameTells(c);
      NameTells(Lookup(s).value);
    }
    if Lookup(s) == Some(c) { LookupNames(s); }
    hide *;
  }

  predicate Letters(name: string) { |name| >= 3 && forall i :: 0 <= i < |name| ==> 'a' <= name[i] <= 'z' }

  lemma NamesAreLetters(c: Command)
    ensures Letters(Name(c))
  {
  }

  lemma OtherName(s: Bytestring, name: string, i: nat)
    requires i < |s| == |name| && Lower(s[i]) != name[i] as int
    ensures !Named(s, name)
  {
  }

  lemma DelName()
    ensures Lookup(DEL) == Some(Del)
  {
    assert Named(DEL, "del");
    OtherName(DEL, "get", 0);
    OtherName(DEL, "set", 0);
    hide Named;
  }

  lemma SetName()
    ensures Lookup(SET) == Some(Set)
  {
    assert Named(SET, "set");
    OtherName(SET, "get", 0);
    hide Named;
  }

  lemma PExpireAtName()
    ensures Lookup(PEXPIREAT) == Some(PExpireAt)
  {
    assert Named(PEXPIREAT, "pexpireat");
    hide Named;
  }

  lemma SelectName()
    ensures Lookup(SELECT) == Some(Select)
  {
    assert Named(SELECT, "select");
    OtherName(SELECT, "exists", 0);
    OtherName(SELECT, "getbit", 0);
    OtherName(SELECT, "psetex", 0);
    OtherName(SELECT, "getset", 0);
    OtherName(SELECT, "rename", 0);
    OtherName(SELECT, "expire", 0);
    OtherName(SELECT, "setbit", 2);
    hide Named;
  }

  lemma MultiName()
    ensures Lookup(MULTI) == Some(Multi)
  {
    assert Named(MULTI, "multi");
    OtherName(MULTI, "setnx", 0);
    OtherName(MULTI, "setex", 0);
    OtherName(MULTI, "bitop", 0);
    OtherName(MULTI, "rpush", 0);
    OtherName(MULTI, "hmset", 0);
    hide Named;
  }

  lemma RPushName()
    ensures Lookup(RPUSH) == Some(RPush)
  {
    assert Named(RPUSH, "rpush");
    OtherName(RPUSH, "setnx", 0);
    OtherName(RPUSH, "setex", 0);
    OtherName(RPUSH, "bitop", 0);
    hide Named;
  }

  lemma SAddName()
    ensures Lookup(SADD) == Some(SAdd)
  {
    assert Named(SADD, "sadd");
    OtherName(SADD, "type", 0);
    OtherName(SADD, "move", 0);
    hide Named;
  }

  lemma HMSetName()
    ensures Lookup(HMSET) == Some(HMSet)
  {
    assert Named(HMSET, "hmset");
    OtherName(HMSET, "setnx", 0);
    OtherName(HMSET, "setex", 0);
    OtherName(HMSET, "bitop", 0);
    OtherName(HMSET, "rpush", 0);
    hide Named;
  }

  /** The names the server itself writes mean the commands they should. */
  lemma Names()
    ensures Lookup(DEL) == Some(Del)
    ensures Lookup(SET) == Some(Set)
    ensures Lookup(PEXPIREAT) == Some(PExpireAt)
    ensures Lookup(SELECT) == Some(Select)
    ensures Lookup(MULTI) == Some(Multi)
    ensures Lookup(RPUSH) == Some(RPush)
    ensures Lookup(SADD) == Some(SAdd)
    ensures Lookup(HMSET) == Some(HMSet)
  {
    hide *;
    DelName();
    SetName();
    PExpireAtName();
    SelectName();
    MultiName();
    RPushName();
    SAddName();
    HMSetName();
  }
}
