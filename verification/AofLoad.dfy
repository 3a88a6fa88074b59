/** aof.c, loadAppendOnlyFile as it runs: commands are read and executed one at a time, and any
    error ends the server. */
module AofLoad {
  import opened Bytes
  import opened Wire
  import opened Strtol
  import opened Keyspace
  import opened Propagation
  import opened LogFile

  /** fgets: the line, and what is left of the file. */
  method Fgets(fp: Bytestring) returns (line: Bytestring, rest: Bytestring)
    ensures line == Line(fp) && rest == fp[|line|..]
  {
    var n := 0;
    while n < |fp| && n < LINE_ROOM && (n == 0 || fp[n - 1] != LF)
      invariant 0 <= n <= |fp| && n <= LINE_ROOM
      invariant LineLength(fp, LINE_ROOM)
             == n + (if n > 0 && fp[n - 1] == LF then 0 else LineLength(fp[n..], LINE_ROOM - n))
    {
      assert fp[n..][1..] == fp[n + 1..];
      n := n + 1;
    }
    line, rest := fp[..n], fp[n..];
  }

  /** One argument. */
  method ReadArg(fp: Bytestring) returns (r: Option<(Bytestring, Bytestring)>)
    ensures r == ParseArg(fp)
  {
    hide Strtoll, LineLength;
    var buf, rest := Fgets(fp);
    if |buf| == 0 { return None; }
    if buf[0] != DOLLAR { return None; }
    var len := Strtoll(buf[1..]);
    if len < 0 || |rest| < len { return None; }
    var arg := rest[..len];
    rest := rest[len..];
    if |rest| < 2 { return None; }
    assert arg == fp[|buf|..|buf| + len];
    assert rest[2..] == fp[|buf| + len + 2..];
    return Some((arg, rest[2..]));
  }

  /** The loop over the arguments. */
  method ReadArgs(fp: Bytestring, argc: nat) returns (r: Option<(Argv, Bytestring)>)
    ensures r == ParseArgs(fp, argc)
  {
    hide ParseArg;
    var argv: Argv := [];
    var rest := fp;
    var j := 0;
    match ParseArgs(fp, argc) {
      case None =>
      case Some((t, more)) => assert argv + t == t;
    }
    while j < argc
      invariant 0 <= j <= argc && |argv| == j
      invariant ParseArgs(fp, argc)
             == (match ParseArgs(rest, argc - j) case None => None case Some((t, more)) => Some((argv + t, more)))
    {
      var a := ReadArg(rest);
      match a
      case None => return None;
      case Some((arg, more)) =>
        match ParseArgs(more, argc - j - 1) {
          case None =>
          case Some((t, end)) => assert argv + ([arg] + t) == (argv + [arg]) + t;
        }
        argv, rest := argv + [arg], more;
        j := j + 1;
    }
    assert argv + [] == argv;
    return Some((argv, rest));
  }

  method ReadCommand(fp: Bytestring) returns (r: Option<(Argv, Bytestring)>)
    requires fp != []
    ensures r == ParseCommand(fp)
  {
    hide Atoi, LineLength, ParseArgs;
    var buf, rest := Fgets(fp);
    if buf[0] != STAR { return None; }
    var argc := Atoi(buf[1..]);
    if argc < 1 { return None; }
    r := ReadArgs(rest, argc);
  }

  /** Running what is left of the file. */
  function Resume(f: Fake, fp: Bytestring, t: int): Option<Fake>
    requires f.db < |f.w|
  {
    match ParseAll(fp) case None => None case Some(cmds) => RunAll(f, cmds, t)
  }

  lemma ResumeStep(f: Fake, fp: Bytestring, t: int)
    requires f.db < |f.w| && fp != []
    ensures Resume(f, fp, t)
         == (match ParseCommand(fp)
             case None => None
             case Some((argv, rest)) =>
               match RunOne(f, argv, t) case None => None case Some(g) => Resume(g, rest, t))
  {
    hide RunOne, ParseCommand;
    match ParseCommand(fp)
    case None =>
    case Some((argv, rest)) =>
      match ParseAll(rest)
      case None =>
      case Some(cmds) => assert ([argv] + cmds)[1..] == cmds;
  }

  /** loadAppendOnlyFile, into n empty databases. None stands for exit(1). */
  method LoadAppendOnlyFile(n: nat, file: Bytestring, t: int) returns (r: Option<World>)
    requires n > 0
    ensures r == LoadFile(n, file, t)
  {
    hide RunOne, RunAll, ParseAll, ParseCommand;
    var f := Fake(EmptyWorld(n), 0, false);
    var fp := file;
    while fp != []
      invariant f.db < |f.w| && Resume(f, fp, t) == Resume(Fake(EmptyWorld(n), 0, false), file, t)
      decreases |fp|
    {
      ResumeStep(f, fp, t);
      var c := ReadCommand(fp);
      match c
      case None => return None;
      case Some((argv, rest)) =>
        var g := RunOne(f, argv, t);
        if g == None { return None; }
        f, fp := g.value, rest;
    }
    assert Resume(f, [], t) == Some(f) by { ResumeEnd(f, t); }
    if f.multi { return None; }
    return Some(f.w);
  }

  lemma ResumeEnd(f: Fake, t: int)
    requires f.db < |f.w|
    ensures Resume(f, [], t) == Some(f)
  {
  }
}
