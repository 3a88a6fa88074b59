/** redis-check-aof on a log the server wrote and a crash cut short. */
module CheckAofTheorem {
  import opened Bytes
  import opened Wire
  import opened Strtol
  import opened Commands
  import opened Keyspace
  import opened Effects
  import opened Propagation
  import opened LogFile
  import opened CheckAofModel

  /** Where the first m commands end. */
  function Boundary(cmds: seq<Argv>, m: nat): nat
    requires m <= |cmds|
  {
    |CatAll(cmds[..m])|
  }

  lemma BoundaryStep(cmds: seq<Argv>, m: nat)
    requires 0 < m <= |cmds|
    ensures Boundary(cmds, m) == |Cat(cmds[0])| + Boundary(cmds[1..], m - 1)
    ensures cmds[..m][1..] == cmds[1..][..m - 1] && cmds[..m] == [cmds[0]] + cmds[1..][..m - 1]
  {
    hide Cat;
    assert cmds[..m][1..] == cmds[1..][..m - 1];
  }

  lemma BoundaryZero(cmds: seq<Argv>)
    ensures Boundary(cmds, 0) == 0
  {
  }

  /** No transaction is open after the first j commands, and j is the last such number whose commands
      fit in k bytes. */
  ghost predicate LastClosed(cmds: seq<Argv>, k: nat, multi: nat, j: nat)
  {
    && j <= |cmds| && Boundary(cmds, j) <= k && MultiAfter(cmds[..j], multi) == Some(0)
    && forall i :: j < i <= |cmds| && Boundary(cmds, i) <= k ==> MultiAfter(cmds[..i], multi) != Some(0)
  }

  ghost predicate NeverClosed(cmds: seq<Argv>, k: nat, multi: nat)
  {
    forall i :: 0 <= i <= |cmds| && Boundary(cmds, i) <= k ==> MultiAfter(cmds[..i], multi) != Some(0)
  }

  /** A cut in the first command. */
  lemma CutsFirst(cmds: seq<Argv>, k: nat)
    requires cmds != [] && k < |Cat(cmds[0])|
    ensures k <= |CatAll(cmds)| && Cut(CatAll(cmds)[..k], Cat(cmds[0]))
    ensures forall i :: 0 < i <= |cmds| ==> Boundary(cmds, i) > k
  {
    hide Cat;
    assert CatAll(cmds)[..k] == Cat(cmds[0])[..k];
    forall i | 0 < i <= |cmds| ensures Boundary(cmds, i) > k { BoundaryStep(cmds, i); }
  }

  /** A cut after the first command. */
  lemma CutsLater(cmds: seq<Argv>, k: nat)
    requires cmds != [] && |Cat(cmds[0])| <= k <= |CatAll(cmds)|
    ensures var n := |Cat(cmds[0])|;
      k - n <= |CatAll(cmds[1..])| && CatAll(cmds)[..k] == Cat(cmds[0]) + CatAll(cmds[1..])[..k - n]
  {
    hide Cat;
  }

  lemma {:induction false} ProcessFinds(cmds: seq<Argv>, k: nat, at: nat, pos: nat, multi: nat)
      returns (j: nat, found: bool)
    requires WellFormed(cmds, multi) && k <= |CatAll(cmds)|
    ensures var r := Process(CatAll(cmds)[..k], at, pos, multi);
      if found then LastClosed(cmds, k, multi, j) && r == at + Boundary(cmds, j)
      else multi != 0 && NeverClosed(cmds, k, multi) && r == pos
    decreases |cmds|
  {
    var file := CatAll(cmds)[..k];
    j, found := 0, multi == 0;
    BoundaryZero(cmds);
    hide Boundary, Cat;
    if cmds == [] {
      assert file == [];
    } else if k < |Cat(cmds[0])| {
      assert cmds[0] in cmds;
      CutsFirst(cmds, k);
      CutCommand(cmds[0], file, at, pos, multi);
      hide Process, CatAll;
      assert cmds[..0] == [];
    } else {
      assert cmds[0] in cmds;
      j, found := ProcessFindsLater(cmds, k, at, pos, multi);
    }
  }

  lemma {:induction false} ProcessFindsLater(cmds: seq<Argv>, k: nat, at: nat, pos: nat, multi: nat)
      returns (j: nat, found: bool)
    requires WellFormed(cmds, multi) && cmds != [] && |Cat(cmds[0])| <= k <= |CatAll(cmds)|
    ensures var r := Process(CatAll(cmds)[..k], at, pos, multi);
      if found then LastClosed(cmds, k, multi, j) && r == at + Boundary(cmds, j)
      else multi != 0 && NeverClosed(cmds, k, multi) && r == pos
    decreases |cmds|, 0
  {
    hide Boundary, Cat, Process, CatAll, Enter, Fits;
    var n, p := |Cat(cmds[0])|, if multi == 0 then at else pos;
    assert cmds[0] in cmds;
    assert Fits(cmds[0]) && cmds[0] != [] by { FitsNonempty(cmds[0]); }
    var m := Enter(cmds[0][0], multi).value;
    CutsLater(cmds, k);
    ProcessStep(cmds[0], CatAll(cmds[1..])[..k - n], at, pos, multi);
    j, found := ProcessFinds(cmds[1..], k - n, at + n, p, m);
    forall i | 0 < i <= |cmds|
      ensures Boundary(cmds, i) == n + Boundary(cmds[1..], i - 1)
      ensures MultiAfter(cmds[..i], multi) == MultiAfter(cmds[1..][..i - 1], m)
    {
      BoundaryStep(cmds, i);
    }
    BoundaryZero(cmds);
    if found {
      j := j + 1;
    } else if multi == 0 {
      j, found := 0, true;
    }
  }

  lemma FitsNonempty(argv: Argv)
    requires Fits(argv)
    ensures argv != []
  {
  }

  /** A log the server wrote, cut anywhere: the tool keeps the longest part that ends between two
      commands with no transaction open. */
  lemma KeepsTheMost(cmds: seq<Argv>, k: nat) returns (j: nat)
    requires WellFormed(cmds, 0) && k <= |CatAll(cmds)|
    ensures LastClosed(cmds, k, 0, j) && SafeLength(CatAll(cmds)[..k]) == Boundary(cmds, j)
  {
    hide Process, CatAll, Boundary;
    var found;
    j, found := ProcessFinds(cmds, k, 0, 0, 0);
  }

  // ----- what is kept can be loaded, and no more could be -----

  lemma NamedIsWord(s: Bytestring, name: string)
    requires Named(s, name)
    ensures IsWord(s, name)
  {
  }

  /** Only the name itself, among the names of commands, is this word. */
  lemma WordsAreNames(s: Bytestring)
    requires Lookup(s).Some?
    ensures IsWord(s, "multi") <==> Lookup(s) == Some(Multi)
    ensures IsWord(s, "exec") <==> Lookup(s) == Some(Exec)
  {
    if Lookup(s) == Some(Multi) { NamedIsWord(s, "multi"); }
    if Lookup(s) == Some(Exec) { NamedIsWord(s, "exec"); }
    if IsWord(s, "multi") { WordNames(s, "multi"); }
    if IsWord(s, "exec") { WordNames(s, "exec"); }
  }

  lemma WordNames(s: Bytestring, word: string)
    requires Lookup(s).Some? && IsWord(s, word) && (word == "multi" || word == "exec")
    ensures Lookup(s) == Some(if word == "multi" then Multi else Exec)
  {
    NoNul(s);
    var last, i := |word| - 1, if |word| < |s| then |word| else 0;
    assert Lower(At(s, last)) == word[last] as int && last < |s|;
    assert s[i] in s && At(s, i) == s[i];
    assert |s| == |word|;
    assert Named(s, word);
    if word == "multi" {
      assert Lower(s[0]) == 'm' as int;
      OtherName(s, "setnx", 0);
      OtherName(s, "setex", 0);
      OtherName(s, "bitop", 0);
      OtherName(s, "rpush", 0);
      OtherName(s, "hmset", 0);
    } else {
      assert Lower(s[0]) == 'e' as int;
      OtherName(s, "type", 0);
      OtherName(s, "move", 0);
      OtherName(s, "sadd", 0);
    }
    hide Named;
  }

  lemma NoNul(s: Bytestring)
    requires Lookup(s).Some?
    ensures NUL !in s && |s| >= 3
  {
    LookupNames(s);
    NamesAreLetters(Lookup(s).value);
    hide Lookup, Name;
  }

  lemma EnterRuns(f: Fake, argv: Argv, t: int)
    requires f.db < |f.w| && Runnable(argv) && Enter(argv[0], if f.multi then 1 else 0).Some?
    ensures var r := RunOne(f, argv, t);
      r.Some? && Enter(argv[0], if f.multi then 1 else 0) == Some(if r.value.multi then 1 else 0)
  {
    WordsAreNames(argv[0]);
    hide Lookup, IsWord, Effect, SelectedDb;
  }

  /** The loader goes through a log with matching MULTI and EXEC, and ends inside MULTI exactly if one
      is open. */
  lemma {:induction false} RunsToItsEnd(f: Fake, cmds: seq<Argv>, t: int)
    requires f.db < |f.w| && (forall argv :: argv in cmds ==> Runnable(argv))
    requires MultiAfter(cmds, if f.multi then 1 else 0).Some?
    ensures var r := RunAll(f, cmds, t);
      r.Some? && MultiAfter(cmds, if f.multi then 1 else 0) == Some(if r.value.multi then 1 else 0)
    decreases |cmds|
  {
    if cmds != [] {
      hide Runnable, Enter, RunOne;
      assert cmds[0] in cmds;
      RunnableNonempty(cmds[0]);
      EnterRuns(f, cmds[0], t);
      RunsToItsEnd(RunOne(f, cmds[0], t).value, cmds[1..], t);
    }
  }

  lemma RunnableNonempty(argv: Argv)
    requires Runnable(argv)
    ensures argv != []
  {
  }

  /** The bytes of a log, cut anywhere, can be read if and only if the cut is between commands. */
  lemma {:induction false} ParseCut(cmds: seq<Argv>, p: nat) returns (i: nat)
    requires (forall argv :: argv in cmds ==> Fits(argv)) && p <= |CatAll(cmds)|
    ensures i <= |cmds| && Boundary(cmds, i) <= p
    ensures ParseAll(CatAll(cmds)[..p]) == if p == Boundary(cmds, i) then Some(cmds[..i]) else None
    decreases |cmds|
  {
    var file := CatAll(cmds)[..p];
    i := 0;
    BoundaryZero(cmds);
    hide Boundary, Cat, ParseCommand, Fits;
    if p == 0 {
      assert file == [] && cmds[..0] == [];
    } else if p < |Cat(cmds[0])| {
      assert cmds[0] in cmds;
      CutsFirst(cmds, p);
      CutCommand(cmds[0], file, 0, 0, 0);
    } else {
      i := ParseCutLater(cmds, p);
    }
  }

  lemma {:induction false} ParseCutLater(cmds: seq<Argv>, p: nat) returns (i: nat)
    requires (forall argv :: argv in cmds ==> Fits(argv)) && cmds != [] && 0 < |Cat(cmds[0])| <= p <= |CatAll(cmds)|
    ensures i <= |cmds| && Boundary(cmds, i) <= p
    ensures ParseAll(CatAll(cmds)[..p]) == if p == Boundary(cmds, i) then Some(cmds[..i]) else None
    decreases |cmds|, 0
  {
    hide Boundary, Cat, ParseCommand, Fits, CatAll;
    var n := |Cat(cmds[0])|;
    assert cmds[0] in cmds;
    CutsLater(cmds, p);
    var rest := CatAll(cmds[1..])[..p - n];
    CommandParses(cmds[0], rest);
    i := ParseCut(cmds[1..], p - n);
    BoundaryStep(cmds, i + 1);
    i := i + 1;
  }

  lemma {:induction false} MultiPrefix(cmds: seq<Argv>, i: nat, multi: nat)
    requires MultiAfter(cmds, multi).Some? && i <= |cmds|
    ensures MultiAfter(cmds[..i], multi).Some?
    decreases |cmds|
  {
    if i > 0 {
      assert cmds[..i][1..] == cmds[1..][..i - 1];
      hide Enter;
      MultiPrefix(cmds[1..], i - 1, Enter(cmds[0][0], multi).value);
    }
  }

  lemma MultiIsBit(cmds: seq<Argv>, i: nat, n: nat, t: int)
    requires n > 0 && i <= |cmds| && (forall argv :: argv in cmds ==> Runnable(argv)) && MultiAfter(cmds, 0).Some?
    ensures Load(n, cmds[..i], t).Some? <==> MultiAfter(cmds[..i], 0) == Some(0)
  {
    MultiPrefix(cmds, i, 0);
    var f := Fake(EmptyWorld(n), 0, false);
    assert forall argv :: argv in cmds[..i] ==> argv in cmds;
    hide Runnable, MultiAfter, RunAll;
    RunsToItsEnd(f, cmds[..i], t);
  }

  /** The repaired file can be loaded, as the commands that were kept whole; and nothing longer, of
      what the crash left, can be. */
  lemma RepairedLoads(cmds: seq<Argv>, k: nat, n: nat, t: int) returns (j: nat)
    requires WellFormed(cmds, 0) && k <= |CatAll(cmds)| && n > 0 && (forall argv :: argv in cmds ==> Runnable(argv))
    ensures var file := CatAll(cmds)[..k]; var r := SafeLength(file);
      && LastClosed(cmds, k, 0, j) && r == Boundary(cmds, j)
      && LoadFile(n, file[..r], t) == Load(n, cmds[..j], t)
      && LoadFile(n, file[..r], t).Some?
      && (forall p :: r < p <= k ==> LoadFile(n, file[..p], t) == None)
  {
    hide Process, CatAll, Boundary, MultiAfter, Runnable, Fits, Load, ParseAll;
    var file := CatAll(cmds)[..k];
    j := KeepsTheMost(cmds, k);
    var r := Boundary(cmds, j);
    MultiIsBit(cmds, j, n, t);
    assert file[..r] == CatAll(cmds)[..r];
    BoundaryParses(cmds, j);
    forall p | r < p <= k ensures LoadFile(n, file[..p], t) == None {
      assert file[..p] == CatAll(cmds)[..p];
      LongerFails(cmds, k, j, p, n, t);
    }
  }

  lemma BoundaryParses(cmds: seq<Argv>, j: nat)
    requires (forall argv :: argv in cmds ==> Fits(argv)) && j <= |cmds|
    ensures Boundary(cmds, j) <= |CatAll(cmds)| && ParseAll(CatAll(cmds)[..Boundary(cmds, j)]) == Some(cmds[..j])
  {
    hide ParseAll, Fits;
    assert cmds == cmds[..j] + cmds[j..];
    CatAllAppend(cmds[..j], cmds[j..]);
    assert CatAll(cmds)[..Boundary(cmds, j)] == CatAll(cmds[..j]);
    LogParses(cmds[..j]);
  }

  lemma LongerFails(cmds: seq<Argv>, k: nat, j: nat, p: nat, n: nat, t: int)
    requires WellFormed(cmds, 0) && n > 0 && (forall argv :: argv in cmds ==> Runnable(argv))
    requires LastClosed(cmds, k, 0, j) && Boundary(cmds, j) < p <= k && p <= |CatAll(cmds)|
    ensures LoadFile(n, CatAll(cmds)[..p], t) == None
  {
    hide CatAll, MultiAfter, Runnable, Fits, Load, ParseAll, Boundary;
    var i := ParseCut(cmds, p);
    if p == Boundary(cmds, i) {
      MultiIsBit(cmds, i, n, t);
      if i <= j { BoundaryMono(cmds, i, j); }
    }
  }

  lemma BoundaryMono(cmds: seq<Argv>, i: nat, j: nat)
    requires i <= j <= |cmds|
    ensures Boundary(cmds, i) <= Boundary(cmds, j)
  {
    assert cmds[..j] == cmds[..i] + cmds[i..j];
    CatAllAppend(cmds[..i], cmds[i..j]);
  }
}
