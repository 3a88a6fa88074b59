/** multi.c as it updates the clients and each database's index of watched keys. */
module WatchIndex {
  import opened Bytes
  import opened Wire
  import opened Keyspace
  import opened WatchModel

  /** db->watched_keys of every database: for each watched key the clients that watch it. */
  type Index = seq<map<Bytestring, seq<ClientId>>>

  predicate Distinct<T(==)>(s: seq<T>)
  {
    forall i, j :: 0 <= i < j < |s| ==> s[i] != s[j]
  }

  function Listed(index: Index, t: Target): seq<ClientId>
  {
    if t.db < |index| && t.key in index[t.db] then index[t.db][t.key] else []
  }

  /** The lists and the index say the same; neither repeats anything, and no entry is empty. */
  ghost predicate Mirror(clients: Clients, index: Index)
  {
    && (forall c :: c in clients ==> Distinct(clients[c].watched))
    && (forall t :: Distinct(Listed(index, t)))
    && (forall t, c :: c in Listed(index, t) <==> c in clients && t in clients[c].watched)
    && (forall d, key :: 0 <= d < |index| && key in index[d] ==> index[d][key] != [])
  }

  function Enlisted(index: Index, t: Target, c: ClientId): Index
    requires t.db < |index|
  {
    index[t.db := index[t.db][t.key := Listed(index, t) + [c]]]
  }

  /** The client is taken out of the key's list, and the entry goes when the list is empty. */
  function Delisted(index: Index, t: Target, rest: seq<ClientId>): Index
    requires t.db < |index|
  {
    index[t.db := if rest == [] then index[t.db] - {t.key} else index[t.db][t.key := rest]]
  }

  lemma EnlistedListed(index: Index, t: Target, c: ClientId, u: Target)
    requires t.db < |index|
    ensures Listed(Enlisted(index, t, c), u) == if u == t then Listed(index, t) + [c] else Listed(index, u)
  {
  }

  lemma DelistedListed(index: Index, t: Target, rest: seq<ClientId>, u: Target)
    requires t.db < |index|
    ensures Listed(Delisted(index, t, rest), u) == if u == t then rest else Listed(index, u)
  {
  }

  lemma DistinctSnoc<T>(s: seq<T>, x: T)
    requires Distinct(s) && x !in s
    ensures Distinct(s + [x])
  {
  }

  lemma MirrorEnlists(clients: Clients, index: Index, c: ClientId, t: Target)
    requires Mirror(clients, index) && c in clients && t !in clients[c].watched && t.db < |index|
    ensures Mirror(clients[c := clients[c].(watched := clients[c].watched + [t])], Enlisted(index, t, c))
  {
    var x := clients[c].(watched := clients[c].watched + [t]);
    var more, grown := clients[c := x], Enlisted(index, t, c);
    hide Distinct;
    DistinctSnoc(clients[c].watched, t);
    assert c !in Listed(index, t);
    DistinctSnoc(Listed(index, t), c);
    forall u
      ensures Distinct(Listed(grown, u))
      ensures forall d :: d in Listed(grown, u) <==> d in more && u in more[d].watched
    {
      EnlistedListed(index, t, c, u);
    }
  }

  lemma MirrorDelists(clients: Clients, index: Index, c: ClientId, t: Target, watched: seq<Target>, rest: seq<ClientId>)
    requires Mirror(clients, index) && c in clients && clients[c].watched == [t] + watched && t.db < |index|
    requires Distinct(rest) && forall d :: d in rest <==> d in Listed(index, t) && d != c
    ensures Mirror(clients[c := clients[c].(watched := watched)], Delisted(index, t, rest))
  {
    var less, shrunk := clients[c := clients[c].(watched := watched)], Delisted(index, t, rest);
    DistinctTail(t, watched);
    hide Distinct;
    forall u
      ensures Distinct(Listed(shrunk, u))
      ensures forall d :: d in Listed(shrunk, u) <==> d in less && u in less[d].watched
    {
      DelistedListed(index, t, rest, u);
    }
  }

  lemma DistinctTail(t: Target, watched: seq<Target>)
    requires Distinct([t] + watched)
    ensures Distinct(watched) && t !in watched
  {
    var all := [t] + watched;
    assert forall i :: 0 <= i < |watched| ==> watched[i] == all[i + 1] && all[0] == t;
  }

  /** Flags and queues do not matter to the index. */
  lemma MirrorSame(clients: Clients, more: Clients, index: Index)
    requires Mirror(clients, index) && clients.Keys == more.Keys
    requires forall c :: c in clients ==> more[c].watched == clients[c].watched
    ensures Mirror(more, index)
  {
    hide Distinct, Listed;
    forall t, c ensures c in Listed(index, t) <==> c in more && t in more[c].watched {
      assert c in clients <==> c in clients.Keys;
      assert c in more <==> c in more.Keys;
    }
  }

  class Server {
    var clients: Clients
    var index: Index

    ghost predicate Valid()
      reads this
    {
      Mirror(clients, index)
    }

    constructor (dbnum: nat)
      ensures Valid() && clients == map[] && |index| == dbnum
    {
      clients := map[];
      index := seq(dbnum, i => map[]);
    }

    /** createClient. */
    method CreateClient(c: ClientId)
      requires Valid() && c !in clients
      modifies this`clients
      ensures Valid() && clients == old(clients)[c := NEW_CLIENT]
    {
      clients := clients[c := NEW_CLIENT];
    }

    /** watchForKey. */
    method WatchForKey(c: ClientId, t: Target)
      requires Valid() && c in clients && t.db < |index|
      modifies this
      ensures Valid() && |index| == old(|index|)
      ensures clients == old(clients)[c := if t in old(clients)[c].watched then old(clients)[c]
                                           else old(clients)[c].(watched := old(clients)[c].watched + [t])]
    {
      hide Mirror;
      var x := clients[c];
      var i := 0;
      while i < |x.watched|
        invariant 0 <= i <= |x.watched| && t !in x.watched[..i]
      {
        if x.watched[i] == t { return; }
        i := i + 1;
      }
      assert t !in x.watched by { assert x.watched[..i] == x.watched; }
      MirrorEnlists(clients, index, c, t);
      index := Enlisted(index, t, c);
      clients := clients[c := x.(watched := x.watched + [t])];
    }

    /** unwatchAllKeys. */
    method UnwatchAllKeys(c: ClientId)
      requires Valid() && c in clients
      modifies this
      ensures Valid() && |index| == old(|index|)
      ensures clients == old(clients)[c := old(clients)[c].(watched := [])]
    {
      hide Mirror;
      ghost var x := clients[c];
      while clients[c].watched != []
        invariant Valid() && |index| == old(|index|) && c in clients
        invariant clients == old(clients)[c := x.(watched := clients[c].watched)]
        decreases |clients[c].watched|
      {
        var t, watched := clients[c].watched[0], clients[c].watched[1..];
        assert clients[c].watched == [t] + watched;
        WatchedIsListed(clients, index, c, t);
        var rest := Remove(Listed(index, t), c);
        MirrorDelists(clients, index, c, t, watched, rest);
        index := Delisted(index, t, rest);
        clients := clients[c := clients[c].(watched := watched)];
      }
    }

    /** listDelNode of listSearchKey. */
    static method Remove(s: seq<ClientId>, c: ClientId) returns (r: seq<ClientId>)
      requires Distinct(s) && c in s
      ensures Distinct(r) && forall d :: d in r <==> d in s && d != c
    {
      var i := 0;
      while s[i] != c
        invariant 0 <= i < |s| && c in s[i..] && c !in s[..i]
        decreases |s| - i
      {
        i := i + 1;
      }
      r := s[..i] + s[i + 1..];
      assert s == s[..i] + [c] + s[i + 1..];
    }

    /** touchWatchedKey. */
    method TouchWatchedKey(t: Target)
      requires Valid()
      modifies this`clients
      ensures Valid() && clients == map c | c in old(clients) :: Touched(old(clients)[c], t)
    {
      hide Mirror;
      ghost var before := clients;
      var list := Listed(index, t);
      ListedAre(clients, index, t);
      var i := 0;
      while i < |list|
        invariant 0 <= i <= |list| && clients.Keys == before.Keys
        invariant forall c :: c in before ==>
          clients[c] == if c in list[..i] then before[c].(dirtyCas := true) else before[c]
      {
        var c := list[i];
        assert c in list && c in before;
        clients := clients[c := clients[c].(dirtyCas := true)];
        i := i + 1;
      }
      assert list[..|list|] == list;
      MirrorSame(before, clients, index);
    }

    /** touchWatchedKeysOnFlush; `order` is server.clients. */
    method TouchWatchedKeysOnFlush(dbid: int, present: set<Target>, order: seq<ClientId>)
      requires Valid() && forall c :: c in clients <==> c in order
      modifies this`clients
      ensures Valid() && clients == map c | c in old(clients) :: Flushed(old(clients)[c], dbid, present)
    {
      hide Mirror, Flushed;
      ghost var before := clients;
      var i := 0;
      while i < |order|
        invariant 0 <= i <= |order| && clients.Keys == before.Keys
        invariant forall c :: c in before ==>
          clients[c] == if c in order[..i] then Flushed(before[c], dbid, present) else before[c]
      {
        var c := order[i];
        assert c in order && c in before;
        FlushedWatches(before[c], dbid, present);
        var hit := AnyFlushed(clients[c].watched, dbid, present);
        FlushedIs(before[c], dbid, present, hit);
        FlushedTwice(before[c], dbid, present);
        if hit { clients := clients[c := clients[c].(dirtyCas := true)]; }
        i := i + 1;
      }
      assert order[..|order|] == order;
      assert forall c :: c in before ==> clients[c].watched == before[c].watched by {
        forall c | c in before
          ensures clients[c].watched == before[c].watched { FlushedWatches(before[c], dbid, present); }
      }
      MirrorSame(before, clients, index);
    }

    static method AnyFlushed(watched: seq<Target>, dbid: int, present: set<Target>) returns (hit: bool)
      ensures hit <==> exists t :: t in watched && Flushes(dbid, present, t)
    {
      hit := false;
      var i := 0;
      while i < |watched|
        invariant 0 <= i <= |watched| && (hit <==> exists t :: t in watched[..i] && Flushes(dbid, present, t))
      {
        AnySnoc(watched, i, dbid, present);
        if dbid == -1 || watched[i].db == dbid {
          if watched[i] in present { hit := true; }
        }
        i := i + 1;
      }
      assert watched[..|watched|] == watched;
    }

    // ----- commands -----

    /** watchCommand, for one key. */
    method Watch(c: ClientId, t: Target)
      requires Valid() && c in clients && t.db < |index|
      modifies this
      ensures Valid() && |index| == old(|index|)
      ensures clients == old(clients)[c := Next(old(clients)[c], Event.Watch(c, t))]
    {
      if clients[c].multi { return; }
      WatchForKey(c, t);
    }

    method Unwatch(c: ClientId)
      requires Valid() && c in clients
      modifies this
      ensures Valid() && |index| == old(|index|)
      ensures clients == old(clients)[c := Next(old(clients)[c], Event.Unwatch(c))]
    {
      UnwatchAllKeys(c);
      SetFlags(c, clients[c].(dirtyCas := false));
    }

    method SetFlags(c: ClientId, x: Client)
      requires Valid() && c in clients && x.watched == clients[c].watched
      modifies this`clients
      ensures Valid() && clients == old(clients)[c := x]
    {
      hide Mirror;
      MirrorSame(clients, clients[c := x], index);
      clients := clients[c := x];
    }

    /** multiCommand; nested calls are refused. */
    method Multi(c: ClientId)
      requires Valid() && c in clients
      modifies this`clients
      ensures Valid() && clients == old(clients)[c := Next(old(clients)[c], Event.Multi(c))]
    {
      if clients[c].multi { return; }
      SetFlags(c, clients[c].(multi := true));
    }

    /** queueMultiCommand, for a client inside MULTI. */
    method QueueMultiCommand(c: ClientId, argv: Argv)
      requires Valid() && c in clients && clients[c].multi
      modifies this`clients
      ensures Valid() && clients == old(clients)[c := Next(old(clients)[c], Enqueue(c, argv))]
    {
      SetFlags(c, clients[c].(queue := clients[c].queue + [argv]));
    }

    method FlagTransaction(c: ClientId)
      requires Valid() && c in clients
      modifies this`clients
      ensures Valid() && clients == old(clients)[c := Next(old(clients)[c], QueueError(c))]
    {
      if clients[c].multi { SetFlags(c, clients[c].(dirtyExec := true)); }
    }

    method DiscardTransaction(c: ClientId)
      requires Valid() && c in clients
      modifies this
      ensures Valid() && |index| == old(|index|) && clients == old(clients)[c := NEW_CLIENT]
    {
      SetFlags(c, clients[c].(queue := [], multi := false, dirtyCas := false, dirtyExec := false));
      UnwatchAllKeys(c);
    }

    /** discardCommand. */
    method Discard(c: ClientId)
      requires Valid() && c in clients
      modifies this
      ensures Valid() && |index| == old(|index|)
      ensures clients == old(clients)[c := Next(old(clients)[c], Event.Discard(c))]
    {
      if !clients[c].multi { return; }
      DiscardTransaction(c);
    }

    /** execCommand, as far as it decides whether the queue is run. */
    method Exec(c: ClientId) returns (v: Verdict)
      requires Valid() && c in clients
      modifies this
      ensures Valid() && |index| == old(|index|) && v == Judge(old(clients)[c])
      ensures clients == old(clients)[c := Next(old(clients)[c], Event.Exec(c))]
    {
      if !clients[c].multi { return NoMulti; }
      if clients[c].dirtyCas || clients[c].dirtyExec {
        v := if clients[c].dirtyExec then Aborted else NilReply;
        DiscardTransaction(c);
        return;
      }
      UnwatchAllKeys(c);
      v := Runs(clients[c].queue);
      DiscardTransaction(c);
    }

    /** freeClient. */
    method FreeClient(c: ClientId)
      requires Valid() && c in clients
      modifies this
      ensures Valid() && |index| == old(|index|) && clients == old(clients) - {c}
    {
      UnwatchAllKeys(c);
      MirrorForgets(clients, index, c);
      clients := clients - {c};
    }
  }

  lemma WatchedIsListed(clients: Clients, index: Index, c: ClientId, t: Target)
    requires Mirror(clients, index) && c in clients && t in clients[c].watched
    ensures t.db < |index| && c in Listed(index, t) && Distinct(Listed(index, t))
  {
  }

  lemma ListedAre(clients: Clients, index: Index, t: Target)
    requires Mirror(clients, index)
    ensures forall c :: c in Listed(index, t) <==> c in clients && t in clients[c].watched
  {
  }

  lemma MirrorForgets(clients: Clients, index: Index, c: ClientId)
    requires Mirror(clients, index) && c in clients && clients[c].watched == []
    ensures Mirror(clients - {c}, index)
  {
    hide Distinct, Listed;
  }

  lemma AnySnoc(watched: seq<Target>, i: nat, dbid: int, present: set<Target>)
    requires i < |watched|
    ensures (exists t :: t in watched[..i + 1] && Flushes(dbid, present, t)) <==>
            (exists t :: t in watched[..i] && Flushes(dbid, present, t)) || Flushes(dbid, present, watched[i])
  {
    assert watched[..i + 1] == watched[..i] + [watched[i]];
    hide Flushes;
    if Flushes(dbid, present, watched[i]) { assert watched[i] in watched[..i + 1]; }
    if t :| t in watched[..i] && Flushes(dbid, present, t) { assert t in watched[..i + 1]; }
  }

  lemma FlushedIs(x: Client, dbid: int, present: set<Target>, hit: bool)
    requires hit <==> exists t :: t in x.watched && Flushes(dbid, present, t)
    ensures Flushed(x, dbid, present) == if hit then x.(dirtyCas := true) else x
  {
  }

  lemma FlushedTwice(x: Client, dbid: int, present: set<Target>)
    ensures Flushed(Flushed(x, dbid, present), dbid, present) == Flushed(x, dbid, present)
  {
  }

  lemma FlushedWatches(x: Client, dbid: int, present: set<Target>)
    ensures Flushed(x, dbid, present).watched == x.watched
  {
  }
}
