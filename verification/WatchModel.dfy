/** multi.c, on values: which transactions must fail, as a machine and as a statement about history. */
module WatchModel {
  import opened Wire
  import opened Keyspace

  type ClientId = nat

  /** A client's watched keys, its flags REDIS_MULTI, REDIS_DIRTY_CAS and REDIS_DIRTY_EXEC, and its
      queue. */
  datatype Client = Client(watched: seq<Target>, multi: bool, dirtyCas: bool, dirtyExec: bool, queue: seq<Argv>)

  const NEW_CLIENT := Client([], false, false, false, [])

  type Clients = map<ClientId, Client>

  /** What the server does, as far as transactions are concerned. A Flush names a database, or -1 for
      all, and comes with the keys that exist at that moment. */
  datatype Event = Connect(c: ClientId) | Disconnect(c: ClientId)
                 | Watch(c: ClientId, t: Target) | Unwatch(c: ClientId)
                 | Multi(c: ClientId) | Enqueue(c: ClientId, argv: Argv) | QueueError(c: ClientId)
                 | Discard(c: ClientId) | Exec(c: ClientId)
                 | Touch(t: Target)
                 | Flush(dbid: int, present: set<Target>)

  // ----- the machine -----

  /** watchForKey: a key is not listed twice. */
  function Watched(x: Client, t: Target): Client
  {
    if x.multi || t in x.watched then x else x.(watched := x.watched + [t])
  }

  function Touched(x: Client, t: Target): Client
  {
    if t in x.watched then x.(dirtyCas := true) else x
  }

  predicate Flushes(dbid: int, present: set<Target>, t: Target)
  {
    (dbid == -1 || t.db == dbid) && t in present
  }

  function Flushed(x: Client, dbid: int, present: set<Target>): Client
  {
    if exists t :: t in x.watched && Flushes(dbid, present, t) then x.(dirtyCas := true) else x
  }

  /** One client's part in an event that concerns it or everyone. */
  function Next(x: Client, e: Event): Client
  {
    match e
    case Connect(_) | Disconnect(_) => NEW_CLIENT
    case Watch(_, t) => Watched(x, t)
    case Unwatch(_) => x.(watched := [], dirtyCas := false)
    case Multi(_) => x.(multi := true)
    case Enqueue(_, argv) => if x.multi then x.(queue := x.queue + [argv]) else x
    case QueueError(_) => if x.multi then x.(dirtyExec := true) else x
    case Discard(_) | Exec(_) => if x.multi then NEW_CLIENT else x
    case Touch(t) => Touched(x, t)
    case Flush(dbid, present) => Flushed(x, dbid, present)
  }

  predicate Concerns(e: Event, c: ClientId)
  {
    e.Touch? || e.Flush? || e.c == c
  }

  function ClientAfter(run: seq<Event>, c: ClientId): Client
  {
    if run == [] then NEW_CLIENT
    else
      var e, x := run[|run| - 1], ClientAfter(run[..|run| - 1], c);
      if Concerns(e, c) then Next(x, e) else x
  }

  /** What EXEC answers: the commands that are run, nil because of a watched key, or an error. */
  datatype Verdict = Runs(queue: seq<Argv>) | NilReply | Aborted | NoMulti

  function Judge(x: Client): Verdict
  {
    if !x.multi then NoMulti
    else if x.dirtyExec then Aborted
    else if x.dirtyCas then NilReply
    else Runs(x.queue)
  }

  // ----- history -----

  /** The client is inside MULTI: the last of its events that says so is MULTI. */
  predicate InMulti(run: seq<Event>, c: ClientId)
  {
    run != [] &&
    var e := run[|run| - 1];
    if e.Multi? && e.c == c then true
    else if (e.Connect? || e.Disconnect? || e.Discard? || e.Exec?) && e.c == c then false
    else InMulti(run[..|run| - 1], c)
  }

  /** At step k the client gives up everything it watches: UNWATCH, or the end of a transaction. */
  predicate Resets(run: seq<Event>, k: nat, c: ClientId)
    requires k < |run|
  {
    var e := run[k];
    || ((e.Unwatch? || e.Connect? || e.Disconnect?) && e.c == c)
    || ((e.Discard? || e.Exec?) && e.c == c && InMulti(run[..k], c))
  }

  predicate QuietSince(run: seq<Event>, i: nat, c: ClientId)
  {
    forall k :: i < k < |run| ==> !Resets(run, k, c)
  }

  /** At the end of the run the client watches the key: it asked to, outside MULTI, and has not given
      up since. */
  predicate Watching(run: seq<Event>, c: ClientId, t: Target)
  {
    exists j :: 0 <= j < |run| && run[j] == Watch(c, t) && !InMulti(run[..j], c) && QuietSince(run, j, c)
  }

  /** Step i touches a key that the client is watching just then, or flushes one that exists. */
  predicate Hits(run: seq<Event>, i: nat, c: ClientId)
    requires i < |run|
  {
    (run[i].Touch? && Watching(run[..i], c, run[i].t)) ||
    (run[i].Flush? && exists t ::
       t in run[i].present && (run[i].dbid == -1 || t.db == run[i].dbid) && Watching(run[..i], c, t))
  }

  /** Since it last gave up its keys, one that it was then watching was hit. */
  predicate Spoiled(run: seq<Event>, c: ClientId)
  {
    exists i :: 0 <= i < |run| && Hits(run, i, c) && QuietSince(run, i, c)
  }

  /** The client's transaction is over, or the client itself. */
  predicate Closes(e: Event, c: ClientId)
  {
    (e.Connect? || e.Disconnect? || e.Discard? || e.Exec?) && e.c == c
  }

  /** The transaction that is open at the end of the run began at step i. */
  predicate OpenedAt(run: seq<Event>, c: ClientId, i: nat)
  {
    i < |run| && run[i] == Multi(c) && !InMulti(run[..i], c) && forall k :: i < k < |run| ==> !Closes(run[k], c)
  }

  /** The commands the client has sent to be queued, in order. */
  function Enqueued(run: seq<Event>, c: ClientId): seq<Argv>
  {
    if run == [] then []
    else
      var e := run[|run| - 1];
      Enqueued(run[..|run| - 1], c) + if e.Enqueue? && e.c == c then [e.argv] else []
  }

  /** A command of the client has been refused instead of queued. */
  predicate Refused(run: seq<Event>, c: ClientId) { QueueError(c) in run }

  /** What EXEC is to answer, by history. */
  function Foreseen(run: seq<Event>, c: ClientId, i: nat): Verdict
    requires i <= |run|
  {
    if Refused(run[i..], c) then Aborted else if Spoiled(run, c) then NilReply else Runs(Enqueued(run[i..], c))
  }

  // ----- the machine does what history says -----

  lemma {:induction false} MultiIsHistory(run: seq<Event>, c: ClientId)
    ensures ClientAfter(run, c).multi <==> InMulti(run, c)
  {
    if run != [] { MultiIsHistory(run[..|run| - 1], c); }
  }

  /** One more event. */
  lemma ResetsSnoc(run: seq<Event>, e: Event, k: nat, c: ClientId)
    requires k < |run|
    ensures Resets(run + [e], k, c) <==> Resets(run, k, c)
  {
    assert (run + [e])[..k] == run[..k];
  }

  lemma QuietSnoc(run: seq<Event>, e: Event, i: nat, c: ClientId)
    requires i < |run|
    ensures QuietSince(run + [e], i, c) <==> QuietSince(run, i, c) && !Resets(run + [e], |run|, c)
  {
    hide Resets;
    var more := run + [e];
    if QuietSince(run, i, c) && !Resets(more, |run|, c) {
      forall k | i < k < |more| ensures !Resets(more, k, c) {
        if k < |run| { ResetsSnoc(run, e, k, c); }
      }
    }
    if QuietSince(more, i, c) {
      forall k | i < k < |run| ensures !Resets(run, k, c) { ResetsSnoc(run, e, k, c); }
    }
  }

  lemma WatchingSnoc(run: seq<Event>, e: Event, c: ClientId, t: Target)
    ensures Watching(run + [e], c, t) <==>
      || (e == Watch(c, t) && !InMulti(run, c))
      || (Watching(run, c, t) && !Resets(run + [e], |run|, c))
  {
    hide InMulti, Resets, QuietSince;
    var more := run + [e];
    assert more[..|run|] == run;
    if Watching(more, c, t) {
      var j :| 0 <= j < |more| && more[j] == Watch(c, t) && !InMulti(more[..j], c) && QuietSince(more, j, c);
      if j < |run| {
        assert more[..j] == run[..j];
        QuietSnoc(run, e, j, c);
      }
    }
    if Watching(run, c, t) && !Resets(more, |run|, c) {
      var j :| 0 <= j < |run| && run[j] == Watch(c, t) && !InMulti(run[..j], c) && QuietSince(run, j, c);
      assert more[..j] == run[..j];
      QuietSnoc(run, e, j, c);
      assert more[j] == Watch(c, t);
    }
    if e == Watch(c, t) && !InMulti(run, c) {
      assert more[|run|] == e;
      assert QuietSince(more, |run|, c) by { QuietAtEnd(more, c); }
    }
  }

  lemma QuietAtEnd(run: seq<Event>, c: ClientId)
    requires run != []
    ensures QuietSince(run, |run| - 1, c)
  {
  }

  lemma SpoiledSnoc(run: seq<Event>, e: Event, c: ClientId)
    ensures Spoiled(run + [e], c) <==> Hits(run + [e], |run|, c) || (Spoiled(run, c) && !Resets(run + [e], |run|, c))
  {
    hide Resets, QuietSince, Watching;
    var more := run + [e];
    if Spoiled(more, c) {
      var i :| 0 <= i < |more| && Hits(more, i, c) && QuietSince(more, i, c);
      if i < |run| {
        assert more[..i] == run[..i];
        assert Hits(run, i, c);
        QuietSnoc(run, e, i, c);
      }
    }
    if Spoiled(run, c) && !Resets(more, |run|, c) {
      var i :| 0 <= i < |run| && Hits(run, i, c) && QuietSince(run, i, c);
      assert more[..i] == run[..i];
      assert Hits(more, i, c);
      QuietSnoc(run, e, i, c);
    }
    if Hits(more, |run|, c) { QuietAtEnd(more, c); }
  }

  lemma {:induction false} WatchedIsHistory(run: seq<Event>, c: ClientId, t: Target)
    ensures t in ClientAfter(run, c).watched <==> Watching(run, c, t)
  {
    if run == [] {
    } else {
      var e, front := run[|run| - 1], run[..|run| - 1];
      assert run == front + [e];
      WatchedIsHistory(front, c, t);
      MultiIsHistory(front, c);
      WatchingSnoc(front, e, c, t);
      hide Watching;
    }
  }

  /** A transaction is spoiled, and EXEC answers nil, exactly when history says so. */
  lemma {:induction false} DirtyIsHistory(run: seq<Event>, c: ClientId)
    ensures ClientAfter(run, c).dirtyCas <==> Spoiled(run, c)
  {
    if run == [] {
    } else {
      var e, front := run[|run| - 1], run[..|run| - 1];
      assert run == front + [e] && run[..|front|] == front;
      DirtyIsHistory(front, c);
      MultiIsHistory(front, c);
      SpoiledSnoc(front, e, c);
      forall t ensures t in ClientAfter(front, c).watched <==> Watching(front, c, t) { WatchedIsHistory(front, c, t); }
      hide Watching, Spoiled, InMulti;
    }
  }

  predicate Once(w: seq<Target>) { forall i, j :: 0 <= i < j < |w| ==> w[i] != w[j] }

  lemma NextOnce(x: Client, e: Event)
    requires Once(x.watched)
    ensures Once(Next(x, e).watched)
  {
    if e.Watch? && e.t !in x.watched {
      forall i | 0 <= i < |x.watched| ensures x.watched[i] != e.t { assert x.watched[i] in x.watched; }
    }
  }

  /** No key is listed twice. */
  lemma {:induction false} WatchedOnce(run: seq<Event>, c: ClientId)
    ensures Once(ClientAfter(run, c).watched)
  {
    if run != [] {
      hide Once, Next;
      WatchedOnce(run[..|run| - 1], c);
      NextOnce(ClientAfter(run[..|run| - 1], c), run[|run| - 1]);
    } else {
      assert Once([]);
    }
  }

  lemma {:induction false} OutsideIsClean(run: seq<Event>, c: ClientId)
    ensures var x := ClientAfter(run, c); !x.multi ==> x.queue == [] && !x.dirtyExec
  {
    if run != [] { OutsideIsClean(run[..|run| - 1], c); }
  }

  /** Inside MULTI is inside a transaction that began somewhere. */
  lemma {:induction false} MultiOpened(run: seq<Event>, c: ClientId) returns (i: nat)
    ensures InMulti(run, c) ==> OpenedAt(run, c, i)
  {
    i := 0;
    if InMulti(run, c) {
      var front, e := run[..|run| - 1], run[|run| - 1];
      if InMulti(front, c) && !Closes(e, c) {
        i := MultiOpened(front, c);
        assert run[..i] == front[..i];
      } else {
        i := |run| - 1;
      }
    }
  }

  lemma {:induction false} OpenedIsMulti(run: seq<Event>, c: ClientId, i: nat)
    requires OpenedAt(run, c, i)
    ensures InMulti(run, c)
    decreases |run|
  {
    var front := run[..|run| - 1];
    if i < |front| {
      assert run[..i] == front[..i];
      OpenedIsMulti(front, c, i);
    }
  }

  /** The queue and the mark of an error are those of the transaction's own commands. */
  lemma {:induction false} QueueIsHistory(run: seq<Event>, c: ClientId, i: nat)
    requires OpenedAt(run, c, i)
    ensures ClientAfter(run, c).multi && ClientAfter(run, c).queue == Enqueued(run[i..], c)
    ensures ClientAfter(run, c).dirtyExec <==> Refused(run[i..], c)
    decreases |run|
  {
    var front, e := run[..|run| - 1], run[|run| - 1];
    if i == |front| {
      OutsideIsClean(front, c);
      MultiIsHistory(front, c);
      assert run[i..] == [e] && [e][..0] == [];
    } else {
      assert run[..i] == front[..i];
      QueueIsHistory(front, c, i);
      assert run[i..] == front[i..] + [e] && run[i..][..|run[i..]| - 1] == front[i..];
    }
  }

  /** What EXEC does, by history alone: outside MULTI it is refused; otherwise it aborts exactly if one of the
      transaction's commands was refused, else answers nil exactly if a key the client was watching was
      touched or flushed, and else runs exactly the commands queued since MULTI. */
  lemma ExecRunsUnspoiled(run: seq<Event>, c: ClientId, i: nat)
    ensures !InMulti(run, c) ==> Judge(ClientAfter(run, c)) == NoMulti
    ensures OpenedAt(run, c, i) ==> InMulti(run, c)
    ensures OpenedAt(run, c, i) ==> Judge(ClientAfter(run, c)) == Foreseen(run, c, i)
    ensures InMulti(run, c) ==> exists k :: OpenedAt(run, c, k)
  {
    MultiIsHistory(run, c);
    DirtyIsHistory(run, c);
    if OpenedAt(run, c, i) {
      OpenedIsMulti(run, c, i);
      QueueIsHistory(run, c, i);
    }
    var k := MultiOpened(run, c);
  }
}
