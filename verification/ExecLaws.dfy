/** What EXEC does with the queue, said without the functions that do it. */
module ExecLaws {
  import opened Bytes
  import opened Decimal
  import opened Wire
  import opened Strtol
  import opened Commands
  import opened Keyspace
  import opened Propagation
  import opened CallReplay

  /** What the databases are, and which of them is selected, before each queued command and after the last. */
  datatype Moment = Moment(w: World, db: nat)

  /** One queued command: it is called where the client is, and SELECT takes the client to the database of its number,
      if there is one. */
  ghost predicate Follows(a: Moment, b: Moment, q: Queued)
    requires a.db < |a.w| && Queueable(q)
  {
    var select := Lookup(q.argv[0]) == Some(Select);
    && b.w == Call(a.w, a.db, q.argv, q.now).w && b.db < |b.w|
    && (select ==> forall e: nat :: e < |a.w| <= 0x7FFF_FFFF && q.argv[1] == Print(e) ==> b.db == e)
    && (!select || GetLongLong(q.argv[1]) == None ==> b.db == a.db)
  }

  ghost predicate InTurn(moments: seq<Moment>, queue: seq<Queued>)
  {
    && |moments| == |queue| + 1 && (forall q :: q in queue ==> Queueable(q))
    && (forall m :: m in moments ==> m.db < |m.w|)
    && forall i :: 0 <= i < |queue| ==> (assert queue[i] in queue && moments[i] in moments;
      Follows(moments[i], moments[i + 1], queue[i]))
  }

  lemma OneFollows(x: Txn, q: Queued)
    requires x.db < |x.w| && Queueable(q)
    ensures var y := ExecOne(x, q); Follows(Moment(x.w, x.db), Moment(y.w, y.db), q)
  {
    hide Lookup, Call, Print, Opening, GetLongLong;
    if Lookup(q.argv[0]) == Some(Select) && |x.w| <= 0x7FFF_FFFF {
      forall e: nat | e < |x.w| && q.argv[1] == Print(e) ensures ExecOne(x, q).db == e {
        PrintedSelects(e, x.db, |x.w|);
      }
    }
  }

  lemma FirstInTurn(first: Moment, rest: seq<Moment>, queue: seq<Queued>)
    requires queue != [] && InTurn(rest, queue[1..]) && Queueable(queue[0]) && first.db < |first.w|
    requires Follows(first, rest[0], queue[0])
    ensures InTurn([first] + rest, queue)
  {
    hide Follows, Queueable;
    var moments := [first] + rest;
    assert forall q :: q in queue ==> q == queue[0] || q in queue[1..];
    forall i | 0 <= i < |queue|
      ensures queue[i] in queue && moments[i] in moments && Follows(moments[i], moments[i + 1], queue[i]) {
      if i > 0 { assert queue[i] == queue[1..][i - 1] && moments[i] == rest[i - 1] && moments[i + 1] == rest[i]; }
    }
  }

  lemma NoneInTurn(first: Moment)
    requires first.db < |first.w|
    ensures InTurn([first], [])
  {
  }

  lemma {:induction false} QueueInTurn(x: Txn, queue: seq<Queued>) returns (moments: seq<Moment>)
    requires x.db < |x.w| && forall q :: q in queue ==> Queueable(q)
    ensures InTurn(moments, queue) && |moments| == |queue| + 1 && moments[0] == Moment(x.w, x.db)
    ensures moments[|queue|].w == ExecQueue(x, queue).w
    decreases |queue|
  {
    hide Follows, ExecOne, Queueable, InTurn;
    moments := [Moment(x.w, x.db)];
    if queue == [] {
      NoneInTurn(moments[0]);
    } else {
      assert queue[0] in queue;
      OneFollows(x, queue[0]);
      var rest := QueueInTurn(ExecOne(x, queue[0]), queue[1..]);
      FirstInTurn(moments[0], rest, queue);
      moments := moments + rest;
    }
  }

  /** EXEC calls every queued command once, in the order of the queue, each on what the one before it has left; the
      databases are what the last leaves. */
  lemma ExecLaw(w: World, d: nat, queue: seq<Queued>, exec: Argv) returns (moments: seq<Moment>)
    requires d < |w| && forall q :: q in queue ==> Queueable(q)
    ensures InTurn(moments, queue) && moments[0] == Moment(w, d)
    ensures Transaction(w, d, queue, exec).w == moments[|queue|].w
  {
    moments := QueueInTurn(Txn(w, d, [], false), queue);
  }
}
