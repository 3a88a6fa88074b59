/** networking.c, output side, beside other clients and other holders: an object may be in the lists of any number of
    clients, and others take and give up references to it in between, and change it where it is theirs alone. */
module ReplyServer {
  import opened Bytes
  import opened Decimal
  import opened ReplyStream
  import opened ReplyClient
  import opened ReplyRuns

  // ----- places in all lists -----

  function Listed(lists: seq<seq<Obj>>, x: Obj): nat
    decreases |lists|
  {
    if lists == [] then 0 else Places(lists[0], x) + Listed(lists[1..], x)
  }

  lemma {:induction false} ListedUpdate(lists: seq<seq<Obj>>, k: nat, l: seq<Obj>, x: Obj)
    requires k < |lists|
    ensures Listed(lists[k := l], x) == Listed(lists, x) - Places(lists[k], x) + Places(l, x)
    decreases |lists|
  {
    hide Places;
    var more := lists[k := l];
    if k == 0 {
      assert more[1..] == lists[1..];
    } else {
      assert more[1..] == lists[1..][k - 1 := l];
      ListedUpdate(lists[1..], k - 1, l, x);
    }
  }

  /** The places in two of the lists are among all. */
  lemma ListedTwo(lists: seq<seq<Obj>>, k: nat, m: nat, x: Obj)
    requires k < |lists| && m < |lists| && k != m
    ensures Places(lists[k], x) + Places(lists[m], x) <= Listed(lists, x)
  {
    hide Places, Listed;
    ListedUpdate(lists, k, [], x);
    ListedUpdate(lists[k := []], m, [], x);
    NotThere([], x);
  }

  ghost function Lists(clients: seq<Client>): (r: seq<seq<Obj>>)
    reads clients
    ensures |r| == |clients| && forall k :: 0 <= k < |r| ==> r[k] == clients[k].reply
  {
    seq(|clients|, k requires 0 <= k < |clients| reads clients => clients[k].reply)
  }

  /** The references to the object besides those of all the lists. */
  ghost function Free(clients: seq<Client>, x: Obj): int
    reads clients, x`refcount
  {
    x.refcount - Listed(Lists(clients), x)
  }

  /** The clients with their buffers, and the objects in their lists. */
  ghost function Region(clients: seq<Client>): (r: set<object>)
    reads clients
    ensures forall c :: c in clients ==> c in r && c.buf in r && forall x :: x in c.reply ==> x in r
  {
    (set c | c in clients :: c as object) + (set c | c in clients :: c.buf as object)
    + (set c, x | c in clients && x in c.reply :: x as object)
  }

  ghost predicate Distinct(clients: seq<Client>)
  {
    forall i, j :: 0 <= i < j < |clients| ==> clients[i] != clients[j] && clients[i].buf != clients[j].buf
  }

  /** What is held has a text, and every place in a list and every one of these holders has a reference. */
  ghost predicate Accounted(clients: seq<Client>, refs: multiset<Obj>)
    reads clients, Region(clients), set x | x in refs
  {
    && (forall x :: x in refs ==> x.ptr.Some? && refs[x] <= Free(clients, x))
    && (forall c, x :: c in clients && x in c.reply ==> refs[x] <= Free(clients, x))
  }

  /** The state between two steps. */
  ghost predicate Serving(clients: seq<Client>, nodes: seq<seq<Obj>>, open: seq<set<nat>>, refs: multiset<Obj>)
    reads clients, Region(clients), set x | x in refs
  {
    && |clients| == |nodes| == |open| && Distinct(clients) && Accounted(clients, refs)
    && (forall k :: 0 <= k < |clients| ==> Ready(clients[k], nodes[k], open[k]))
  }

  lemma AllAccounted(clients: seq<Client>, refs: multiset<Obj>)
    requires Accounted(clients, refs)
    ensures forall x: Obj :: refs[x] <= Free(clients, x)
    ensures forall x :: x in refs ==> x.ptr.Some? && Free(clients, x) > 0
  {
    hide Places, Listed;
    forall x: Obj ensures refs[x] <= Free(clients, x) {
      if x !in refs && forall c :: c in clients ==> x !in c.reply { NowhereListed(Lists(clients), x); }
    }
  }

  lemma {:induction false} NowhereListed(lists: seq<seq<Obj>>, x: Obj)
    requires forall l :: l in lists ==> x !in l
    ensures Listed(lists, x) == 0
    decreases |lists|
  {
    hide Places;
    if lists != [] {
      assert lists[0] in lists;
      NotThere(lists[0], x);
      NowhereListed(lists[1..], x);
    }
  }

  lemma CountedAnew(b: Bytestring, k: nat, nodes: seq<Obj>, was: seq<nat>, now: seq<nat>,
                    texts: seq<Option<Bytestring>>)
    requires |nodes| == |was| == |now| == |texts| && Consistent(b, k, nodes, was, texts)
    requires forall i :: 0 <= i < |nodes| ==> Places(nodes, nodes[i]) <= now[i] && (texts[i] == None ==> now[i] == 1)
    ensures Consistent(b, k, nodes, now, texts)
  {
    hide Places;
  }

  /** Every place in the list has a reference, and a hole has no other. */
  ghost predicate Secured(d: Client, x: Obj)
    reads d, x
  {
    Places(d.reply, x) <= x.refcount && (x.ptr == None ==> x.refcount == 1)
  }

  twostate predicate Untouched(d: Client)
    reads d, d.buf
  {
    && d.reply == old(d.reply) && d.bufpos == old(d.bufpos) && d.sentlen == old(d.sentlen)
    && d.closing == old(d.closing) && d.sent == old(d.sent) && d.buf[..] == old(d.buf[..])
  }

  /** A client none of whose own fields change, and whose objects keep their texts and enough references. */
  twostate lemma Undisturbed(d: Client)
    requires old(d.Valid()) && Untouched(d)
    requires forall x :: x in d.reply ==> x.ptr == old(x.ptr) && Secured(d, x)
    ensures d.Valid() && d.Owed() == old(d.Owed())
  {
    hide OwedOf, Places, Consistent;
    assert Texts(d.reply) == old(Texts(d.reply)) && d.buf[..d.bufpos] == old(d.buf[..d.bufpos]);
    CountedAnew(d.buf[..d.bufpos], d.sentlen, d.reply, old(Counts(d.reply)), Counts(d.reply), Texts(d.reply));
  }

  /** An object in two lists, one of which becomes l: a reference remains for each place in the other, and a hole in the
      other remains out of reach. r and now are its references before and after. */
  lemma BesideAt(lists: seq<seq<Obj>>, k: nat, m: nat, l: seq<Obj>, named: set<Obj>, refs: multiset<Obj>, x: Obj,
                 r: nat, now: nat)
    requires k < |lists| && m < |lists| && k != m && x in lists[m] && refs[x] + Listed(lists, x) <= r
    requires r - Places(lists[k], x) == now - Places(l, x) && (x in l ==> x in lists[k] || x in named)
    requires forall y :: y in named ==> y in refs
    ensures r > Places(lists[k], x) && Places(lists[m], x) <= now && (r == 1 ==> now == 1)
  {
    hide Places, Listed;
    ListedTwo(lists, k, m, x);
    ListedIn(lists[m], x);
    if r == 1 {
      if x in lists[k] { ListedIn(lists[k], x); }
      NotThere(l, x);
    }
  }

  lemma ListedIn(l: seq<Obj>, x: Obj)
    requires x in l
    ensures Places(l, x) >= 1
  {
    var i :| 0 <= i < |l| && l[i] == x;
    PlacesIn(l, i);
  }

  /** A step for one client leaves what the others are owed. */
  twostate lemma Beside(clients: seq<Client>, new k: nat, new m: nat, new named: set<Obj>, new refs: multiset<Obj>)
    requires k < |clients| && m < |clients| && k != m
    requires old(clients[m].Valid()) && Untouched(clients[m])
    requires forall x :: x in old(clients[m].reply) ==> refs[x] <= old(Free(clients, x))
    requires forall x :: x in old(clients[m].reply) ==> clients[k].Outside(x) == old(clients[k].Outside(x))
    requires forall x :: x in old(clients[m].reply) && x in clients[k].reply ==>
      x in old(clients[k].reply) || x in named
    requires forall y :: y in named ==> y in refs
    ensures clients[m].Valid() && clients[m].Owed() == old(clients[m].Owed())
  {
    hide OwedOf, Consistent, Places, Listed;
    var c, d := clients[k], clients[m];
    var lists, counts, holes := old(Lists(clients)), old(Counts(d.reply)), old(Texts(d.reply));
    forall x | x in d.reply ensures x.ptr == old(x.ptr) && Secured(d, x) {
      assert refs[x] <= old(Free(clients, x)) && c.Outside(x) == old(c.Outside(x));
      BesideAt(lists, k, m, c.reply, named, refs, x, old(x.refcount), x.refcount);
      var i :| 0 <= i < |d.reply| && d.reply[i] == x;
      if x.ptr == None { HoleIsOwn(old(d.buf[..d.bufpos]), old(d.sentlen), d.reply, counts, holes, i); }
    }
    Undisturbed(d);
  }

  twostate lemma {:induction false} AllBeside(clients: seq<Client>, new k: nat, new n: nat, new named: set<Obj>,
                                              new refs: multiset<Obj>)
    requires k < |clients| && n <= |clients|
    requires forall x: Obj :: old(allocated(x)) ==> refs[x] <= old(Free(clients, x))
    requires forall m :: 0 <= m < |clients| ==> old(clients[m].Valid()) && (m != k ==> Untouched(clients[m]))
    requires forall x: Obj :: old(allocated(x)) ==> clients[k].Outside(x) == old(clients[k].Outside(x))
    requires forall x: Obj :: old(allocated(x)) && x in clients[k].reply ==> x in old(clients[k].reply) || x in named
    requires forall y :: y in named ==> y in refs
    ensures forall m :: 0 <= m < n && m != k ==>
      old(clients[m].Valid()) && clients[m].Valid() && clients[m].Owed() == old(clients[m].Owed())
    decreases n
  {
    hide OwedOf, Consistent, Places;
    if n > 0 {
      AllBeside(clients, k, n - 1, named, refs);
      if n - 1 != k { Beside(clients, k, n - 1, named, refs); }
    }
  }

  /** The references that are free of the lists do not change with one list, if the spare ones of that list do not. */
  lemma FreeKept(lists: seq<seq<Obj>>, k: nat, l: seq<Obj>, x: Obj, r: nat, now: nat)
    requires k < |lists| && r - Places(lists[k], x) == now - Places(l, x)
    ensures now - Listed(lists[k := l], x) == r - Listed(lists, x) <= r - Places(lists[k], x)
  {
    hide Places, Listed;
    ListedUpdate(lists, k, l, x);
    ListedUpdate(lists, k, [], x);
    NotThere([], x);
  }

  twostate lemma AllKept(clients: seq<Client>, new k: nat)
    requires k < |clients| && Lists(clients) == old(Lists(clients))[k := clients[k].reply]
    requires forall x: Obj :: old(allocated(x)) ==> clients[k].Outside(x) == old(clients[k].Outside(x))
    ensures forall x: Obj :: old(allocated(x)) ==> Free(clients, x) == old(Free(clients, x))
    ensures forall x: Obj :: old(allocated(x)) && Free(clients, x) > 0 ==> x.ptr == old(x.ptr)
  {
    hide Places, Listed;
    var c := clients[k];
    forall x: Obj | old(allocated(x))
      ensures Free(clients, x) == old(Free(clients, x)) && (Free(clients, x) > 0 ==> x.ptr == old(x.ptr)) {
      assert c.Outside(x) == old(c.Outside(x));
      FreeKept(old(Lists(clients)), k, c.reply, x, old(x.refcount), x.refcount);
    }
  }

  /** An object that is new has its places in one list only. */
  lemma NewFree(lists: seq<seq<Obj>>, k: nat, l: seq<Obj>, x: Obj)
    requires k < |lists| && forall a :: a in lists ==> x !in a
    ensures Listed(lists[k := l], x) == Places(l, x)
  {
    hide Places, Listed;
    ListedUpdate(lists, k, l, x);
    NowhereListed(lists, x);
    NotThere(lists[k], x);
  }

  twostate lemma StillAccounted(clients: seq<Client>, new k: nat, new refs: multiset<Obj>)
    requires k < |clients| && clients[k].Valid() && Lists(clients) == old(Lists(clients))[k := clients[k].reply]
    requires forall x: Obj :: old(allocated(x)) ==> refs[x] <= old(Free(clients, x)) == Free(clients, x)
    requires forall x: Obj :: old(allocated(x)) && Free(clients, x) > 0 ==> x.ptr == old(x.ptr)
    requires forall x :: x in refs ==> old(allocated(x)) && old(x.ptr).Some?
    ensures Accounted(clients, refs)
  {
    hide Places, Listed, Consistent;
    forall c, x | c in clients && x in c.reply ensures refs[x] <= Free(clients, x) {
      if !old(allocated(x)) {
        NewFree(old(Lists(clients)), k, clients[k].reply, x);
        assert x in clients[k].reply;
        var i :| 0 <= i < |clients[k].reply| && clients[k].reply[i] == x;
        HasCount(clients[k], i);
      }
    }
  }

  lemma HasCount(c: Client, i: nat)
    requires c.Valid() && i < |c.reply|
    ensures Places(c.reply, c.reply[i]) <= c.reply[i].refcount
  {
    hide Places;
    assert Counts(c.reply)[i] == c.reply[i].refcount;
  }

  lemma FreeIsSpare(clients: seq<Client>, k: nat, x: Obj)
    requires k < |clients|
    ensures Free(clients, x) <= clients[k].Spare(x)
  {
    hide Places, Listed;
    FreeKept(Lists(clients), k, clients[k].reply, x, x.refcount, x.refcount);
  }

  /** An order touches none of the other clients. */
  method ObeyAmong(clients: seq<Client>, k: nat, o: Order<Obj>, nodes: seq<Obj>, ghost open: set<nat>,
                   ghost texts: map<Obj, Bytestring>) returns (more: seq<Obj>)
    requires k < |clients| && Distinct(clients) && Ready(clients[k], nodes, open)
    requires (o.SayNumber? ==> Int64(o.number)) && (o.Writable? ==> open == {})
    requires o.Settle? ==> o.i in open && Int64(o.length)
    requires o.SayObject? ==> o.obj.ptr == Some(TextOf(texts, o.obj)) && clients[k].Spare(o.obj) > 0
    modifies clients[k], clients[k].buf, clients[k].reply, Named(o)
    ensures nodes <= more && |more| == CountAfter(o, |nodes|) && Ready(clients[k], more, OpenAfter(o, |nodes|, open))
    ensures (o.Settle? ==> o.i < |more|)
      && Moved(old(clients[k].sent), clients[k].sent, |clients[k].Owed()|, Pushing(o))
    ensures clients[k].Owed() == Queue(old(clients[k].Owed()), OpOf(o, |nodes|, more, texts))
    ensures Lists(clients) == old(Lists(clients))[k := clients[k].reply]
    ensures forall m :: 0 <= m < |clients| && m != k ==> Untouched(clients[m])
    ensures forall x: Obj :: old(allocated(x)) ==> clients[k].Outside(x) == old(clients[k].Outside(x))
    ensures forall x :: x in clients[k].reply ==> x in old(clients[k].reply) || fresh(x) || x in Named(o)
  {
    hide OwedOf, Consistent, HolesAre, Places, Listed, Queue, OpOf, Apart, OpenAfter, CountAfter, Ready;
    ghost var lists := Lists(clients);
    more := Obey(clients[k], o, nodes, open, texts);
    assert Lists(clients) == lists[k := clients[k].reply];
  }

  /** An order for one client. */
  method Give(clients: seq<Client>, k: nat, o: Order<Obj>, nodes: seq<seq<Obj>>, ghost open: seq<set<nat>>,
              ghost texts: map<Obj, Bytestring>, ghost refs: multiset<Obj>) returns (more: seq<seq<Obj>>)
    requires Serving(clients, nodes, open, refs) && k < |clients| && (o.SayNumber? ==> Int64(o.number))
    requires (o.Writable? ==> open[k] == {}) && (o.Settle? ==> o.i in open[k] && Int64(o.length))
    requires o.SayObject? ==> o.obj in refs && o.obj.ptr == Some(TextOf(texts, o.obj))
    modifies clients[k], clients[k].buf, clients[k].reply, Named(o)
    ensures |more| == |nodes| && more == nodes[k := more[k]] && nodes[k] <= more[k]
    ensures |more[k]| == CountAfter(o, |nodes[k]|) && (o.Settle? ==> o.i < |more[k]|)
    ensures Serving(clients, more, open[k := OpenAfter(o, |nodes[k]|, open[k])], refs)
    ensures clients[k].Owed() == Queue(old(clients[k].Owed()), OpOf(o, |nodes[k]|, more[k], texts))
      && Moved(old(clients[k].sent), clients[k].sent, |clients[k].Owed()|, Pushing(o))
    ensures forall m :: 0 <= m < |clients| && m != k ==>
      clients[m].Owed() == old(clients[m].Owed()) && clients[m].sent == old(clients[m].sent)
    ensures forall x: Obj :: old(allocated(x)) ==> Free(clients, x) == old(Free(clients, x))
    ensures forall x: Obj :: old(allocated(x)) && Free(clients, x) > 0 ==> x.ptr == old(x.ptr)
    ensures Lists(clients) == old(Lists(clients))[k := clients[k].reply]
    ensures forall x :: x in clients[k].reply ==> x in old(clients[k].reply) || fresh(x) || x in Named(o)
  {
    hide OwedOf, Consistent, HolesAre, Places, Listed, Queue, OpOf, Apart, Accounted, Free, OpenAfter, CountAfter;
    hide Lists, Client.Spare, Client.Outside;
    AllAccounted(clients, refs);
    if o.SayObject? { FreeIsSpare(clients, k, o.obj); }
    var n := ObeyAmong(clients, k, o, nodes[k], open[k], texts);
    more := nodes[k := n];
    AllBeside(clients, k, |clients|, Named(o), refs);
    AllKept(clients, k);
    StillAccounted(clients, k, refs);
  }

  lemma PlacesFewer(clients: seq<Client>, m: nat, x: Obj)
    requires m < |clients| && Free(clients, x) >= 0
    ensures Places(clients[m].reply, x) <= x.refcount
  {
    hide Places, Listed;
    FreeIsSpare(clients, m, x);
  }

  /** A change of the number of references to an object that is no hole leaves what a client is owed. */
  twostate lemma Recounted(clients: seq<Client>, new m: nat, new y: Obj)
    requires m < |clients| && y.ptr.Some? && old(clients[m].Valid()) && Untouched(clients[m])
    requires forall x :: x in clients[m].reply ==> Free(clients, x) >= 0 && x.ptr == old(x.ptr)
    requires forall x :: x in clients[m].reply && x != y ==> x.refcount == old(x.refcount)
    ensures clients[m].Valid() && clients[m].Owed() == old(clients[m].Owed())
  {
    hide OwedOf, Consistent, Places, Listed, Free;
    var d := clients[m];
    var counts, holes := old(Counts(d.reply)), old(Texts(d.reply));
    forall x | x in d.reply ensures x.ptr == old(x.ptr) && Secured(d, x) {
      PlacesFewer(clients, m, x);
      var i :| 0 <= i < |d.reply| && d.reply[i] == x;
      if x.ptr == None { HoleIsOwn(old(d.buf[..d.bufpos]), old(d.sentlen), d.reply, counts, holes, i); }
    }
    Undisturbed(d);
  }

  twostate lemma {:induction false} AllRecounted(clients: seq<Client>, new n: nat, new y: Obj)
    requires n <= |clients| && y.ptr.Some?
    requires forall m :: 0 <= m < |clients| ==> old(clients[m].Valid()) && Untouched(clients[m])
    requires forall x: Obj :: old(allocated(x)) ==> Free(clients, x) >= 0 && x.ptr == old(x.ptr)
    requires forall x: Obj :: old(allocated(x)) && x != y ==> x.refcount == old(x.refcount)
    ensures forall m :: 0 <= m < n ==>
      old(clients[m].Valid()) && clients[m].Valid() && clients[m].Owed() == old(clients[m].Owed())
    decreases n
  {
    hide OwedOf, Consistent, Places, Listed, Free;
    if n > 0 {
      AllRecounted(clients, n - 1, y);
      Recounted(clients, n - 1, y);
    }
  }

  // ----- other holders -----

  /** A holder of an object takes one more reference to it (incrRefCount), or gives one up (decrRefCount). */
  datatype Turn = Retain(obj: Obj) | Release(obj: Obj)

  function RefsAfter(s: Turn, refs: multiset<Obj>): multiset<Obj>
  {
    if s.Retain? then refs + multiset{s.obj} else refs - multiset{s.obj}
  }

  function Change(s: Turn, x: Obj): int
  {
    if s.obj != x then 0 else if s.Retain? then 1 else -1
  }

  lemma RefsChange(s: Turn, refs: multiset<Obj>)
    requires s.obj in refs
    ensures forall x :: RefsAfter(s, refs)[x] == refs[x] + Change(s, x)
    ensures forall x :: x in RefsAfter(s, refs) ==> x in refs
  {
  }

  method Adjust(s: Turn, ghost clients: seq<Client>)
    requires s.obj.refcount > 0
    modifies s.obj`refcount
    ensures forall x: Obj :: old(allocated(x)) ==> Free(clients, x) == old(Free(clients, x)) + Change(s, x)
    ensures forall m :: 0 <= m < |clients| ==> Untouched(clients[m])
  {
    hide Places, Listed, Lists;
    ghost var lists := Lists(clients);
    if s.Retain? { s.obj.refcount := s.obj.refcount + 1; } else { s.obj.refcount := s.obj.refcount - 1; }
    assert Lists(clients) == lists;
  }

  /** No client notices. */
  method Count(clients: seq<Client>, s: Turn, ghost nodes: seq<seq<Obj>>, ghost open: seq<set<nat>>,
               ghost refs: multiset<Obj>)
    requires Serving(clients, nodes, open, refs) && s.obj in refs
    modifies s.obj`refcount
    ensures Serving(clients, nodes, open, RefsAfter(s, refs))
    ensures forall m :: 0 <= m < |clients| ==>
      && clients[m].Owed() == old(clients[m].Owed()) && clients[m].sent == old(clients[m].sent)
      && clients[m].reply == old(clients[m].reply)
    ensures forall x: Obj :: old(allocated(x)) ==>
      Free(clients, x) - RefsAfter(s, refs)[x] == old(Free(clients, x)) - refs[x]
  {
    hide OwedOf, Consistent, HolesAre, Places, Listed, Apart, Lists, Free, RefsAfter;
    hide Client.Spare, Client.Outside;
    AllAccounted(clients, refs);
    assert s.obj.refcount > 0 by { FreeIsCount(clients, s.obj); }
    Adjust(s, clients);
    RefsChange(s, refs);
    AllRecounted(clients, |clients|, s.obj);
  }

  lemma FreeIsCount(clients: seq<Client>, x: Obj)
    ensures Free(clients, x) <= x.refcount
  {
    hide Listed;
  }

  /** An object with one reference, which a holder has, is in no list. */
  lemma OwnIsUnlisted(clients: seq<Client>, refs: multiset<Obj>, x: Obj)
    requires Accounted(clients, refs) && x in refs && x.refcount == 1
    ensures Free(clients, x) == refs[x] == 1 && forall k :: 0 <= k < |clients| ==> x !in clients[k].reply
  {
    hide Places;
    var lists := Lists(clients);
    forall k | 0 <= k < |clients| ensures x !in clients[k].reply {
      if x in clients[k].reply {
        ListedIn(lists[k], x);
        FreeIsSpare(clients, k, x);
      }
    }
  }

  twostate lemma {:induction false} AllRewritten(clients: seq<Client>, new n: nat, new y: Obj)
    requires n <= |clients|
    requires forall m :: 0 <= m < |clients| ==>
      old(clients[m].Valid()) && Untouched(clients[m]) && y !in clients[m].reply
    requires forall x: Obj :: old(allocated(x)) && x != y ==> x.ptr == old(x.ptr) && x.refcount == old(x.refcount)
    ensures forall m :: 0 <= m < n ==>
      old(clients[m].Valid()) && clients[m].Valid() && clients[m].Owed() == old(clients[m].Owed())
    decreases n
  {
    hide OwedOf, Consistent, Places;
    if n > 0 {
      AllRewritten(clients, n - 1, y);
      Rewritten(clients[n - 1], y);
    }
  }

  twostate lemma Rewritten(d: Client, new y: Obj)
    requires old(d.Valid()) && Untouched(d) && y !in d.reply
    requires forall x :: x in d.reply ==> x.ptr == old(x.ptr) && x.refcount == old(x.refcount)
    ensures d.Valid() && d.Owed() == old(d.Owed())
  {
    hide OwedOf, Consistent, Places;
    assert Texts(d.reply) == old(Texts(d.reply)) && d.buf[..d.bufpos] == old(d.buf[..d.bufpos]);
    assert Counts(d.reply) == old(Counts(d.reply));
  }

  /** The holder of the only reference changes the text in place, and no client notices. */
  method Rewrite(clients: seq<Client>, x: Obj, text: Bytestring, ghost nodes: seq<seq<Obj>>, ghost open: seq<set<nat>>,
                 ghost refs: multiset<Obj>)
    requires Serving(clients, nodes, open, refs) && x in refs && x.refcount == 1
    modifies x`ptr
    ensures Serving(clients, nodes, open, refs) && x.ptr == Some(text) && old(Free(clients, x)) == refs[x] == 1
    ensures forall m :: 0 <= m < |clients| ==>
      && clients[m].Owed() == old(clients[m].Owed()) && clients[m].sent == old(clients[m].sent)
      && clients[m].reply == old(clients[m].reply)
    ensures forall y: Obj :: old(allocated(y)) ==> Free(clients, y) == old(Free(clients, y))
  {
    hide OwedOf, Consistent, HolesAre, Places, Listed, Apart, Free;
    hide Client.Spare, Client.Outside;
    OwnIsUnlisted(clients, refs, x);
    ghost var lists := Lists(clients);
    x.ptr := Some(text);
    assert Lists(clients) == lists;
    AllRewritten(clients, |clients|, x);
  }

  /** A new object, held by one. */
  lemma NewAccounted(clients: seq<Client>, refs: multiset<Obj>, x: Obj)
    requires Accounted(clients, refs) && x !in refs && x.ptr.Some? && x.refcount == 1
    requires forall k :: 0 <= k < |clients| ==> x !in clients[k].reply
    ensures Accounted(clients, refs + multiset{x}) && Free(clients, x) == 1
  {
    hide Places, Listed;
    NowhereListed(Lists(clients), x);
  }
}
