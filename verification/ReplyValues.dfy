/** What clients are told of values that change: commands reply with the objects that keys hold (networking.c,
    addReply), and later ones replace these objects, or change them in place where nobody else holds them (db.c,
    bitops.c). */
module ReplyValues {
  import opened Bytes
  import opened Decimal
  import opened ReplyStream
  import opened ReplyClient
  import opened ReplyRuns
  import opened ReplyServer

  /** A key of a database, or one of the server's shared replies. */
  type Name = nat

  type Values = map<Name, Bytestring>

  type Holdings = map<Name, Obj>

  /** What happens: an order is given for the output of one client, with names for objects; a name gets an object of its
      own, or the object of another name; its value changes; or it gives its object up. */
  datatype Step = To(client: nat, order: Order<Name>)
                | Store(name: Name, text: Bytestring)
                | Share(name: Name, other: Name)
                | Alter(name: Name, text: Bytestring)
                | Remove(name: Name)

  // ----- what is meant -----

  function ValuesAfter(s: Step, values: Values): Values
  {
    match s
    case To(_, _) => values
    case Store(n, text) => values[n := text]
    case Share(n, m) => values[n := TextOf(values, m)]
    case Alter(n, text) => values[n := text]
    case Remove(n) => values - {n}
  }

  function ValuesAfterAll(steps: seq<Step>, values: Values): Values
    decreases |steps|
  {
    if steps == [] then values else ValuesAfterAll(steps[1..], ValuesAfter(steps[0], values))
  }

  /** The order as its client hears it: the value that the name has at that moment. */
  function Spoken(o: Order<Name>, values: Values): Order<Obj>
  {
    match o
    case Say(s) => Say(s)
    case SayNumber(v) => SayNumber(v)
    case SayObject(n) => Say(TextOf(values, n))
    case Hold => Hold
    case Settle(i, n) => Settle(i, n)
    case Writable(net, over) => Writable(net, over)
  }

  /** The orders for one client. */
  function OrdersOf(steps: seq<Step>, k: nat, values: Values): seq<Order<Obj>>
    decreases |steps|
  {
    if steps == [] then []
    else
      (if steps[0].To? && steps[0].client == k then [Spoken(steps[0].order, values)] else [])
      + OrdersOf(steps[1..], k, ValuesAfter(steps[0], values))
  }

  /** The names that the step needs have values. */
  predicate Names(s: Step, values: Values)
  {
    match s
    case To(_, o) => o.SayObject? ==> o.obj in values
    case Store(_, _) => true
    case Share(_, m) => m in values
    case Alter(n, _) => n in values
    case Remove(n) => n in values
  }

  predicate AllNamed(steps: seq<Step>, values: Values)
    decreases |steps|
  {
    steps == [] || (Names(steps[0], values) && AllNamed(steps[1..], ValuesAfter(steps[0], values)))
  }

  ghost predicate Addressed(steps: seq<Step>, count: nat)
  {
    forall s :: s in steps && s.To? ==> s.client < count
  }

  // ----- names and references -----

  function HoldersOf(vals: Holdings, x: Obj): set<Name>
  {
    set n | n in vals && vals[n] == x
  }

  /** One reference for each name. */
  ghost predicate Counts(vals: Holdings, refs: multiset<Obj>)
  {
    && (forall x :: x in refs ==> refs[x] == |HoldersOf(vals, x)|)
    && (forall n :: n in vals ==> vals[n] in refs)
  }

  lemma CountOf(vals: Holdings, refs: multiset<Obj>, x: Obj)
    requires Counts(vals, refs)
    ensures refs[x] == |HoldersOf(vals, x)|
  {
    if x !in refs {
      assert HoldersOf(vals, x) == {};
    }
  }

  lemma HoldersWithout(vals: Holdings, n: Name, x: Obj)
    requires n in vals
    ensures |HoldersOf(vals - {n}, x)| == |HoldersOf(vals, x)| - (if vals[n] == x then 1 else 0)
  {
    var a := HoldersOf(vals, x);
    assert HoldersOf(vals - {n}, x) == a - {n};
  }

  lemma HoldersWith(vals: Holdings, n: Name, o: Obj, x: Obj)
    requires n !in vals
    ensures |HoldersOf(vals[n := o], x)| == |HoldersOf(vals, x)| + (if o == x then 1 else 0)
  {
    var a := HoldersOf(vals, x);
    assert HoldersOf(vals[n := o], x) == if o == x then a + {n} else a;
  }

  lemma GivenUp(vals: Holdings, refs: multiset<Obj>, n: Name)
    requires Counts(vals, refs) && n in vals
    ensures Counts(vals - {n}, refs - multiset{vals[n]})
  {
    var less := refs - multiset{vals[n]};
    forall x | x in less ensures less[x] == |HoldersOf(vals - {n}, x)| { HoldersWithout(vals, n, x); }
    forall m | m in vals - {n} ensures vals[m] in less {
      HoldersWithout(vals, n, vals[m]);
      assert m in HoldersOf(vals - {n}, vals[m]);
    }
  }

  lemma Taken(vals: Holdings, refs: multiset<Obj>, n: Name, o: Obj)
    requires Counts(vals, refs) && n !in vals
    ensures Counts(vals[n := o], refs + multiset{o})
  {
    var more := refs + multiset{o};
    forall x | x in more ensures more[x] == |HoldersOf(vals[n := o], x)| {
      HoldersWith(vals, n, o, x);
      CountOf(vals, refs, x);
    }
  }

  // ----- the state between two steps -----

  /** Every name has its value. */
  ghost predicate HaveValues(vals: Holdings, values: Values)
    reads vals.Values
  {
    vals.Keys == values.Keys && forall n :: n in vals ==> vals[n].ptr == Some(values[n])
  }

  /** No client has noticed anything. */
  twostate predicate Unnoticed(clients: seq<Client>)
    reads clients, Region(clients)
  {
    forall k :: 0 <= k < |clients| ==>
      && clients[k].bufpos <= clients[k].buf.Length && old(clients[k].bufpos <= clients[k].buf.Length)
      && clients[k].Owed() == old(clients[k].Owed()) && clients[k].sent == old(clients[k].sent)
      && clients[k].reply == old(clients[k].reply)
  }

  lemma SwapRefs(refs: multiset<Obj>, o: Obj, v: Obj)
    requires v in refs
    ensures RefsAfter(Release(v), refs + multiset{o}) == refs - multiset{v} + multiset{o}
  {
  }

  /** dbAdd and dbOverwrite: the name takes the object, a reference to which is counted for it, and gives up the one
      that it had. */
  method Put(clients: seq<Client>, n: Name, o: Obj, vals: Holdings, ghost nodes: seq<seq<Obj>>,
             ghost open: seq<set<nat>>, ghost refs: multiset<Obj>)
      returns (now: Holdings, ghost after: multiset<Obj>)
    requires Serving(clients, nodes, open, refs + multiset{o}) && Counts(vals, refs)
    modifies vals.Values`refcount
    ensures now == vals[n := o] && Counts(now, after) && Serving(clients, nodes, open, after) && Unnoticed(clients)
    ensures forall x: Obj :: old(allocated(x)) ==>
      Free(clients, x) - after[x] == old(Free(clients, x)) - (refs + multiset{o})[x]
  {
    hide OwedOf, Consistent, HolesAre, Places, Listed, Apart, Lists, Free, Counts, Accounted, RefsAfter;
    after := refs + multiset{o};
    ghost var less, rest := vals, refs;
    if n in vals {
      assert vals[n] in refs && vals[n] in vals.Values by { NamedIsHeld(vals, refs, n); }
      Count(clients, Release(vals[n]), nodes, open, after);
      SwapRefs(refs, o, vals[n]);
      GivenUp(vals, refs, n);
      less, rest, after := vals - {n}, refs - multiset{vals[n]}, refs - multiset{vals[n]} + multiset{o};
    }
    now := vals[n := o];
    Taken(less, rest, n, o);
    assert now == less[n := o];
  }

  lemma NamedIsHeld(vals: Holdings, refs: multiset<Obj>, n: Name)
    requires Counts(vals, refs) && n in vals
    ensures vals[n] in refs && vals[n] in vals.Values
  {
  }

  /** Between two steps: every name has its value, and every name and every place in a list has a reference. */
  ghost predicate Running(clients: seq<Client>, nodes: seq<seq<Obj>>, open: seq<set<nat>>, vals: Holdings,
                          values: Values, refs: multiset<Obj>)
    reads clients, Region(clients), vals.Values, set x | x in refs
  {
    Serving(clients, nodes, open, refs) && Counts(vals, refs) && HaveValues(vals, values)
  }

  /** createStringObject, for a holder; no client notices. */
  method NewObject(clients: seq<Client>, text: Bytestring, ghost nodes: seq<seq<Obj>>, ghost open: seq<set<nat>>,
                   ghost refs: multiset<Obj>) returns (o: Obj)
    requires Serving(clients, nodes, open, refs)
    ensures fresh(o) && o.ptr == Some(text) && Serving(clients, nodes, open, refs + multiset{o})
    ensures Lists(clients) == old(Lists(clients))
  {
    hide OwedOf, Consistent, HolesAre, Places, Listed, Apart, Lists;
    ghost var lists := Lists(clients);
    o := new Obj(Some(text));
    assert Lists(clients) == lists;
    NewAccounted(clients, refs, o);
  }

  /** A name gets an object of its own. */
  method StoreNew(clients: seq<Client>, n: Name, text: Bytestring, vals: Holdings, ghost nodes: seq<seq<Obj>>,
                  ghost open: seq<set<nat>>, ghost values: Values, ghost refs: multiset<Obj>)
      returns (now: Holdings, ghost after: multiset<Obj>)
    requires Running(clients, nodes, open, vals, values, refs)
    modifies vals.Values`refcount
    ensures Running(clients, nodes, open, now, values[n := text], after) && Unnoticed(clients)
    ensures now.Keys == vals.Keys + {n} && fresh(now[n]) && now == vals[n := now[n]]
    ensures forall x: Obj :: old(allocated(x)) ==> Free(clients, x) - after[x] == old(Free(clients, x)) - refs[x]
  {
    hide OwedOf, Consistent, HolesAre, Places, Listed, Apart, Lists, Counts, Accounted, Serving, Free;
    hide Client.Valid, Client.Owed;
    var o := NewObject(clients, text, nodes, open, refs);
    now, after := Put(clients, n, o, vals, nodes, open, refs);
  }

  /** A name gets the object of another. */
  method ShareOther(clients: seq<Client>, n: Name, m: Name, vals: Holdings, ghost nodes: seq<seq<Obj>>,
                    ghost open: seq<set<nat>>, ghost values: Values, ghost refs: multiset<Obj>)
      returns (now: Holdings, ghost after: multiset<Obj>)
    requires Running(clients, nodes, open, vals, values, refs) && m in vals
    modifies vals.Values`refcount
    ensures Running(clients, nodes, open, now, values[n := TextOf(values, m)], after) && Unnoticed(clients)
    ensures now == vals[n := vals[m]]
    ensures forall x: Obj :: old(allocated(x)) ==> Free(clients, x) - after[x] == old(Free(clients, x)) - refs[x]
  {
    hide OwedOf, Consistent, HolesAre, Places, Listed, Apart, Lists, Counts, Accounted;
    hide Client.Valid, Client.Owed;
    NamedIsHeld(vals, refs, m);
    Count(clients, Retain(vals[m]), nodes, open, refs);
    now, after := Put(clients, n, vals[m], vals, nodes, open, refs);
  }

  lemma OnlyName(vals: Holdings, refs: multiset<Obj>, n: Name)
    requires Counts(vals, refs) && n in vals && refs[vals[n]] == 1
    ensures forall m :: m in vals && vals[m] == vals[n] ==> m == n
  {
    var a := HoldersOf(vals, vals[n]);
    assert n in a && |a - {n}| == 0;
    assert a - {n} == {};
    forall m | m in vals && vals[m] == vals[n] ensures m == n { assert m in a && m !in a - {n}; }
  }

  /** A value changes: in place, where nobody else has the object (setbitCommand), and else in an object of its own. */
  method AlterValue(clients: seq<Client>, n: Name, text: Bytestring, vals: Holdings, ghost nodes: seq<seq<Obj>>,
                    ghost open: seq<set<nat>>, ghost values: Values, ghost refs: multiset<Obj>)
      returns (now: Holdings, ghost after: multiset<Obj>)
    requires Running(clients, nodes, open, vals, values, refs) && n in vals
    modifies vals.Values
    ensures Running(clients, nodes, open, now, values[n := text], after) && Unnoticed(clients)
    ensures now.Keys == vals.Keys && now == vals[n := now[n]] && (fresh(now[n]) || now[n] == vals[n])
    ensures forall x: Obj :: old(allocated(x)) ==> Free(clients, x) - after[x] == old(Free(clients, x)) - refs[x]
    ensures forall x: Obj :: old(allocated(x)) && Free(clients, x) > after[x] ==> x.ptr == old(x.ptr)
  {
    hide OwedOf, Consistent, HolesAre, Places, Listed, Apart, Lists, Counts, Accounted, Free;
    hide Client.Owed;
    var x := vals[n];
    NamedIsHeld(vals, refs, n);
    if x.refcount == 1 {
      Rewrite(clients, x, text, nodes, open, refs);
      OnlyName(vals, refs, n);
      now, after := vals, refs;
    } else {
      now, after := StoreNew(clients, n, text, vals, nodes, open, values, refs);
    }
  }

  /** dbDelete. */
  method RemoveName(clients: seq<Client>, n: Name, vals: Holdings, ghost nodes: seq<seq<Obj>>,
                    ghost open: seq<set<nat>>, ghost values: Values, ghost refs: multiset<Obj>)
      returns (now: Holdings, ghost after: multiset<Obj>)
    requires Running(clients, nodes, open, vals, values, refs) && n in vals
    modifies vals.Values`refcount
    ensures Running(clients, nodes, open, now, values - {n}, after) && Unnoticed(clients) && now == vals - {n}
    ensures forall x: Obj :: old(allocated(x)) ==> Free(clients, x) - after[x] == old(Free(clients, x)) - refs[x]
  {
    hide OwedOf, Consistent, HolesAre, Places, Listed, Apart, Lists, Counts, Accounted;
    hide Client.Owed;
    NamedIsHeld(vals, refs, n);
    Count(clients, Release(vals[n]), nodes, open, refs);
    GivenUp(vals, refs, n);
    now, after := vals - {n}, refs - multiset{vals[n]};
  }

  // ----- one step -----

  /** The order with the object that the name has. */
  function Resolve(o: Order<Name>, vals: Holdings): Order<Obj>
    requires o.SayObject? ==> o.obj in vals
  {
    match o
    case Say(s) => Say(s)
    case SayNumber(v) => SayNumber(v)
    case SayObject(n) => SayObject(vals[n])
    case Hold => Hold
    case Settle(i, n) => Settle(i, n)
    case Writable(net, over) => Writable(net, over)
  }

  /** Its client hears the value of the name. */
  lemma ResolvedIsSpoken(o: Order<Name>, vals: Holdings, values: Values, count: nat, nodes: seq<Obj>, open: set<nat>,
                         texts: map<Obj, Bytestring>)
    requires o.SayObject? ==> o.obj in vals && TextOf(texts, vals[o.obj]) == TextOf(values, o.obj)
    requires (o.Hold? ==> count < |nodes|) && (o.Settle? ==> o.i < |nodes|)
    ensures var r, p := Resolve(o, vals), Spoken(o, values);
      && r.Hold? == o.Hold? == p.Hold? && r.Settle? == o.Settle? == p.Settle? && (o.Settle? ==> r.i == o.i == p.i)
      && OpOf(r, count, nodes, texts) == OpOf(p, count, nodes, map[])
      && CountAfter(r, count) == CountAfter(p, count) && OpenAfter(r, count, open) == OpenAfter(p, count, open)
  {
  }

  lemma ResolvedNames(o: Order<Name>, vals: Holdings, values: Values)
    requires o.SayObject? ==> o.obj in vals
    ensures var r, p := Resolve(o, vals), Spoken(o, values);
      && r.SayObject? == o.SayObject? && (o.SayObject? ==> r.obj == vals[o.obj])
      && r.SayNumber? == o.SayNumber? && (o.SayNumber? ==> r.number == o.number) && r.Writable? == o.Writable?
      && r.Settle? == o.Settle? == p.Settle? && (o.Settle? ==> r.i == o.i == p.i && r.length == o.length)
      && r.Hold? == o.Hold? == p.Hold?
  {
  }

  /** What a step does to what one client is owed, and to the nodes of its reservations. */
  ghost predicate Stepped(was: seq<Item<Obj>>, now: seq<Item<Obj>>, s: Step, k: nat, nodes: seq<Obj>, more: seq<Obj>,
                          values: Values)
  {
    if s.To? && s.client == k then
      var o := Spoken(s.order, values);
      && nodes <= more && |more| == CountAfter(o, |nodes|) && (o.Settle? ==> o.i < |more|)
      && now == Queue(was, OpOf(o, |nodes|, more, map[]))
    else
      now == was && more == nodes
  }

  /** The open reservations of all clients after one step. */
  function OpensAfter(s: Step, nodes: seq<seq<Obj>>, open: seq<set<nat>>, values: Values): seq<set<nat>>
    requires |nodes| == |open| && (s.To? ==> s.client < |nodes|)
  {
    if s.To? then open[s.client := OpenAfter(Spoken(s.order, values), |nodes[s.client]|, open[s.client])] else open
  }

  /** The step can be taken. */
  predicate Allowed(s: Step, open: seq<set<nat>>, values: Values)
  {
    && Names(s, values)
    && (s.To? ==>
          && s.client < |open| && (s.order.SayNumber? ==> Int64(s.order.number))
          && (s.order.Writable? ==> open[s.client] == {})
          && (s.order.Settle? ==> s.order.i in open[s.client] && Int64(s.order.length)))
  }

  twostate lemma RegionGrows(clients: seq<Client>, new k: nat, new named: set<Obj>)
    requires k < |clients| && Lists(clients) == old(Lists(clients))[k := clients[k].reply]
    requires forall x :: x in clients[k].reply ==> x in old(clients[k].reply) || !old(allocated(x)) || x in named
    ensures forall x :: x in Region(clients) ==> x in old(Region(clients)) || !old(allocated(x)) || x in named
  {
  }

  /** The socket of client k takes something. */
  predicate PushesFor(s: Step, k: nat) { s.To? && s.client == k && Pushing(s.order) }

  lemma PushesSpoken(o: Order<Name>, vals: Holdings, values: Values)
    requires o.SayObject? ==> o.obj in vals
    ensures Pushing(Resolve(o, vals)) == Pushing(Spoken(o, values)) == Pushing(o)
  {
  }

  /** An order for one client, which leaves the others alone. */
  method Tell(clients: seq<Client>, k: nat, o: Order<Name>, vals: Holdings, nodes: seq<seq<Obj>>,
              ghost open: seq<set<nat>>, ghost values: Values, ghost refs: multiset<Obj>) returns (more: seq<seq<Obj>>)
    requires Running(clients, nodes, open, vals, values, refs) && Allowed(To(k, o), open, values)
    modifies Region(clients), vals.Values
    ensures |more| == |nodes|
      && Running(clients, more, OpensAfter(To(k, o), nodes, open, values), vals, values, refs)
    ensures forall m :: 0 <= m < |clients| ==>
      && Stepped(old(clients[m].Owed()), clients[m].Owed(), To(k, o), m, nodes[m], more[m], values)
      && Moved(old(clients[m].sent), clients[m].sent, |clients[m].Owed()|, PushesFor(To(k, o), m))
    ensures forall x: Obj :: old(allocated(x)) ==> Free(clients, x) == old(Free(clients, x))
    ensures forall x: Obj :: old(allocated(x)) && Free(clients, x) > 0 ==> x.ptr == old(x.ptr)
    ensures forall x :: x in Region(clients) ==> x in old(Region(clients)) || fresh(x) || x in vals.Values
  {
    hide OwedOf, Consistent, HolesAre, Places, Listed, Queue, OpOf, Apart, Accounted, Free, OpenAfter;
    hide Client.Spare, Client.Outside, Client.Owed, Client.Valid, Region, Lists, Counts, Resolve, Spoken;
    var r := Resolve(o, vals);
    ResolvedNames(o, vals, values);
    PushesSpoken(o, vals, values);
    ghost var texts: map<Obj, Bytestring> := if o.SayObject? then map[vals[o.obj] := values[o.obj]] else map[];
    forall n | n in vals ensures vals[n] in refs && vals[n] in vals.Values { NamedIsHeld(vals, refs, n); }
    more := Give(clients, k, r, nodes, open, texts, refs);
    RegionGrows(clients, k, Named(r));
    AllAccounted(clients, refs);
    assert forall n :: n in vals ==> Free(clients, vals[n]) > 0;
    ResolvedIsSpoken(o, vals, values, |nodes[k]|, more[k], open[k], texts);
  }

  /** What others than the names and the lists have of an object is none of a step's business. */
  method Take(clients: seq<Client>, s: Step, vals: Holdings, nodes: seq<seq<Obj>>, ghost open: seq<set<nat>>,
              ghost values: Values, ghost refs: multiset<Obj>)
      returns (more: seq<seq<Obj>>, now: Holdings, ghost after: multiset<Obj>)
    requires Running(clients, nodes, open, vals, values, refs) && Allowed(s, open, values)
    modifies Region(clients), vals.Values
    ensures |more| == |nodes|
      && Running(clients, more, OpensAfter(s, nodes, open, values), now, ValuesAfter(s, values), after)
    ensures forall k :: 0 <= k < |clients| ==>
      && Stepped(old(clients[k].Owed()), clients[k].Owed(), s, k, nodes[k], more[k], values)
      && Moved(old(clients[k].sent), clients[k].sent, |clients[k].Owed()|, PushesFor(s, k))
    ensures forall x: Obj :: old(allocated(x)) ==> Free(clients, x) - after[x] == old(Free(clients, x)) - refs[x]
    ensures forall x: Obj :: old(allocated(x)) && Free(clients, x) > after[x] ==> x.ptr == old(x.ptr)
    ensures forall x :: x in Region(clients) ==> x in old(Region(clients)) || fresh(x) || x in vals.Values
    ensures forall x :: x in now.Values ==> x in vals.Values || fresh(x)
  {
    hide OwedOf, Consistent, HolesAre, Places, Listed, Queue, OpOf, Apart, Accounted, Free, OpenAfter, CountAfter;
    hide Client.Spare, Client.Outside, Client.Owed, Client.Valid, Lists, Counts, Spoken;
    more, now, after := nodes, vals, refs;
    match s
    case To(k, o) => more := Tell(clients, k, o, vals, nodes, open, values, refs);
    case Store(n, text) => now, after := StoreNew(clients, n, text, vals, nodes, open, values, refs);
    case Share(n, m) => now, after := ShareOther(clients, n, m, vals, nodes, open, values, refs);
    case Alter(n, text) => now, after := AlterValue(clients, n, text, vals, nodes, open, values, refs);
    case Remove(n) => now, after := RemoveName(clients, n, vals, nodes, open, values, refs);
  }

  // ----- whole runs -----

  /** What has been said to one client over some orders. */
  ghost predicate Follows(was: seq<Item<Obj>>, now: seq<Item<Obj>>, orders: seq<Order<Obj>>, nodes: seq<Obj>,
                          all: seq<Obj>)
  {
    nodes <= all && Placed(orders, |nodes|, all) && now == QueueAll(was, Ops(orders, |nodes|, all, map[]))
  }

  /** A step, and then the rest. */
  lemma FollowsStep(was: seq<Item<Obj>>, mid: seq<Item<Obj>>, now: seq<Item<Obj>>, steps: seq<Step>, k: nat,
                    values: Values, nodes: seq<Obj>, more: seq<Obj>, all: seq<Obj>)
    requires steps != [] && Stepped(was, mid, steps[0], k, nodes, more, values)
    requires Follows(mid, now, OrdersOf(steps[1..], k, ValuesAfter(steps[0], values)), more, all)
    ensures Follows(was, now, OrdersOf(steps, k, values), nodes, all)
  {
    hide Queue, OpOf, QueueAll, Ops, Spoken;
    var orders, rest := OrdersOf(steps, k, values), OrdersOf(steps[1..], k, ValuesAfter(steps[0], values));
    var s, none := steps[0], map[];
    if s.To? && s.client == k {
      var o := Spoken(s.order, values);
      assert orders[0] == o && orders[1..] == rest;
      PlacedFirst(orders, |nodes|, all);
      OpExtends(o, |nodes|, more, all, none);
      StepIsOp(was, orders, |nodes|, all, none);
    } else {
      assert orders == rest;
    }
  }

  /** Nothing but writes. */
  predicate Silent<N>(orders: seq<Order<N>>)
  {
    orders == [] || (orders[0].Writable? && Silent(orders[1..]))
  }

  /** How often the socket takes something after the last order that says something. */
  function Pushes<N>(orders: seq<Order<N>>): nat
  {
    if orders == [] then 0
    else if Silent(orders) then (if Pushing(orders[0]) then 1 else 0) + Pushes(orders[1..])
    else Pushes(orders[1..])
  }

  /** Each of those writes takes a byte at least, until all is out. */
  predicate Drains<N>(was: nat, now: nat, owed: nat, orders: seq<Order<N>>)
  {
    was <= now && (now >= owed || now >= (if Silent(orders) then was else 0) + Pushes(orders))
  }

  lemma {:induction false} SilentQueues(owed: seq<Item<Obj>>, orders: seq<Order<Obj>>, count: nat, all: seq<Obj>)
    requires Silent(orders) && Placed(orders, count, all)
    ensures QueueAll(owed, Ops(orders, count, all, map[])) == owed
    decreases |orders|
  {
    if orders != [] {
      StepIsOp(owed, orders, count, all, map[]);
      SilentQueues(owed, orders[1..], CountAfter(orders[0], count), all);
    }
  }

  /** A step, and then the rest. */
  lemma DrainsStep(was: nat, mid: nat, now: nat, owed: seq<Item<Obj>>, last: seq<Item<Obj>>, steps: seq<Step>, k: nat,
                   values: Values, more: seq<Obj>, all: seq<Obj>)
    requires steps != [] && was <= mid && (PushesFor(steps[0], k) ==> mid > was || mid == |owed|)
    requires var rest := OrdersOf(steps[1..], k, ValuesAfter(steps[0], values));
      Drains(mid, now, |last|, rest) && Follows(owed, last, rest, more, all)
    ensures Drains(was, now, |last|, OrdersOf(steps, k, values))
  {
    hide QueueAll, Ops, ValuesAfter, Placed;
    var orders, rest := OrdersOf(steps, k, values), OrdersOf(steps[1..], k, ValuesAfter(steps[0], values));
    if steps[0].To? && steps[0].client == k {
      assert orders[0] == Spoken(steps[0].order, values) && orders[1..] == rest;
      if Silent(orders) { SilentQueues(owed, rest, |more|, all); }
    } else {
      assert orders == rest;
    }
  }

  lemma FollowsNone(was: seq<Item<Obj>>, k: nat, values: Values, nodes: seq<Obj>)
    ensures Follows(was, was, OrdersOf([], k, values), nodes, nodes)
  {
  }

  lemma DrainsNone(was: nat, owed: nat, k: nat, values: Values)
    ensures Drains(was, was, owed, OrdersOf([], k, values))
  {
  }

  /** Each client's orders are orderly, they are for clients that there are, and names are used while they have
      values. */
  ghost predicate Proper(steps: seq<Step>, counts: seq<nat>, open: seq<set<nat>>, values: Values)
    requires |counts| == |open|
  {
    && Addressed(steps, |open|) && AllNamed(steps, values)
    && forall k :: 0 <= k < |open| ==> Orderly(OrdersOf(steps, k, values), counts[k], open[k])
  }

  /** The number of reservations of each client. */
  function Sizes(nodes: seq<seq<Obj>>): (r: seq<nat>)
    ensures |r| == |nodes| && forall k :: 0 <= k < |r| ==> r[k] == |nodes[k]|
  {
    seq(|nodes|, k requires 0 <= k < |nodes| => |nodes[k]|)
  }

  lemma ProperStep(steps: seq<Step>, nodes: seq<seq<Obj>>, open: seq<set<nat>>, values: Values)
    requires |nodes| == |open| && steps != [] && Proper(steps, Sizes(nodes), open, values)
    ensures Allowed(steps[0], open, values)
  {
    hide Orderly;
    var s := steps[0];
    if s.To? {
      assert OrdersOf(steps, s.client, values)[0] == Spoken(s.order, values);
      OrderlyRest(OrdersOf(steps, s.client, values), |nodes[s.client]|, open[s.client]);
    }
  }

  lemma ProperRest(steps: seq<Step>, nodes: seq<seq<Obj>>, more: seq<seq<Obj>>, open: seq<set<nat>>, values: Values)
    requires |nodes| == |open| == |more| && steps != [] && Proper(steps, Sizes(nodes), open, values)
    requires steps[0].To? ==> steps[0].client < |nodes|
    requires forall k :: 0 <= k < |nodes| ==>
      |more[k]| == (if steps[0].To? && steps[0].client == k then CountAfter(Spoken(steps[0].order, values), |nodes[k]|)
                    else |nodes[k]|)
    ensures Proper(steps[1..], Sizes(more), OpensAfter(steps[0], nodes, open, values), ValuesAfter(steps[0], values))
  {
    hide Orderly, OpenAfter, CountAfter, Spoken, ValuesAfter;
    var s, after, next := steps[0], OpensAfter(steps[0], nodes, open, values), ValuesAfter(steps[0], values);
    forall k | 0 <= k < |after| ensures Orderly(OrdersOf(steps[1..], k, next), |more[k]|, after[k]) {
      var orders := OrdersOf(steps, k, values);
      if s.To? && s.client == k {
        assert orders[0] == Spoken(s.order, values) && orders[1..] == OrdersOf(steps[1..], k, next);
        OrderlyRest(orders, |nodes[k]|, open[k]);
      } else {
        assert orders == OrdersOf(steps[1..], k, next);
      }
    }
  }

  /** No reservation open for any of n clients. */
  function Closed(n: nat): (r: seq<set<nat>>)
    ensures |r| == n && forall k :: 0 <= k < n ==> r[k] == {}
  {
    seq(n, k requires 0 <= k < n => {})
  }

  lemma ProperNone(counts: seq<nat>, open: seq<set<nat>>, values: Values)
    requires |counts| == |open| && Proper([], counts, open, values)
    ensures open == Closed(|open|)
  {
    forall k | 0 <= k < |open| ensures open[k] == {} {
      EmptyIsClosed(OrdersOf([], k, values), counts[k], open[k]);
    }
  }

  /** Any number of clients and any interleaving of orders for them, while values change: each client's fields follow
      its own orders only, in terms of the values at that time. */
  method Serve(clients: seq<Client>, steps: seq<Step>, vals: Holdings, nodes: seq<seq<Obj>>, ghost open: seq<set<nat>>,
               ghost values: Values, ghost refs: multiset<Obj>)
      returns (ghost all: seq<seq<Obj>>, now: Holdings, ghost after: multiset<Obj>)
    requires Running(clients, nodes, open, vals, values, refs) && Proper(steps, Sizes(nodes), open, values)
    modifies Region(clients), vals.Values
    ensures Running(clients, all, Closed(|clients|), now, ValuesAfterAll(steps, values), after)
    ensures forall k :: 0 <= k < |clients| ==>
      && Follows(old(clients[k].Owed()), clients[k].Owed(), OrdersOf(steps, k, values), nodes[k], all[k])
      && Drains(|old(clients[k].sent)|, |clients[k].sent|, |clients[k].Owed()|, OrdersOf(steps, k, values))
    ensures forall x: Obj :: old(allocated(x)) ==> Free(clients, x) - after[x] == old(Free(clients, x)) - refs[x]
    ensures forall x: Obj :: old(allocated(x)) && Free(clients, x) > after[x] ==> x.ptr == old(x.ptr)
    decreases |steps|
  {
    hide OwedOf, Consistent, HolesAre, Places, Listed, Apart, Accounted, Free, Lists, Region, Counts, HaveValues;
    hide Client.Spare, Client.Outside, Client.Owed, Follows, Drains, Pushes, Proper;
    hide OpensAfter, OrdersOf, ValuesAfter, Spoken;
    all, now, after := nodes, vals, refs;
    if steps == [] {
      ProperNone(Sizes(nodes), open, values);
      forall k | 0 <= k < |clients|
        ensures Follows(clients[k].Owed(), clients[k].Owed(), OrdersOf(steps, k, values), nodes[k], all[k])
        ensures Drains(|clients[k].sent|, |clients[k].sent|, |clients[k].Owed()|, OrdersOf(steps, k, values)) {
        FollowsNone(clients[k].Owed(), k, values, nodes[k]);
        DrainsNone(|clients[k].sent|, |clients[k].Owed()|, k, values);
      }
      return;
    }
    ghost var s := steps[0];
    ProperStep(steps, nodes, open, values);
    var more, mine;
    more, mine, after := Take(clients, steps[0], vals, nodes, open, values, refs);
    ProperRest(steps, nodes, more, open, values);
    label Mid:
    all, now, after := Serve(clients, steps[1..], mine, more, OpensAfter(s, nodes, open, values),
                             ValuesAfter(s, values), after);
    forall k | 0 <= k < |clients|
      ensures Follows(old(clients[k].Owed()), clients[k].Owed(), OrdersOf(steps, k, values), nodes[k], all[k])
      ensures Drains(|old(clients[k].sent)|, |clients[k].sent|, |clients[k].Owed()|, OrdersOf(steps, k, values)) {
      FollowsStep(old(clients[k].Owed()), old@Mid(clients[k].Owed()), clients[k].Owed(), steps, k, values, nodes[k],
                  more[k], all[k]);
      DrainsStep(|old(clients[k].sent)|, |old@Mid(clients[k].sent)|, |clients[k].sent|, old@Mid(clients[k].Owed()),
                 clients[k].Owed(), steps, k, values, more[k], all[k]);
    }
  }

  lemma FollowsIsSpeech(now: seq<Item<Obj>>, orders: seq<Order<Obj>>, all: seq<Obj>)
    requires Follows([], now, orders, [], all) && Orderly(orders, 0, {}) && Apart(all)
    ensures now == Items<Obj>(Speech(orders, 0, map[]))
  {
    hide OpOf, Ops, Queue, Orderly, Speech, Items;
    var ops := Ops(orders, 0, all, map[]);
    QueueIsSaid([], ops);
    NoHoleResolved([], ops);
    SaidIsSpeech(orders, 0, {}, all, map[]);
    assert [] + Said(ops) == Said(ops);
  }

  function NoNodes(n: nat): (r: seq<seq<Obj>>)
    ensures |r| == n && forall k :: 0 <= k < n ==> r[k] == []
  {
    seq(n, k requires 0 <= k < n => [])
  }

  /** Clients to whom nothing has been said yet. */
  ghost predicate AllNew(clients: seq<Client>)
    reads clients, Region(clients)
  {
    Distinct(clients) && forall c :: c in clients ==> c.Valid() && !c.closing && c.Owed() == []
  }

  lemma NewServing(clients: seq<Client>, refs: multiset<Obj>)
    requires AllNew(clients) && Accounted(clients, refs)
    ensures Serving(clients, NoNodes(|clients|), Closed(|clients|), refs)
  {
    hide OwedOf, Consistent, Accounted;
  }

  /** What is said to client k: each order in turn, every length in its place, every name with the value that it has at
      that moment. */
  function Told(steps: seq<Step>, k: nat, values: Values): Bytestring
  {
    Speech(OrdersOf(steps, k, values), 0, map[])
  }

  /** Whatever commands say to any number of new clients, the same objects to many of them as often as they like, with
      lengths reserved and supplied in any order, values replaced, shared, removed, and changed in place where nobody
      else has the object, and the sockets taking any numbers of bytes at any time in between: what has been sent to
      each client is the beginning of what was said to it, with the values of that time; when nothing is left to write
      it is all of it, and so it is when, after the last that is said, the socket takes something at least as often as
      bytes were said. Every name ends with its last value. And whatever references others have, they still have,
      to objects whose text has not changed. */
  method Talk(clients: seq<Client>, steps: seq<Step>, vals: Holdings, ghost values: Values, ghost refs: multiset<Obj>)
      returns (now: Holdings, ghost after: multiset<Obj>)
    requires AllNew(clients) && Accounted(clients, refs) && Counts(vals, refs) && HaveValues(vals, values)
    requires Addressed(steps, |clients|) && AllNamed(steps, values)
    requires forall k :: 0 <= k < |clients| ==> Orderly(OrdersOf(steps, k, values), 0, {})
    modifies Region(clients), vals.Values
    ensures forall k :: 0 <= k < |clients| ==>
      && clients[k].Valid() && clients[k].Owed() == Items<Obj>(Told(steps, k, values))
      && clients[k].sent <= Told(steps, k, values)
      && (clients[k].Drained() ==> clients[k].sent == Told(steps, k, values))
      && (Pushes(OrdersOf(steps, k, values)) >= |Told(steps, k, values)| ==> clients[k].sent == Told(steps, k, values))
    ensures Accounted(clients, after) && Counts(now, after) && HaveValues(now, ValuesAfterAll(steps, values))
    ensures forall x: Obj :: old(allocated(x)) ==> Free(clients, x) - after[x] == old(Free(clients, x)) - refs[x]
    ensures forall x: Obj :: old(allocated(x)) && Free(clients, x) > after[x] ==> x.ptr == old(x.ptr)
  {
    hide OwedOf, Consistent, HolesAre, Places, Listed, Apart, Accounted, Free, Lists, Region, Counts, HaveValues;
    hide Client.Spare, Client.Outside, Client.Owed, Follows, OrdersOf, Speech, Orderly, Items, ValuesAfterAll;
    NewServing(clients, refs);
    var nodes := NoNodes(|clients|);
    ghost var all;
    all, now, after := Serve(clients, steps, vals, nodes, Closed(|clients|), values, refs);
    forall k | 0 <= k < |clients|
      ensures clients[k].Owed() == Items<Obj>(Told(steps, k, values)) && clients[k].sent <= Told(steps, k, values)
      ensures clients[k].Drained() || Pushes(OrdersOf(steps, k, values)) >= |Told(steps, k, values)|
        ==> clients[k].sent == Told(steps, k, values)
    {
      FollowsIsSpeech(clients[k].Owed(), OrdersOf(steps, k, values), all[k]);
      TextIsSent(clients[k], Told(steps, k, values));
    }
  }
}
