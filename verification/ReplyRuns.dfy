/** networking.c, output side, over the conversation with one client: what commands say, in whatever order they reserve
    and supply lengths, and what each of their orders does to the client and leaves to the holders of its objects. */
module ReplyRuns {
  import opened Bytes
  import opened Decimal
  import opened Wire
  import opened ReplyStream
  import opened ReplyClient

  /** What happens to the output of a client: a text, a number or the text of an object is said; a length is reserved,
      the i-th of the conversation is supplied; the socket becomes writable and takes what `net` says. */
  datatype Order<N> = Say(text: Bytestring) | SayNumber(number: int) | SayObject(obj: N)
                    | Hold | Settle(i: nat, length: int) | Writable(net: seq<int>, overMemory: bool)

  /** Reservations are supplied once each, after they were made, and nothing is written while one is open, for commands
      run to their end before the socket is looked at. */
  predicate Orderly<N>(orders: seq<Order<N>>, count: nat, open: set<nat>)
    decreases |orders|
  {
    if orders == [] then open == {}
    else
      match orders[0]
      case Say(_) => Orderly(orders[1..], count, open)
      case SayNumber(v) => Int64(v) && Orderly(orders[1..], count, open)
      case SayObject(_) => Orderly(orders[1..], count, open)
      case Hold => Orderly(orders[1..], count + 1, open + {count})
      case Settle(i, n) => i in open && Int64(n) && Orderly(orders[1..], count, open - {i})
      case Writable(_, _) => open == {} && Orderly(orders[1..], count, open)
  }

  /** The length that is supplied for reservation i. */
  function LengthFor<N>(orders: seq<Order<N>>, i: nat): int
    decreases |orders|
  {
    if orders == [] then 0
    else if orders[0].Settle? && orders[0].i == i then orders[0].length
    else LengthFor(orders[1..], i)
  }

  function TextOf<N>(texts: map<N, Bytestring>, n: N): Bytestring
  {
    if n in texts then texts[n] else []
  }

  /** What is said, every length in the place where it was reserved. */
  function Speech<N>(orders: seq<Order<N>>, count: nat, texts: map<N, Bytestring>): Bytestring
    decreases |orders|
  {
    if orders == [] then []
    else
      match orders[0]
      case Say(s) => s + Speech(orders[1..], count, texts)
      case SayNumber(v) => Print(v) + Speech(orders[1..], count, texts)
      case SayObject(n) => TextOf(texts, n) + Speech(orders[1..], count, texts)
      case Hold => Header(STAR, LengthFor(orders[1..], count)) + Speech(orders[1..], count + 1, texts)
      case _ => Speech(orders[1..], count, texts)
  }

  /** The reservations in the orders. */
  function Holds<N>(orders: seq<Order<N>>): nat
    decreases |orders|
  {
    if orders == [] then 0 else (if orders[0].Hold? then 1 else 0) + Holds(orders[1..])
  }

  function CountAfter<N>(o: Order<N>, count: nat): nat
  {
    if o.Hold? then count + 1 else count
  }

  /** The operation on the reply stream that an order is, with the node that each reservation got. */
  function OpOf<N>(o: Order<N>, count: nat, nodes: seq<N>, texts: map<N, Bytestring>): Op<N>
    requires (o.Hold? ==> count < |nodes|) && (o.Settle? ==> o.i < |nodes|)
  {
    match o
    case Say(s) => Op.Reply(s)
    case SayNumber(v) => Op.Reply(Print(v))
    case SayObject(n) => Op.Reply(TextOf(texts, n))
    case Hold => Op.Reserve(nodes[count])
    case Settle(i, n) => Op.Supply(nodes[i], n)
    case Writable(_, _) => Op.Send
  }

  function Ops<N>(orders: seq<Order<N>>, count: nat, nodes: seq<N>, texts: map<N, Bytestring>): (ops: seq<Op<N>>)
    requires count + Holds(orders) <= |nodes|
    requires forall o :: o in orders && o.Settle? ==> o.i < |nodes|
    decreases |orders|
  {
    if orders == [] then []
    else
      [OpOf(orders[0], count, nodes, texts)] + Ops(orders[1..], CountAfter(orders[0], count), nodes, texts)
  }

  ghost predicate Apart<N>(nodes: seq<N>) { forall i, j :: 0 <= i < j < |nodes| ==> nodes[i] != nodes[j] }

  ghost predicate Placed<N>(orders: seq<Order<N>>, count: nat, nodes: seq<N>)
  {
    count + Holds(orders) <= |nodes| && forall o :: o in orders && o.Settle? ==> o.i < |nodes|
  }

  lemma PlacedRest<N>(orders: seq<Order<N>>, count: nat, nodes: seq<N>)
    requires orders != [] && Placed(orders, count, nodes)
    ensures Placed(orders[1..], CountAfter(orders[0], count), nodes)
    ensures orders[0].Settle? ==> orders[0].i < |nodes|
  {
    assert orders[0] in orders;
  }

  /** A reserved place is filled by the length supplied for it. */
  lemma {:induction false} HoldIsFilled<N>(orders: seq<Order<N>>, count: nat, open: set<nat>, nodes: seq<N>,
                                         texts: map<N, Bytestring>, i: nat)
    requires Orderly(orders, count, open) && Placed(orders, count, nodes) && Apart(nodes) && i in open && i < |nodes|
    ensures Resolved([Hole(nodes[i])], Ops(orders, count, nodes, texts)) == Items<N>(Header(STAR, LengthFor(orders, i)))
    decreases |orders|
  {
    hide Header, Items, Filled;
    PlacedRest(orders, count, nodes);
    var rest, more := orders[1..], CountAfter(orders[0], count);
    var ops := Ops(rest, more, nodes, texts);
    assert Ops(orders, count, nodes, texts)[1..] == ops;
    match orders[0]
    case Say(_) => HoldIsFilled(rest, more, open, nodes, texts, i);
    case SayNumber(_) => HoldIsFilled(rest, more, open, nodes, texts, i);
    case SayObject(_) => HoldIsFilled(rest, more, open, nodes, texts, i);
    case Hold => HoldIsFilled(rest, more, open + {count}, nodes, texts, i);
    case Settle(j, n) =>
      if j == i {
        FilledHere(nodes[i], Header(STAR, n));
        ResolvedText(Header(STAR, n), ops);
      } else {
        FilledElsewhere([Hole(nodes[i])], nodes[j], Header(STAR, n));
        HoldIsFilled(rest, more, open - {j}, nodes, texts, i);
      }
  }

  /** What the operations say is what the orders say. */
  lemma {:induction false} SaidIsSpeech<N>(orders: seq<Order<N>>, count: nat, open: set<nat>, nodes: seq<N>,
                                         texts: map<N, Bytestring>)
    requires Orderly(orders, count, open) && Placed(orders, count, nodes) && Apart(nodes)
    ensures Said(Ops(orders, count, nodes, texts)) == Items<N>(Speech(orders, count, texts))
    decreases |orders|
  {
    if orders != [] {
      hide Header, Items, Resolved, LengthFor;
      PlacedRest(orders, count, nodes);
      var rest, more := orders[1..], CountAfter(orders[0], count);
      var ops := Ops(rest, more, nodes, texts);
      assert Ops(orders, count, nodes, texts)[1..] == ops;
      match orders[0]
      case Say(s) =>
        SaidIsSpeech(rest, more, open, nodes, texts);
        ItemsAppend<N>(s, Speech(rest, more, texts));
      case SayNumber(v) =>
        SaidIsSpeech(rest, more, open, nodes, texts);
        ItemsAppend<N>(Print(v), Speech(rest, more, texts));
      case SayObject(n) =>
        SaidIsSpeech(rest, more, open, nodes, texts);
        ItemsAppend<N>(TextOf(texts, n), Speech(rest, more, texts));
      case Hold =>
        SaidIsSpeech(rest, more, open + {count}, nodes, texts);
        HoldIsFilled(rest, more, open + {count}, nodes, texts, count);
        ItemsAppend<N>(Header(STAR, LengthFor(rest, count)), Speech(rest, more, texts));
      case Settle(i, _) =>
        SaidIsSpeech(rest, more, open - {i}, nodes, texts);
        assert [] + Said(ops) == Said(ops);
      case Writable(_, _) =>
        SaidIsSpeech(rest, more, open, nodes, texts);
        assert [] + Said(ops) == Said(ops);
    } else {
      NoItems<N>();
    }
  }

  lemma NoItems<N>()
    ensures Items<N>([]) == []
  {
  }

  // ----- holes -----

  lemma {:induction false} ListHoles(nodes: seq<Obj>, texts: seq<Option<Bytestring>>, n: Obj)
    requires |nodes| == |texts|
    ensures Hole(n) in ListItems(nodes, texts) <==>
      exists i :: 0 <= i < |nodes| && nodes[i] == n && texts[i] == None
    decreases |nodes|
  {
    if nodes != [] {
      ListHoles(nodes[1..], texts[1..], n);
      var first, rest := Node(nodes[0], texts[0]), ListItems(nodes[1..], texts[1..]);
      assert Hole(n) in first <==> nodes[0] == n && texts[0] == None;
      assert Hole(n) in first + rest <==> Hole(n) in first || Hole(n) in rest;
      hide ListItems;
      if i :| 0 <= i < |nodes[1..]| && nodes[1..][i] == n && texts[1..][i] == None { assert nodes[i + 1] == n; }
      if i :| 0 <= i < |nodes| && nodes[i] == n && texts[i] == None {
        if i > 0 { assert nodes[1..][i - 1] == n && texts[1..][i - 1] == None; }
      }
    }
  }

  lemma UnsentHoles(nodes: seq<Obj>, texts: seq<Option<Bytestring>>, k: nat, n: Obj)
    requires |nodes| == |texts| && HeadSent(texts, k)
    ensures Hole(n) in Unsent(nodes, texts, k) <==> Hole(n) in ListItems(nodes, texts)
  {
    HeadIsShort(nodes, texts, k);
    var all := ListItems(nodes, texts);
    assert all == all[..k] + all[k..];
    if k > 0 {
      var rest := ListItems(nodes[1..], texts[1..]);
      assert all == Items<Obj>(texts[0].value) + rest;
      assert all[..k] == Items<Obj>(texts[0].value)[..k];
      assert Hole(n) !in all[..k];
    }
  }

  lemma OwedHoles(sent: Bytestring, b: Bytestring, k: nat, nodes: seq<Obj>, counts: seq<nat>,
                  texts: seq<Option<Bytestring>>, n: Obj)
    requires |nodes| == |counts| == |texts| && Consistent(b, k, nodes, counts, texts)
    ensures Hole(n) in OwedOf(sent, b, k, nodes, texts) <==> Hole(n) in ListItems(nodes, texts)
  {
    hide Counted, ListItems, Unsent;
    if b == [] { UnsentHoles(nodes, texts, k, n); }
    assert Hole(n) !in Items<Obj>(sent) && (k <= |b| ==> Hole(n) !in Items<Obj>(b[k..]));
  }

  /** The holes in what a client is owed are the objects in its list that have no text yet. */
  lemma HolesAreListed(c: Client, n: Obj)
    requires c.Valid()
    ensures Hole(n) in c.Owed() <==> n in c.reply && n.ptr == None
  {
    hide OwedOf, Consistent, ListItems;
    OwedHoles(c.sent, c.buf[..c.bufpos], c.sentlen, c.reply, Counts(c.reply), Texts(c.reply), n);
    ListHoles(c.reply, Texts(c.reply), n);
  }

  /** The holes are those of the open reservations. */
  ghost predicate HolesAre(s: seq<Item<Obj>>, nodes: seq<Obj>, open: set<nat>)
  {
    && (forall i :: i in open ==> i < |nodes| && Hole(nodes[i]) in s)
    && (forall item :: item in s && item.Hole? ==> exists i :: i in open && i < |nodes| && nodes[i] == item.node)
  }

  lemma HolesAfterText(s: seq<Item<Obj>>, nodes: seq<Obj>, open: set<nat>, text: Bytestring)
    requires HolesAre(s, nodes, open)
    ensures HolesAre(s + Items<Obj>(text), nodes, open)
  {
  }

  lemma HolesAfterHold(s: seq<Item<Obj>>, nodes: seq<Obj>, open: set<nat>, node: Obj)
    requires HolesAre(s, nodes, open)
    ensures HolesAre(s + [Hole(node)], nodes + [node], open + {|nodes|})
  {
    var t := s + [Hole(node)];
    assert t[|s|] == Hole(node) && (nodes + [node])[|nodes|] == node;
    forall item | item in t && item.Hole?
      ensures exists i :: i in open + {|nodes|} && i < |nodes + [node]| && (nodes + [node])[i] == item.node {
      if item in s {
        var i :| i in open && i < |nodes| && nodes[i] == item.node;
        assert (nodes + [node])[i] == item.node;
      }
    }
  }

  lemma {:induction false} FilledHoles(s: seq<Item<Obj>>, node: Obj, text: Bytestring, item: Item<Obj>)
    requires item.Hole?
    ensures item in Filled(s, node, text) <==> item in s && item != Hole(node)
    decreases |s|
  {
    if s != [] {
      FilledHoles(s[1..], node, text, item);
      var first := if s[0] == Hole(node) then Items(text) else [s[0]];
      assert item in first <==> item == s[0] && item != Hole(node);
      assert s == [s[0]] + s[1..];
    }
  }

  lemma HolesAfterSettle(s: seq<Item<Obj>>, nodes: seq<Obj>, open: set<nat>, i: nat, text: Bytestring)
    requires HolesAre(s, nodes, open) && Apart(nodes) && i in open
    ensures HolesAre(Filled(s, nodes[i], text), nodes, open - {i})
  {
    var t := Filled(s, nodes[i], text);
    forall j | j in open - {i} ensures Hole(nodes[j]) in t { FilledHoles(s, nodes[i], text, Hole(nodes[j])); }
    forall item | item in t && item.Hole?
      ensures exists j :: j in open - {i} && j < |nodes| && nodes[j] == item.node {
      FilledHoles(s, nodes[i], text, item);
      var j :| j in open && j < |nodes| && nodes[j] == item.node;
      assert j in open - {i};
    }
  }

  // ----- a conversation -----

  lemma {:induction false} NoHoleResolved(s: seq<Item<Obj>>, ops: seq<Op<Obj>>)
    requires forall item :: item in s ==> item.Plain?
    ensures Resolved(s, ops) == s
    decreases |ops|
  {
    if ops != [] {
      if ops[0].Supply? { FilledElsewhere(s, ops[0].id, Header(STAR, ops[0].length)); }
      NoHoleResolved(s, ops[1..]);
    }
  }

  /** The state between two orders. */
  ghost predicate Ready(c: Client, nodes: seq<Obj>, open: set<nat>)
    reads c, c.buf, c.reply
  {
    c.Valid() && !c.closing && Apart(nodes) && HolesAre(c.Owed(), nodes, open)
  }

  lemma OpenIsListed(c: Client, nodes: seq<Obj>, open: set<nat>, i: nat)
    requires Ready(c, nodes, open) && i in open
    ensures i < |nodes| && nodes[i] in c.reply && nodes[i].ptr == None
  {
    hide HolesAre;
    assert i < |nodes| && Hole(nodes[i]) in c.Owed() by { HoleOf(c.Owed(), nodes, open, i); }
    HolesAreListed(c, nodes[i]);
  }

  lemma HoleOf(s: seq<Item<Obj>>, nodes: seq<Obj>, open: set<nat>, i: nat)
    requires HolesAre(s, nodes, open) && i in open
    ensures i < |nodes| && Hole(nodes[i]) in s
  {
  }

  lemma ClosedIsText(s: seq<Item<Obj>>, nodes: seq<Obj>)
    requires HolesAre(s, nodes, {})
    ensures forall item :: item in s ==> item.Plain?
  {
  }

  lemma ClosedHasText(c: Client, nodes: seq<Obj>)
    requires Ready(c, nodes, {})
    ensures c.NoHoles()
  {
    hide OwedOf, Consistent, HolesAre;
    ClosedIsText(c.Owed(), nodes);
    forall i | 0 <= i < |c.reply| ensures c.reply[i].ptr.Some? { HolesAreListed(c, c.reply[i]); }
  }

  /** The object that an order names. */
  function Named(o: Order<Obj>): set<Obj>
  {
    if o.SayObject? then {o.obj} else {}
  }

  /** The socket takes something. */
  predicate Pushing<N>(o: Order<N>) { o.Writable? && o.net != [] && o.net[0] > 0 }

  /** What a step does to the bytes sent, of all that the client is owed: none are taken back, and some go out when the
      socket takes something, unless all are out. */
  predicate Moved(was: Bytestring, now: Bytestring, owed: nat, pushing: bool)
  {
    was <= now && (pushing ==> |now| > |was| || |now| == owed)
  }

  /** One order. A node that it reserves is returned with the others. */
  method Obey(c: Client, o: Order<Obj>, nodes: seq<Obj>, ghost open: set<nat>, ghost texts: map<Obj, Bytestring>)
      returns (more: seq<Obj>)
    requires Ready(c, nodes, open) && (o.SayNumber? ==> Int64(o.number)) && (o.Writable? ==> open == {})
    requires o.Settle? ==> o.i in open && Int64(o.length)
    requires o.SayObject? ==> o.obj.ptr == Some(TextOf(texts, o.obj)) && c.Spare(o.obj) > 0
    modifies c`reply, c`bufpos, c`sentlen, c`sent, c.buf, c.reply, Named(o)`refcount
    ensures nodes <= more && |more| == CountAfter(o, |nodes|) && (o.Hold? ==> fresh(more[|nodes|]))
    ensures Ready(c, more, OpenAfter(o, |nodes|, open))
    ensures (o.Settle? ==> o.i < |more|) && c.Owed() == Queue(old(c.Owed()), OpOf(o, |nodes|, more, texts))
    ensures Moved(old(c.sent), c.sent, |c.Owed()|, Pushing(o))
    ensures forall x :: x in c.reply ==> x in old(c.reply) || fresh(x) || x in Named(o)
    ensures forall x: Obj :: old(allocated(x)) ==> c.Outside(x) == old(c.Outside(x))
  {
    hide OwedOf, Consistent, HolesAre, Filled, Places;
    ghost var owed := c.Owed();
    more := nodes;
    match o
    case Say(s) =>
      c.AddReplyString(s);
      HolesAfterText(owed, nodes, open, s);
    case SayNumber(v) =>
      c.AddReplyInteger(v);
      HolesAfterText(owed, nodes, open, Print(v));
    case SayObject(n) =>
      c.AddReply(n);
      HolesAfterText(owed, nodes, open, TextOf(texts, n));
    case Hold =>
      var node := c.AddDeferredMultiBulkLength();
      more := nodes + [node];
      HolesAfterHold(owed, nodes, open, node);
    case Settle(i, n) =>
      OpenIsListed(c, nodes, open, i);
      c.SetDeferredMultiBulkLength(nodes[i], n);
      HolesAfterSettle(owed, nodes, open, i, Header(STAR, n));
    case Writable(net, over) =>
      ClosedHasText(c, nodes);
      ghost var writes := c.SendReplyToClient(net, over);
      if c.Drained() { DrainedIsSent(c); }
  }

  /** The open reservations after one order. */
  function OpenAfter<N>(o: Order<N>, count: nat, open: set<nat>): set<nat>
  {
    if o.Hold? then open + {count} else if o.Settle? then open - {o.i} else open
  }

  lemma OrderlyRest<N>(orders: seq<Order<N>>, count: nat, open: set<nat>)
    requires orders != [] && Orderly(orders, count, open)
    ensures Orderly(orders[1..], CountAfter(orders[0], count), OpenAfter(orders[0], count, open))
    ensures (orders[0].SayNumber? ==> Int64(orders[0].number)) && (orders[0].Writable? ==> open == {})
    ensures orders[0].Settle? ==> orders[0].i in open && Int64(orders[0].length)
  {
  }

  lemma PlacedFirst<N>(orders: seq<Order<N>>, count: nat, nodes: seq<N>)
    requires orders != [] && Placed(orders[1..], CountAfter(orders[0], count), nodes)
    requires orders[0].Settle? ==> orders[0].i < |nodes|
    ensures Placed(orders, count, nodes)
  {
    assert forall o :: o in orders ==> o == orders[0] || o in orders[1..];
  }

  lemma OpExtends<N>(o: Order<N>, count: nat, more: seq<N>, all: seq<N>, texts: map<N, Bytestring>)
    requires more <= all && (o.Hold? ==> count < |more|) && (o.Settle? ==> o.i < |more|)
    ensures OpOf(o, count, more, texts) == OpOf(o, count, all, texts)
  {
  }

  lemma EmptyIsClosed<N>(orders: seq<Order<N>>, count: nat, open: set<nat>)
    requires Orderly(orders, count, open) && orders == []
    ensures open == {}
  {
  }

  lemma StepIsOp<N>(owed: seq<Item<N>>, orders: seq<Order<N>>, count: nat, all: seq<N>, texts: map<N, Bytestring>)
    requires orders != [] && Placed(orders, count, all)
    ensures var o, rest := orders[0], CountAfter(orders[0], count);
      && Placed(orders[1..], rest, all) && (o.Hold? ==> count < |all|) && (o.Settle? ==> o.i < |all|)
      && QueueAll(owed, Ops(orders, count, all, texts))
         == QueueAll(Queue(owed, OpOf(o, count, all, texts)), Ops(orders[1..], rest, all, texts))
  {
    PlacedRest(orders, count, all);
    hide Queue, OpOf;
    assert Ops(orders, count, all, texts)[1..] == Ops(orders[1..], CountAfter(orders[0], count), all, texts);
  }

  lemma SentIsOwed(c: Client)
    requires c.Valid()
    ensures Items<Obj>(c.sent) <= c.Owed()
  {
    hide Items, ListItems, Unsent;
  }

  lemma DrainedIsSent(c: Client)
    requires c.Valid() && c.Drained()
    ensures c.Owed() == Items<Obj>(c.sent)
  {
    NothingListed();
    assert c.buf[..c.bufpos] == [];
  }

  lemma SameText(a: Bytestring, b: Bytestring)
    requires Items<Obj>(a) <= Items<Obj>(b)
    ensures a <= b
  {
    var p, q := Items<Obj>(a), Items<Obj>(b);
    forall i | 0 <= i < |a| ensures a[i] == b[i] { assert p[i] == q[i]; }
  }

  /** A client that is owed exactly a text has been sent the beginning of it, and all of it when nothing is left. */
  lemma TextIsSent(c: Client, text: Bytestring)
    requires c.Valid() && c.Owed() == Items<Obj>(text)
    ensures c.sent <= text && (c.Drained() ==> c.sent == text)
  {
    hide OwedOf, Consistent, Items;
    SentIsOwed(c);
    SameText(c.sent, text);
    if c.Drained() {
      DrainedIsSent(c);
      SameText(text, c.sent);
    }
  }
}
