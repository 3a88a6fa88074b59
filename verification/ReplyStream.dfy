/** networking.c, output side, on values: what a client is owed, in order, with holes where a length
    is still to come. */
module ReplyStream {
  import opened Bytes
  import opened Wire

  datatype Item<N> = Plain(byte: Byte) | Hole(node: N)

  function Items<N>(s: Bytestring): (r: seq<Item<N>>)
    ensures |r| == |s|
  {
    seq(|s|, i requires 0 <= i < |s| => Plain(s[i]))
  }

  lemma ItemsAppend<N>(a: Bytestring, b: Bytestring)
    ensures Items<N>(a + b) == Items<N>(a) + Items<N>(b)
  {
  }

  /** A list node: its text, or nothing while it is a hole. */
  function Node<N>(n: N, text: Option<Bytestring>): seq<Item<N>>
  {
    match text case None => [Hole(n)] case Some(s) => Items(s)
  }

  function ListItems<N>(nodes: seq<N>, texts: seq<Option<Bytestring>>): seq<Item<N>>
    requires |nodes| == |texts|
  {
    if nodes == [] then [] else Node(nodes[0], texts[0]) + ListItems(nodes[1..], texts[1..])
  }

  lemma {:induction false} ListItemsAppend<N>(a: seq<N>, s: seq<Option<Bytestring>>, b: seq<N>,
      t: seq<Option<Bytestring>>)
    requires |a| == |s| && |b| == |t|
    ensures ListItems(a + b, s + t) == ListItems(a, s) + ListItems(b, t)
  {
    if a == [] {
      assert a + b == b && s + t == t;
    } else {
      assert (a + b)[1..] == a[1..] + b && (s + t)[1..] == s[1..] + t;
      ListItemsAppend(a[1..], s[1..], b, t);
    }
  }

  lemma ListItemsOne<N>(n: N, t: Option<Bytestring>)
    ensures ListItems([n], [t]) == Node(n, t)
  {
    var none: seq<N> := [];
    assert [n][1..] == none && |[t][1..]| == 0;
  }

  lemma ListTail<N>(nodes: seq<N>, texts: seq<Option<Bytestring>>, i: nat)
    requires |nodes| == |texts| && i < |nodes|
    ensures ListItems(nodes[i..], texts[i..]) == Node(nodes[i], texts[i]) + ListItems(nodes[i + 1..], texts[i + 1..])
  {
    hide Node;
    assert nodes[i..][1..] == nodes[i + 1..] && texts[i..][1..] == texts[i + 1..];
  }

  /** The list cut around one of its nodes. */
  lemma ListItemsAt<N>(nodes: seq<N>, texts: seq<Option<Bytestring>>, i: nat)
    requires |nodes| == |texts| && i < |nodes|
    ensures ListItems(nodes, texts)
         == ListItems(nodes[..i], texts[..i]) + Node(nodes[i], texts[i]) + ListItems(nodes[i + 1..], texts[i + 1..])
  {
    hide ListItems, Node;
    ListItemsAppend(nodes[..i], texts[..i], nodes[i..], texts[i..]);
    ListTail(nodes, texts, i);
    assert nodes[..i] + nodes[i..] == nodes && texts[..i] + texts[i..] == texts;
  }

  /** The text put in the place of the node. */
  function Filled<N(==)>(s: seq<Item<N>>, node: N, text: Bytestring): seq<Item<N>>
  {
    if s == [] then []
    else (if s[0] == Hole(node) then Items(text) else [s[0]]) + Filled(s[1..], node, text)
  }

  lemma {:induction false} FilledAppend<N>(a: seq<Item<N>>, b: seq<Item<N>>, node: N, text: Bytestring)
    ensures Filled(a + b, node, text) == Filled(a, node, text) + Filled(b, node, text)
  {
    if a == [] {
      assert a + b == b;
    } else {
      assert (a + b)[1..] == a[1..] + b;
      FilledAppend(a[1..], b, node, text);
    }
  }

  lemma {:induction false} FilledElsewhere<N>(s: seq<Item<N>>, node: N, text: Bytestring)
    requires Hole(node) !in s
    ensures Filled(s, node, text) == s
  {
    if s != [] {
      assert s[0] in s;
      FilledElsewhere(s[1..], node, text);
      assert s == [s[0]] + s[1..];
    }
  }

  lemma FilledHere<N>(node: N, text: Bytestring)
    ensures Filled([Hole(node)], node, text) == Items(text)
  {
    var h, none: seq<Item<N>> := [Hole(node)], [];
    assert h[0] == Hole(node) && h[1..] == none && Filled(none, node, text) == none;
    assert Items<N>(text) + none == Items(text);
  }

  // ----- whole conversations -----

  /** Replies are queued; a length is reserved and later supplied; the socket takes some bytes. */
  datatype Op<N> = Reply(text: Bytestring) | Reserve(id: N) | Supply(id: N, length: int) | Send

  /** What the client is owed after one operation. */
  function Queue<N(==)>(s: seq<Item<N>>, op: Op<N>): seq<Item<N>>
  {
    match op
    case Reply(text) => s + Items<N>(text)
    case Reserve(id) => s + [Hole(id)]
    case Supply(id, n) => Filled(s, id, Header(STAR, n))
    case Send => s
  }

  function QueueAll<N(==)>(s: seq<Item<N>>, ops: seq<Op<N>>): seq<Item<N>>
    decreases |ops|
  {
    if ops == [] then s else QueueAll(Queue(s, ops[0]), ops[1..])
  }

  /** The holes in s as the operations supply them. */
  function Resolved<N(==)>(s: seq<Item<N>>, ops: seq<Op<N>>): seq<Item<N>>
    decreases |ops|
  {
    if ops == [] then s
    else if ops[0].Supply? then Resolved(Filled(s, ops[0].id, Header(STAR, ops[0].length)), ops[1..])
    else Resolved(s, ops[1..])
  }

  /** What was said, in the order in which it was said: a reservation contributes the length that is
      supplied for it afterwards. */
  function Said<N(==)>(ops: seq<Op<N>>): seq<Item<N>>
    decreases |ops|
  {
    if ops == [] then []
    else
      (match ops[0]
       case Reply(text) => Items<N>(text)
       case Reserve(id) => Resolved([Hole(id)], ops[1..])
       case _ => [])
      + Said(ops[1..])
  }

  lemma {:induction false} ResolvedAppend<N>(a: seq<Item<N>>, b: seq<Item<N>>, ops: seq<Op<N>>)
    ensures Resolved(a + b, ops) == Resolved(a, ops) + Resolved(b, ops)
    decreases |ops|
  {
    if ops != [] {
      if ops[0].Supply? {
        var text := Header(STAR, ops[0].length);
        FilledAppend(a, b, ops[0].id, text);
        ResolvedAppend(Filled(a, ops[0].id, text), Filled(b, ops[0].id, text), ops[1..]);
      } else {
        ResolvedAppend(a, b, ops[1..]);
      }
    }
  }

  lemma {:induction false} ResolvedText<N>(text: Bytestring, ops: seq<Op<N>>)
    ensures Resolved(Items<N>(text), ops) == Items<N>(text)
    decreases |ops|
  {
    if ops != [] {
      if ops[0].Supply? { FilledElsewhere(Items<N>(text), ops[0].id, Header(STAR, ops[0].length)); }
      ResolvedText(text, ops[1..]);
    }
  }

  lemma ReplySaid<N>(s: seq<Item<N>>, ops: seq<Op<N>>)
    requires ops != [] && ops[0].Reply?
    ensures Resolved(s + Items<N>(ops[0].text), ops[1..]) + Said(ops[1..]) == Resolved(s, ops) + Said(ops)
  {
    hide Filled, Items, Header;
    var text, more := ops[0].text, ops[1..];
    ResolvedAppend(s, Items<N>(text), more);
    ResolvedText(text, more);
    assert Resolved(s, more) + Items<N>(text) + Said(more) == Resolved(s, more) + (Items<N>(text) + Said(more));
  }

  /** In any interleaving of replies, reservations, lengths and writes, what the client has been sent
      and is still owed is exactly what was said. */
  lemma {:induction false} QueueIsSaid<N>(s: seq<Item<N>>, ops: seq<Op<N>>)
    ensures QueueAll(s, ops) == Resolved(s, ops) + Said(ops)
    decreases |ops|
  {
    hide Filled, Items, Header;
    if ops == [] {
      assert s + [] == s;
    } else {
      QueueIsSaid(Queue(s, ops[0]), ops[1..]);
      match ops[0]
      case Reply(text) => ReplySaid(s, ops);
      case Reserve(id) =>
        ResolvedAppend(s, [Hole(id)], ops[1..]);
        assert Said(ops) == Resolved([Hole(id)], ops[1..]) + Said(ops[1..]);
      case _ => assert Said(ops) == [] + Said(ops[1..]);
    }
  }

  /** Every reservation has its length supplied later on. */
  predicate Settled<N(==)>(ops: seq<Op<N>>)
    decreases |ops|
  {
    ops != [] ==> Settled(ops[1..]) && (ops[0].Reserve? ==> Supplied(ops[0].id, ops[1..]))
  }

  predicate Supplied<N(==)>(id: N, ops: seq<Op<N>>)
    decreases |ops|
  {
    ops != [] && ((ops[0].Supply? && ops[0].id == id) || Supplied(id, ops[1..]))
  }

  lemma {:induction false} SuppliedIsText<N>(id: N, ops: seq<Op<N>>)
    requires Supplied(id, ops)
    ensures exists text :: Resolved([Hole(id)], ops) == Items<N>(text)
    decreases |ops|
  {
    if ops[0].Supply? && ops[0].id == id {
      var text := Header(STAR, ops[0].length);
      FilledHere(id, text);
      ResolvedText(text, ops[1..]);
    } else {
      if ops[0].Supply? { FilledElsewhere([Hole(id)], ops[0].id, Header(STAR, ops[0].length)); }
      SuppliedIsText(id, ops[1..]);
    }
  }

  /** Once every reservation is settled there is no hole left. */
  lemma {:induction false} SettledIsText<N>(ops: seq<Op<N>>) returns (text: Bytestring)
    requires Settled(ops)
    ensures Said(ops) == Items<N>(text)
    decreases |ops|
  {
    text := [];
    if ops != [] {
      var rest := SettledIsText(ops[1..]);
      match ops[0]
      case Reply(t) => ItemsAppend<N>(t, rest); text := t + rest;
      case Reserve(id) =>
        SuppliedIsText(id, ops[1..]);
        var t :| Resolved([Hole(id)], ops[1..]) == Items<N>(t);
        ItemsAppend<N>(t, rest);
        text := t + rest;
      case _ => text := rest;
        assert Said(ops) == [] + Said(ops[1..]);
    }
  }
}
