/** networking.c, output side, as it updates the client: a fixed buffer, then a list of reference
    counted objects that may be shared with the rest of the server. */
module ReplyClient {
  import opened Bytes
  import opened Decimal
  import opened Wire
  import opened ReplyStream

  const CHUNK_BYTES := 16384
  const MAX_WRITE_PER_EVENT := 65536

  /** robj, when it holds a string; no string yet in the case of a deferred length. */
  class Obj {
    var ptr: Option<Bytestring>
    var refcount: nat

    constructor (p: Option<Bytestring>)
      ensures ptr == p && refcount == 1
    {
      ptr, refcount := p, 1;
    }
  }

  ghost function Texts(nodes: seq<Obj>): (r: seq<Option<Bytestring>>)
    reads nodes
    ensures |r| == |nodes| && forall i :: 0 <= i < |r| ==> r[i] == nodes[i].ptr
  {
    seq(|nodes|, i requires 0 <= i < |nodes| reads nodes => nodes[i].ptr)
  }

  ghost function Counts(nodes: seq<Obj>): (r: seq<nat>)
    reads nodes
    ensures |r| == |nodes| && forall i :: 0 <= i < |r| ==> r[i] == nodes[i].refcount
  {
    seq(|nodes|, i requires 0 <= i < |nodes| reads nodes => nodes[i].refcount)
  }

  /** What those who hold an object besides some list have of it: their references, and its text while they have any. */
  datatype Share = Share(references: int, text: Option<Bytestring>)

  /** How often the object is in the list. */
  function Places(nodes: seq<Obj>, o: Obj): nat
  {
    if nodes == [] then 0
    else Places(nodes[..|nodes| - 1], o) + (if nodes[|nodes| - 1] == o then 1 else 0)
  }

  /** Every place in the list accounts for one reference; a hole has no other. */
  ghost predicate Counted(nodes: seq<Obj>, counts: seq<nat>, texts: seq<Option<Bytestring>>)
    requires |nodes| == |counts| == |texts|
  {
    && (forall i :: 0 <= i < |nodes| ==> Places(nodes, nodes[i]) <= counts[i])
    && (forall i :: 0 <= i < |nodes| ==> texts[i] == None ==> counts[i] == 1)
  }

  lemma {:induction false} PlacesAppend(a: seq<Obj>, b: seq<Obj>, o: Obj)
    ensures Places(a + b, o) == Places(a, o) + Places(b, o)
  {
    if b == [] {
      assert a + b == a;
    } else {
      var n := |b| - 1;
      assert (a + b)[..|a + b| - 1] == a + b[..n];
      PlacesAppend(a, b[..n], o);
    }
  }

  lemma {:induction false} PlacesIn(nodes: seq<Obj>, i: nat)
    requires i < |nodes|
    ensures Places(nodes, nodes[i]) >= 1
  {
    if i < |nodes| - 1 { PlacesIn(nodes[..|nodes| - 1], i); }
  }

  /** An object with one reference is in the list only once. */
  lemma OnlyOnce(nodes: seq<Obj>, counts: seq<nat>, texts: seq<Option<Bytestring>>, i: nat)
    requires |nodes| == |counts| == |texts| && i < |nodes| && Counted(nodes, counts, texts) && counts[i] == 1
    ensures forall j :: 0 <= j < |nodes| && nodes[j] == nodes[i] ==> j == i
  {
    forall j | 0 <= j < |nodes| && nodes[j] == nodes[i] ensures j == i {
      if j != i {
        var (a, b) := if j < i then (j, i) else (i, j);
        assert nodes == nodes[..b] + nodes[b..];
        PlacesAppend(nodes[..b], nodes[b..], nodes[i]);
        PlacesIn(nodes[..b], a);
        PlacesIn(nodes[b..], 0);
      }
    }
  }

  lemma CountedSnoc(nodes: seq<Obj>, counts: seq<nat>, texts: seq<Option<Bytestring>>, o: Obj, r: nat,
      t: Option<Bytestring>)
    requires |nodes| == |counts| == |texts| && Counted(nodes, counts, texts)
    requires r > Places(nodes, o) && (t == None ==> r == 1)
    requires forall i :: 0 <= i < |nodes| && nodes[i] == o ==> counts[i] == r
    ensures Counted(nodes + [o], counts + [r], texts + [t])
  {
    assert (nodes + [o])[..|nodes|] == nodes;
  }

  lemma PlacesWithout(nodes: seq<Obj>, i: nat, o: Obj)
    requires i < |nodes|
    ensures Places(nodes, o) == Places(nodes[..i] + nodes[i + 1..], o) + (if nodes[i] == o then 1 else 0)
  {
    assert nodes == nodes[..i + 1] + nodes[i + 1..];
    assert nodes[..i + 1][..i] == nodes[..i];
    PlacesAppend(nodes[..i + 1], nodes[i + 1..], o);
    PlacesAppend(nodes[..i], nodes[i + 1..], o);
  }

  /** What of the list is still to be sent. */
  function Unsent(nodes: seq<Obj>, texts: seq<Option<Bytestring>>, k: nat): seq<Item<Obj>>
    requires |nodes| == |texts|
  {
    var s := ListItems(nodes, texts);
    if k <= |s| then s[k..] else []
  }

  /** The first node is text, of which k bytes are sent. */
  predicate HeadSent(texts: seq<Option<Bytestring>>, k: nat)
  {
    k == 0 || (texts != [] && texts[0].Some? && k < |texts[0].value|)
  }

  lemma UnsentAppend(nodes: seq<Obj>, texts: seq<Option<Bytestring>>, k: nat, more: seq<Obj>,
      t: seq<Option<Bytestring>>)
    requires |nodes| == |texts| && HeadSent(texts, k) && |more| == |t|
    ensures HeadSent(texts + t, k) && Unsent(nodes + more, texts + t, k) == Unsent(nodes, texts, k) + ListItems(more, t)
  {
    ListItemsAppend(nodes, texts, more, t);
    if k > 0 {
      ListItemsAt(nodes, texts, 0);
      assert |nodes[..0]| == 0;
      assert k <= |ListItems(nodes, texts)|;
    }
  }

  lemma NothingListed()
    ensures ListItems<Obj>([], []) == []
  {
  }

  lemma ListGrows(nodes: seq<Obj>, texts: seq<Option<Bytestring>>, t: Bytestring, s: Bytestring)
    requires |nodes| == |texts| && texts != [] && texts[|texts| - 1] == Some(t)
    ensures ListItems(nodes, texts[..|texts| - 1] + [Some(t + s)]) == ListItems(nodes, texts) + Items(s)
  {
    hide ListItems, Items, Node;
    var n := |nodes| - 1;
    var none: seq<Obj> := [];
    NodeText(nodes[n], t);
    NodeText(nodes[n], t + s);
    ListPieces(nodes[..n], texts[..n], nodes[n], Some(t), none, []);
    ListPieces(nodes[..n], texts[..n], nodes[n], Some(t + s), none, []);
    assert nodes[..n] + [nodes[n]] + none == nodes && texts[..n] + [Some(t)] + [] == texts;
    assert texts[..n] + [Some(t + s)] + [] == texts[..n] + [Some(t + s)];
    ItemsAppend<Obj>(t, s);
    NothingListed();
    var front := ListItems(nodes[..n], texts[..n]);
    assert front + (Items<Obj>(t) + Items<Obj>(s)) + [] == front + Items<Obj>(t) + [] + Items<Obj>(s);
  }

  /** Growing the last node grows what is unsent. */
  lemma UnsentGrows(nodes: seq<Obj>, texts: seq<Option<Bytestring>>, k: nat, t: Bytestring, s: Bytestring)
    requires |nodes| == |texts| && HeadSent(texts, k) && texts != [] && texts[|texts| - 1] == Some(t)
    ensures var more := texts[..|texts| - 1] + [Some(t + s)];
      HeadSent(more, k) && Unsent(nodes, more, k) == Unsent(nodes, texts, k) + Items(s)
  {
    hide ListItems, Items;
    ListGrows(nodes, texts, t, s);
    HeadIsShort(nodes, texts, k);
    DropAppend(ListItems(nodes, texts), Items<Obj>(s), k);
  }

  lemma DropAppend<T>(l: seq<T>, s: seq<T>, k: nat)
    requires k <= |l|
    ensures (l + s)[k..] == l[k..] + s
  {
  }

  /** What is sent of the first node is part of the list. */
  lemma HeadIsShort(nodes: seq<Obj>, texts: seq<Option<Bytestring>>, k: nat)
    requires |nodes| == |texts| && HeadSent(texts, k)
    ensures k <= |ListItems(nodes, texts)|
  {
  }

  // ----- the client's fields, as values -----

  /** b is the filled part of the static buffer. */
  function OwedOf(sent: Bytestring, b: Bytestring, k: nat, nodes: seq<Obj>,
      texts: seq<Option<Bytestring>>): seq<Item<Obj>>
    requires |nodes| == |texts|
  {
    Items<Obj>(sent) +
    (if b == [] then Unsent(nodes, texts, k)
     else (if k <= |b| then Items<Obj>(b[k..]) else []) + ListItems(nodes, texts))
  }

  ghost predicate Consistent(b: Bytestring, k: nat, nodes: seq<Obj>, counts: seq<nat>, texts: seq<Option<Bytestring>>)
    requires |nodes| == |counts| == |texts|
  {
    Counted(nodes, counts, texts) && |b| <= CHUNK_BYTES && (if b == [] then HeadSent(texts, k) else k < |b|)
  }

  lemma OwedCopy(sent: Bytestring, b: Bytestring, k: nat, s: Bytestring)
    requires Consistent(b, k, [], [], []) && |b + s| <= CHUNK_BYTES
    ensures Consistent(b + s, k, [], [], []) && OwedOf(sent, b + s, k, [], []) == OwedOf(sent, b, k, [], []) + Items(s)
  {
    hide Counted;
    if b == [] {
      assert b + s == s && s[0..] == s;
    } else {
      assert (b + s)[k..] == b[k..] + s;
      ItemsAppend<Obj>(b[k..], s);
    }
  }

  lemma OwedNode(sent: Bytestring, b: Bytestring, k: nat, nodes: seq<Obj>, counts: seq<nat>,
      texts: seq<Option<Bytestring>>, o: Obj, r: nat, t: Option<Bytestring>)
    requires |nodes| == |counts| == |texts| && Consistent(b, k, nodes, counts, texts)
    requires r > Places(nodes, o) && (t == None ==> r == 1)
    requires forall i :: 0 <= i < |nodes| && nodes[i] == o ==> counts[i] == r
    ensures Consistent(b, k, nodes + [o], counts + [r], texts + [t])
    ensures OwedOf(sent, b, k, nodes + [o], texts + [t]) == OwedOf(sent, b, k, nodes, texts) + Node(o, t)
  {
    hide Unsent, ListItems, Counted, Items, Node, Places, HeadSent;
    CountedSnoc(nodes, counts, texts, o, r, t);
    ListItemsOne(o, t);
    if b == [] {
      UnsentAppend(nodes, texts, k, [o], [t]);
    } else {
      ListItemsAppend(nodes, texts, [o], [t]);
    }
  }

  /** The last node replaced by a private copy; the reference it had to the old object is to spare. */
  lemma OwedDup(sent: Bytestring, b: Bytestring, k: nat, nodes: seq<Obj>, counts: seq<nat>,
      texts: seq<Option<Bytestring>>, dup: Obj)
    requires |nodes| == |counts| == |texts| && Consistent(b, k, nodes, counts, texts) && nodes != []
    requires texts[|nodes| - 1].Some? && dup !in nodes
    ensures var n := |nodes| - 1; var more := nodes[..n] + [dup];
      && Consistent(b, k, more, counts[..n] + [1], texts)
      && OwedOf(sent, b, k, more, texts) == OwedOf(sent, b, k, nodes, texts)
      && Places(more, nodes[n]) < counts[n]
  {
    var n := |nodes| - 1;
    var more := nodes[..n] + [dup];
    assert nodes == nodes[..n] + [nodes[n]];
    assert forall i :: 0 <= i < n ==> Places(nodes[..n], nodes[i]) <= Places(nodes, nodes[i]);
    assert Counted(nodes[..n], counts[..n], texts[..n]);
    NotThere(nodes[..n], dup);
    CountedSnoc(nodes[..n], counts[..n], texts[..n], dup, 1, texts[n]);
    assert texts[..n] + [texts[n]] == texts && more[..n] == nodes[..n];
    SameItems(nodes, more, texts);
  }

  /** A spare reference given up. */
  lemma CountedDrop(nodes: seq<Obj>, counts: seq<nat>, texts: seq<Option<Bytestring>>, o: Obj, r: seq<nat>, m: nat)
    requires |nodes| == |counts| == |texts| == |r| && Counted(nodes, counts, texts) && Places(nodes, o) <= m
    requires forall j :: 0 <= j < |nodes| ==> if nodes[j] == o then r[j] == m && texts[j].Some? else r[j] == counts[j]
    ensures Counted(nodes, r, texts)
  {
    hide Places;
  }

  lemma {:induction false} NotThere(nodes: seq<Obj>, o: Obj)
    requires o !in nodes
    ensures Places(nodes, o) == 0
  {
    if nodes != [] { NotThere(nodes[..|nodes| - 1], o); }
  }

  lemma OwedGrows(sent: Bytestring, b: Bytestring, k: nat, nodes: seq<Obj>, counts: seq<nat>,
      texts: seq<Option<Bytestring>>, t: Bytestring, s: Bytestring)
    requires |nodes| == |counts| == |texts| && Consistent(b, k, nodes, counts, texts)
    requires texts != [] && texts[|texts| - 1] == Some(t)
    ensures var more := texts[..|texts| - 1] + [Some(t + s)];
      Consistent(b, k, nodes, counts, more)
      && OwedOf(sent, b, k, nodes, more) == OwedOf(sent, b, k, nodes, texts) + Items(s)
  {
    var more := texts[..|texts| - 1] + [Some(t + s)];
    CountedGrows(nodes, counts, texts, t, s);
    hide Unsent, ListItems, Counted, Items, HeadSent;
    var x := Items<Obj>(sent);
    if b == [] {
      UnsentGrows(nodes, texts, k, t, s);
      JoinAssoc(x, Unsent(nodes, texts, k), Items<Obj>(s));
    } else {
      ListGrows(nodes, texts, t, s);
      JoinAssoc(Items<Obj>(b[k..]), ListItems(nodes, texts), Items<Obj>(s));
      JoinAssoc(x, Items<Obj>(b[k..]) + ListItems(nodes, texts), Items<Obj>(s));
    }
  }

  lemma JoinAssoc<T>(a: seq<T>, b: seq<T>, c: seq<T>)
    ensures a + (b + c) == a + b + c
  {
  }

  lemma CountedGrows(nodes: seq<Obj>, counts: seq<nat>, texts: seq<Option<Bytestring>>, t: Bytestring, s: Bytestring)
    requires |nodes| == |counts| == |texts| && Counted(nodes, counts, texts) && texts != []
      && texts[|texts| - 1] == Some(t)
    ensures Counted(nodes, counts, texts[..|texts| - 1] + [Some(t + s)])
  {
    hide Places;
  }

  // ----- lengths supplied -----

  lemma {:induction false} ListFilledElsewhere(nodes: seq<Obj>, texts: seq<Option<Bytestring>>, node: Obj,
      h: Bytestring)
    requires |nodes| == |texts| && node !in nodes
    ensures Filled(ListItems(nodes, texts), node, h) == ListItems(nodes, texts)
  {
    if nodes != [] {
      var first, rest := Node(nodes[0], texts[0]), ListItems(nodes[1..], texts[1..]);
      assert nodes[0] in nodes;
      FilledElsewhere(first, node, h);
      FilledAppend(first, rest, node, h);
      ListFilledElsewhere(nodes[1..], texts[1..], node, h);
    }
  }

  lemma ListFilled(nodes: seq<Obj>, texts: seq<Option<Bytestring>>, i: nat, h: Bytestring)
    requires |nodes| == |texts| && i < |nodes| && texts[i] == None
    requires forall j :: 0 <= j < |nodes| && nodes[j] == nodes[i] ==> j == i
    ensures Filled(ListItems(nodes, texts), nodes[i], h) == ListItems(nodes, texts[i := Some(h)])
  {
    hide ListItems, Filled, Items;
    var node, more := nodes[i], texts[i := Some(h)];
    var front, back := ListItems(nodes[..i], texts[..i]), ListItems(nodes[i + 1..], texts[i + 1..]);
    ListItemsAt(nodes, texts, i);
    ListItemsAt(nodes, more, i);
    assert more[..i] == texts[..i] && more[i + 1..] == texts[i + 1..];
    ListFilledElsewhere(nodes[..i], texts[..i], node, h);
    ListFilledElsewhere(nodes[i + 1..], texts[i + 1..], node, h);
    FilledAppend(front + [Hole(node)], back, node, h);
    FilledAppend(front, [Hole(node)], node, h);
    FilledHere(node, h);
  }

  lemma UnsentFilled(nodes: seq<Obj>, texts: seq<Option<Bytestring>>, k: nat, i: nat, h: Bytestring)
    requires |nodes| == |texts| && i < |nodes| && texts[i] == None && HeadSent(texts, k)
    requires forall j :: 0 <= j < |nodes| && nodes[j] == nodes[i] ==> j == i
    ensures HeadSent(texts[i := Some(h)], k)
    ensures Filled(Unsent(nodes, texts, k), nodes[i], h) == Unsent(nodes, texts[i := Some(h)], k)
  {
    ListFilled(nodes, texts, i, h);
    if k > 0 {
      var all, more := ListItems(nodes, texts), ListItems(nodes, texts[i := Some(h)]);
      FirstItems(nodes, texts, k);
      FirstItems(nodes, texts[i := Some(h)], k);
      hide ListItems, Items, Filled;
      NoHole(texts[0].value, k, nodes[i]);
      FilledBeyond(all, more, k, nodes[i], h);
    } else {
      Whole(nodes, texts);
      Whole(nodes, texts[i := Some(h)]);
    }
  }

  lemma Whole(nodes: seq<Obj>, texts: seq<Option<Bytestring>>)
    requires |nodes| == |texts|
    ensures Unsent(nodes, texts, 0) == ListItems(nodes, texts)
  {
  }

  lemma FilledBeyond(all: seq<Item<Obj>>, more: seq<Item<Obj>>, k: nat, node: Obj, h: Bytestring)
    requires k <= |all| && k <= |more| && all[..k] == more[..k] && Hole(node) !in all[..k]
      && Filled(all, node, h) == more
    ensures Filled(all[k..], node, h) == more[k..]
  {
    hide Filled;
    FilledElsewhere(all[..k], node, h);
    FilledAppend(all[..k], all[k..], node, h);
    assert all == all[..k] + all[k..];
    DropAppend(all[..k], Filled(all[k..], node, h), k);
  }

  lemma FirstItems(nodes: seq<Obj>, texts: seq<Option<Bytestring>>, k: nat)
    requires |nodes| == |texts| && 0 < k && HeadSent(texts, k)
    ensures k <= |ListItems(nodes, texts)| && ListItems(nodes, texts)[..k] == Items<Obj>(texts[0].value)[..k]
  {
    var rest := ListItems(nodes[1..], texts[1..]);
    assert ListItems(nodes, texts) == Items<Obj>(texts[0].value) + rest;
  }

  lemma NoHole(s: Bytestring, k: nat, o: Obj)
    requires k <= |s|
    ensures Hole(o) !in Items<Obj>(s)[..k]
  {
  }

  lemma OwedFill(sent: Bytestring, b: Bytestring, k: nat, nodes: seq<Obj>, counts: seq<nat>,
      texts: seq<Option<Bytestring>>, i: nat, h: Bytestring)
    requires |nodes| == |counts| == |texts| && Consistent(b, k, nodes, counts, texts) && i < |nodes| && texts[i] == None
    ensures var more := texts[i := Some(h)];
      && Consistent(b, k, nodes, counts, more)
      && OwedOf(sent, b, k, nodes, more) == Filled(OwedOf(sent, b, k, nodes, texts), nodes[i], h)
      && (forall j :: 0 <= j < |nodes| && nodes[j] == nodes[i] ==> j == i)
  {
    OnlyOnce(nodes, counts, texts, i);
    hide Places, ListItems, Unsent, HeadSent, Filled;
    var node := nodes[i];
    FilledElsewhere(Items<Obj>(sent), node, h);
    if b == [] {
      UnsentFilled(nodes, texts, k, i, h);
      FilledAppend(Items<Obj>(sent), Unsent(nodes, texts, k), node, h);
    } else {
      var waiting, list := Items<Obj>(b[k..]), ListItems(nodes, texts);
      ListFilled(nodes, texts, i, h);
      FilledElsewhere(waiting, node, h);
      FilledAppend(waiting, list, node, h);
      FilledAppend(Items<Obj>(sent), waiting + list, node, h);
    }
  }

  lemma ListPieces(f: seq<Obj>, ft: seq<Option<Bytestring>>, n: Obj, t: Option<Bytestring>, b: seq<Obj>,
                   bt: seq<Option<Bytestring>>)
    requires |f| == |ft| && |b| == |bt|
    ensures ListItems(f + [n] + b, ft + [t] + bt) == ListItems(f, ft) + Node(n, t) + ListItems(b, bt)
  {
    ListItemsAppend(f + [n], ft + [t], b, bt);
    ListItemsAppend(f, ft, [n], [t]);
    ListItemsOne(n, t);
    hide ListItems, Node;
  }

  lemma NodeText(n: Obj, s: Bytestring)
    ensures Node(n, Some(s)) == Items(s)
  {
  }

  /** Two neighbouring texts made one. */
  lemma ListGlued(nodes: seq<Obj>, texts: seq<Option<Bytestring>>, i: nat, a: Bytestring, t: Bytestring)
    requires |nodes| == |texts| && i + 1 < |nodes| && texts[i] == Some(a) && texts[i + 1] == Some(t)
    ensures ListItems(nodes[..i] + [nodes[i]] + nodes[i + 2..], texts[..i] + [Some(a + t)] + texts[i + 2..])
         == ListItems(nodes, texts)
  {
    hide ListItems, Items, Node;
    NodeText(nodes[i], a);
    NodeText(nodes[i], a + t);
    NodeText(nodes[i + 1], t);
    ListPieces(nodes[..i], texts[..i], nodes[i], Some(a + t), nodes[i + 2..], texts[i + 2..]);
    ListItemsAt(nodes, texts, i);
    ListTail(nodes, texts, i + 1);
    ItemsAppend<Obj>(a, t);
    var front, back := ListItems(nodes[..i], texts[..i]), ListItems(nodes[i + 2..], texts[i + 2..]);
    var x, y := Items<Obj>(a), Items<Obj>(t);
    assert front + (x + y) + back == front + x + (y + back);
  }

  /** A filled length glued to the text after it. */
  lemma OwedGlue(sent: Bytestring, b: Bytestring, k: nat, nodes: seq<Obj>, counts: seq<nat>,
      texts: seq<Option<Bytestring>>, i: nat, a: Bytestring, t: Bytestring)
    requires |nodes| == |counts| == |texts| && Consistent(b, k, nodes, counts, texts)
    requires i + 1 < |nodes| && texts[i] == Some(a) && texts[i + 1] == Some(t)
    ensures
      var glued, more := nodes[..i] + [nodes[i]] + nodes[i + 2..], texts[..i] + [Some(a + t)] + texts[i + 2..];
      && Consistent(b, k, glued, counts[..i] + [counts[i]] + counts[i + 2..], more)
      && OwedOf(sent, b, k, glued, more) == OwedOf(sent, b, k, nodes, texts)
      && Places(glued, nodes[i + 1]) < counts[i + 1]
  {
    var glued, more := nodes[..i] + [nodes[i]] + nodes[i + 2..], texts[..i] + [Some(a + t)] + texts[i + 2..];
    ListGlued(nodes, texts, i, a, t);
    CountedGlue(nodes, counts, texts, i, a + t);
    hide Places, ListItems, Counted, Items;
    assert more[0] == if i == 0 then Some(a + t) else texts[0];
  }

  lemma CountedGlue(nodes: seq<Obj>, counts: seq<nat>, texts: seq<Option<Bytestring>>, i: nat, t: Bytestring)
    requires |nodes| == |counts| == |texts| && Counted(nodes, counts, texts) && i + 1 < |nodes| && texts[i].Some?
    ensures var glued := nodes[..i] + [nodes[i]] + nodes[i + 2..];
      && Counted(glued, counts[..i] + [counts[i]] + counts[i + 2..], texts[..i] + [Some(t)] + texts[i + 2..])
      && Places(glued, nodes[i + 1]) < counts[i + 1]
  {
    var glued, c, more := nodes[..i] + [nodes[i]] + nodes[i + 2..], counts[..i] + [counts[i]] + counts[i + 2..],
      texts[..i] + [Some(t)] + texts[i + 2..];
    hide Places;
    assert glued == nodes[..i + 1] + nodes[i + 2..];
    PlacesWithout(nodes, i + 1, nodes[i + 1]);
    forall j | 0 <= j < |glued| ensures Places(glued, glued[j]) <= c[j] && (more[j] == None ==> c[j] == 1) {
      var m := if j <= i then j else j + 1;
      GluedAt(nodes, i, nodes[i], j);
      GluedAt(counts, i, counts[i], j);
      GluedAt(texts, i, Some(t), j);
      PlacesWithout(nodes, i + 1, nodes[m]);
    }
  }

  lemma GluedAt<T>(s: seq<T>, i: nat, x: T, j: nat)
    requires i + 1 < |s| && j + 1 < |s|
    ensures (s[..i] + [x] + s[i + 2..])[j] == if j < i then s[j] else if j == i then x else s[j + 1]
  {
  }

  // ----- bytes sent -----

  /** Some bytes of the static buffer written, or the rest of them. */
  lemma OwedBufferSent(sent: Bytestring, b: Bytestring, k: nat, n: nat, nodes: seq<Obj>, counts: seq<nat>,
                       texts: seq<Option<Bytestring>>)
    requires |nodes| == |counts| == |texts| && Consistent(b, k, nodes, counts, texts) && b != [] && k + n <= |b|
    ensures var (c, m) := if k + n == |b| then ([], 0) else (b, k + n);
      && Consistent(c, m, nodes, counts, texts)
      && OwedOf(sent + b[k..k + n], c, m, nodes, texts) == OwedOf(sent, b, k, nodes, texts)
  {
    hide Counted, ListItems;
    ItemsAppend<Obj>(sent, b[k..k + n]);
    ItemsAppend<Obj>(b[k..k + n], b[k + n..]);
    assert b[k..] == b[k..k + n] + b[k + n..];
    hide Items;
    var x, y, z, list := Items<Obj>(sent), Items<Obj>(b[k..k + n]), Items<Obj>(b[k + n..]), ListItems(nodes, texts);
    assert x + (y + z + list) == (x + y) + (z + list);
    if k + n == |b| { assert |b[k + n..]| == 0; EmptyItems(b[k + n..]); assert z + list == list; }
  }

  lemma EmptyItems(s: Bytestring)
    requires |s| == 0
    ensures Items<Obj>(s) == []
  {
  }

  /** Some bytes of the first node written. */
  lemma OwedNodeSent(sent: Bytestring, k: nat, n: nat, nodes: seq<Obj>, counts: seq<nat>,
      texts: seq<Option<Bytestring>>)
    requires |nodes| == |counts| == |texts| && Consistent([], k, nodes, counts, texts)
    requires nodes != [] && texts[0].Some? && k + n < |texts[0].value|
    ensures Consistent([], k + n, nodes, counts, texts)
    ensures OwedOf(sent + texts[0].value[k..k + n], [], k + n, nodes, texts) == OwedOf(sent, [], k, nodes, texts)
  {
    hide Counted, ListItems, Unsent, Items;
    var t := texts[0].value;
    UnsentHead(nodes, texts, k);
    UnsentHead(nodes, texts, k + n);
    ItemsAppend<Obj>(sent, t[k..k + n]);
    ItemsAppend<Obj>(t[k..k + n], t[k + n..]);
    assert t[k..] == t[k..k + n] + t[k + n..];
    var rest := ListItems(nodes[1..], texts[1..]);
    var x, y, z := Items<Obj>(sent), Items<Obj>(t[k..k + n]), Items<Obj>(t[k + n..]);
    assert x + (y + z + rest) == (x + y) + (z + rest);
  }

  lemma UnsentHead(nodes: seq<Obj>, texts: seq<Option<Bytestring>>, k: nat)
    requires |nodes| == |texts| && nodes != [] && texts[0].Some? && k <= |texts[0].value|
    ensures Unsent(nodes, texts, k) == Items<Obj>(texts[0].value[k..]) + ListItems(nodes[1..], texts[1..])
  {
    var t, rest := texts[0].value, ListItems(nodes[1..], texts[1..]);
    assert ListItems(nodes, texts) == Items<Obj>(t) + rest;
    assert Items<Obj>(t)[k..] == Items<Obj>(t[k..]);
    assert (Items<Obj>(t) + rest)[k..] == Items<Obj>(t)[k..] + rest;
  }

  /** The first node written to its end, and removed. */
  lemma OwedNodeDone(sent: Bytestring, k: nat, nodes: seq<Obj>, counts: seq<nat>, texts: seq<Option<Bytestring>>)
    requires |nodes| == |counts| == |texts| && Consistent([], k, nodes, counts, texts)
    requires nodes != [] && texts[0].Some? && k <= |texts[0].value|
    ensures Consistent([], 0, nodes[1..], counts[1..], texts[1..])
    ensures OwedOf(sent + texts[0].value[k..], [], 0, nodes[1..], texts[1..]) == OwedOf(sent, [], k, nodes, texts)
    ensures Places(nodes[1..], nodes[0]) < counts[0]
  {
    var t := texts[0].value;
    UnsentHead(nodes, texts, k);
    CountedTail(nodes, counts, texts);
    hide Counted, Places;
    ItemsAppend<Obj>(sent, t[k..]);
    var rest := ListItems(nodes[1..], texts[1..]);
    assert rest[0..] == rest;
    hide Items, ListItems;
    assert Items<Obj>(sent) + (Items<Obj>(t[k..]) + rest) == (Items<Obj>(sent) + Items<Obj>(t[k..])) + rest;
  }

  // ----- what the socket takes -----

  function Short(n: nat, k: nat): nat { if k <= n then n - k else 0 }

  function Lengths(texts: seq<Option<Bytestring>>): (r: seq<nat>)
    ensures |r| == |texts|
  {
    seq(|texts|, i requires 0 <= i < |texts| => if texts[i].Some? then |texts[i].value| else 0)
  }

  /** The sizes of what is to be handed to write(), piece by piece: the rest of the static buffer, if it holds anything,
      and the objects of the list; `k` bytes of the first piece have been written. */
  function PiecesOf(buffered: nat, k: nat, lengths: seq<nat>): seq<nat>
  {
    if buffered > 0 then [Short(buffered, k)] + lengths
    else if lengths == [] then []
    else [Short(lengths[0], k)] + lengths[1..]
  }

  /** Empty pieces are passed over. */
  function Trim(pieces: seq<nat>): seq<nat>
  {
    if pieces != [] && pieces[0] == 0 then Trim(pieces[1..]) else pieces
  }

  /** A write gets the rest of the first piece, and the socket takes at most `take` bytes of it. */
  function Cut(pieces: seq<nat>, take: int): seq<nat>
  {
    if pieces == [] || take <= 0 then pieces
    else if take < pieces[0] then [pieces[0] - take] + pieces[1..]
    else Trim(pieces[1..])
  }

  /** What is left of the pieces after the first k writes. */
  function Left(pieces: seq<nat>, takes: seq<int>, k: nat): seq<nat>
    requires k <= |takes|
  {
    if k == 0 then Trim(pieces) else Cut(Left(pieces, takes, k - 1), takes[k - 1])
  }

  /** The bytes that go out in the first k writes: for each the smaller of what the socket takes and what is left of the
      piece. */
  function Written(pieces: seq<nat>, takes: seq<int>, k: nat): int
    requires k <= |takes|
  {
    if k == 0 then 0
    else
      var left, take := Left(pieces, takes, k - 1), takes[k - 1];
      Written(pieces, takes, k - 1) + if left == [] then 0 else if take < left[0] then take else left[0]
  }

  /** A write that the socket takes `take` bytes of at most, and n in fact. */
  predicate Wrote(was: seq<nat>, now: seq<nat>, take: int, n: nat)
  {
    was != [] && n == (if take < was[0] then take else was[0]) && now == Cut(was, take)
  }

  lemma HeadCut(pieces: seq<nat>, take: int, n: nat)
    requires pieces != [] && pieces[0] > 0 && take > 0 && n == if take < pieces[0] then take else pieces[0]
    ensures Wrote(Trim(pieces), Trim(if n == pieces[0] then pieces[1..] else [pieces[0] - n] + pieces[1..]), take, n)
  {
  }

  /** n bytes of the static buffer written, or of the first object where the buffer is empty. */
  lemma PieceCut(buffered: nat, k: nat, lengths: seq<nat>, take: int, n: nat)
    requires take > 0 && if buffered > 0 then k < buffered else lengths != [] && k < lengths[0]
    requires var rest := Short(if buffered > 0 then buffered else lengths[0], k);
      n == if take < rest then take else rest
    ensures var was := Trim(PiecesOf(buffered, k, lengths));
      if buffered > 0 then
        Wrote(was, Trim(if k + n == buffered then PiecesOf(0, 0, lengths) else PiecesOf(buffered, k + n, lengths)),
          take, n)
      else
        Wrote(was, Trim(if k + n == lengths[0] then PiecesOf(0, 0, lengths[1..]) else PiecesOf(0, k + n, lengths)),
          take, n)
  {
    hide Wrote, Trim;
    HeadCut(PiecesOf(buffered, k, lengths), take, n);
    if buffered > 0 { WholePieces(lengths); } else { WholePieces(lengths[1..]); }
  }

  lemma WholePieces(lengths: seq<nat>)
    ensures PiecesOf(0, 0, lengths) == lengths
  {
  }

  /** Some writes so far: each took something, `total` bytes in all, and before the last they were not too many. */
  ghost predicate Progress(pieces: seq<nat>, net: seq<int>, writes: nat, overMemory: bool, total: int, left: seq<nat>)
  {
    && writes <= |net| && (forall i :: 0 <= i < writes ==> net[i] > 0) && (writes > 0 ==> total > 0)
    && total == Written(pieces, net, writes) && left == Left(pieces, net, writes)
    && (!overMemory ==> forall j :: 0 <= j < writes ==> Written(pieces, net, j) <= MAX_WRITE_PER_EVENT)
  }

  lemma Progressed(pieces: seq<nat>, net: seq<int>, writes: nat, overMemory: bool, total: int, left: seq<nat>)
    requires Progress(pieces, net, writes, overMemory, total, left)
    ensures writes <= |net| && (forall i :: 0 <= i < writes ==> net[i] > 0) && (writes > 0 ==> total > 0)
    ensures total == Written(pieces, net, writes)
    ensures !overMemory ==> forall j :: 0 <= j < writes ==> Written(pieces, net, j) <= MAX_WRITE_PER_EVENT
  {
  }

  lemma Writable(pieces: seq<nat>, net: seq<int>, writes: nat, overMemory: bool, total: int, left: seq<nat>)
    requires Progress(pieces, net, writes, overMemory, total, left)
    ensures writes <= |net|
  {
  }

  lemma ProgressStart(pieces: seq<nat>, net: seq<int>, overMemory: bool)
    ensures Progress(pieces, net, 0, overMemory, 0, Trim(pieces))
  {
  }

  lemma ProgressStep(pieces: seq<nat>, net: seq<int>, writes: nat, overMemory: bool, total: int, left: seq<nat>,
                     n: nat, next: seq<nat>)
    requires Progress(pieces, net, writes, overMemory, total, left) && (overMemory || total <= MAX_WRITE_PER_EVENT)
    requires writes < |net| && net[writes] > 0 && n > 0 && Wrote(left, next, net[writes], n) && total >= 0
    ensures Progress(pieces, net, writes + 1, overMemory, total + n, next)
  {
    hide Trim, Cut;
  }

  lemma EmptyPiece(lengths: seq<nat>)
    requires lengths != [] && lengths[0] == 0
    ensures Trim(PiecesOf(0, 0, lengths)) == Trim(PiecesOf(0, 0, lengths[1..]))
  {
    assert PiecesOf(0, 0, lengths) == lengths && PiecesOf(0, 0, lengths[1..]) == lengths[1..];
  }

  lemma LengthsRest(texts: seq<Option<Bytestring>>)
    requires texts != []
    ensures Lengths(texts[1..]) == Lengths(texts)[1..]
  {
  }

  lemma CountedTail(nodes: seq<Obj>, counts: seq<nat>, texts: seq<Option<Bytestring>>)
    requires |nodes| == |counts| == |texts| && Counted(nodes, counts, texts) && nodes != []
    ensures Counted(nodes[1..], counts[1..], texts[1..]) && Places(nodes[1..], nodes[0]) < counts[0]
  {
    forall j | 0 <= j < |nodes[1..]| ensures Places(nodes[1..], nodes[1..][j]) <= counts[1..][j] {
      PlacesFirst(nodes, nodes[j + 1]);
    }
    PlacesFirst(nodes, nodes[0]);
    hide Places;
  }

  lemma PlacesSnoc(nodes: seq<Obj>, o: Obj, x: Obj)
    ensures Places(nodes + [o], x) == Places(nodes, x) + (if x == o then 1 else 0)
  {
    assert (nodes + [o])[..|nodes|] == nodes;
  }

  lemma PlacesGlued(nodes: seq<Obj>, i: nat, x: Obj)
    requires i + 1 < |nodes|
    ensures Places(nodes, x)
         == Places(nodes[..i] + [nodes[i]] + nodes[i + 2..], x) + (if nodes[i + 1] == x then 1 else 0)
  {
    hide Places;
    PlacesWithout(nodes, i + 1, x);
    assert nodes[..i + 1] == nodes[..i] + [nodes[i]];
  }

  lemma PlacesFirst(nodes: seq<Obj>, o: Obj)
    requires nodes != []
    ensures Places(nodes, o) == Places(nodes[1..], o) + (if nodes[0] == o then 1 else 0)
  {
    PlacesWithout(nodes, 0, o);
    assert nodes[..0] + nodes[1..] == nodes[1..];
  }

  /** A text does not say which node it is in. */
  lemma SameItems(a: seq<Obj>, b: seq<Obj>, texts: seq<Option<Bytestring>>)
    requires |a| == |b| == |texts| && forall i :: 0 <= i < |a| ==> a[i] == b[i] || texts[i].Some?
    ensures ListItems(a, texts) == ListItems(b, texts)
  {
    if a != [] { SameItems(a[1..], b[1..], texts[1..]); }
  }

  class Client {
    const buf: array<Byte>
    var bufpos: nat
    var sentlen: nat
    var reply: seq<Obj>
    var closing: bool
    ghost var sent: Bytestring

    ghost predicate Valid()
      reads this, buf, reply
    {
      bufpos <= buf.Length == CHUNK_BYTES && Consistent(buf[..bufpos], sentlen, reply, Counts(reply), Texts(reply))
    }

    /** Bytes written to the socket, then what is still to be written. */
    ghost function Owed(): seq<Item<Obj>>
      requires bufpos <= buf.Length
      reads this, buf, reply
    {
      OwedOf(sent, buf[..bufpos], sentlen, reply, Texts(reply))
    }

    /** The references to the object besides those of the list. */
    ghost function Spare(x: Obj): int
      reads this`reply, x`refcount
    {
      x.refcount - Places(reply, x)
    }

    ghost function Outside(x: Obj): Share
      reads this`reply, x
    {
      Share(Spare(x), if Spare(x) > 0 then x.ptr else None)
    }

    /** setProtocolError: what is owed is still sent, and no more replies are taken. */
    method CloseAfterReply()
      requires Valid()
      modifies `closing
      ensures Valid() && closing && Owed() == old(Owed())
    {
      closing := true;
    }

    constructor ()
      ensures Valid() && Owed() == [] && fresh(buf) && !closing
    {
      buf := new Byte[CHUNK_BYTES](i => 0);
      bufpos, sentlen, reply, closing, sent := 0, 0, [], false, [];
    }

    /** _addReplyToBuffer. */
    method AddReplyToBuffer(s: Bytestring) returns (ok: bool)
      requires Valid()
      modifies this`bufpos, buf
      ensures Valid() && Owed() == old(Owed()) + (if ok && !closing then Items<Obj>(s) else [])
      ensures ok == (closing || (reply == [] && |s| <= CHUNK_BYTES - old(bufpos)))
    {
      hide OwedOf, Consistent, Items;
      assert Owed() + [] == Owed();
      if closing { return true; }
      if |reply| > 0 { return false; }
      assert |buf[..bufpos]| <= CHUNK_BYTES;
      if |s| > buf.Length - bufpos { return false; }
      ghost var before := buf[..bufpos];
      assert Texts(reply) == [] && Counts(reply) == [];
      forall k | 0 <= k < |s| { buf[bufpos + k] := s[k]; }
      bufpos := bufpos + |s|;
      assert buf[..bufpos] == before + s;
      OwedCopy(sent, before, sentlen, s);
      return true;
    }

    /** Adds a node at the end; the caller has counted its reference. */
    method AddNodeTail(o: Obj)
      requires Valid() && Spare(o) > 0 && (o.ptr == None ==> o.refcount == 1)
      modifies this`reply
      ensures Valid() && reply == old(reply) + [o] && Owed() == old(Owed()) + Node(o, o.ptr)
      ensures forall x: Obj :: old(allocated(x)) ==> Spare(x) == old(Spare(x)) - (if x == o then 1 else 0)
    {
      hide OwedOf, Consistent, Places;
      ghost var nodes, texts, counts := reply, Texts(reply), Counts(reply);
      reply := reply + [o];
      assert Texts(reply) == texts + [o.ptr] && Counts(reply) == counts + [o.refcount];
      OwedNode(sent, buf[..bufpos], sentlen, nodes, counts, texts, o, o.refcount, o.ptr);
      forall x: Obj | old(allocated(x)) ensures Spare(x) == old(Spare(x)) - (if x == o then 1 else 0) {
        PlacesSnoc(nodes, o, x);
      }
    }

    /** dupLastObjectIfNeeded: the last object of the list, exclusively the list's own. */
    method DupLastObjectIfNeeded(ghost last: Obj) returns (cur: Obj)
      requires Valid() && reply != [] && reply[|reply| - 1] == last && last.ptr.Some?
      modifies this`reply, last`refcount
      ensures Valid() && Owed() == old(Owed()) && |reply| == old(|reply|)
      ensures reply == old(reply)[..|reply| - 1] + [cur] && cur.refcount == 1 && cur.ptr == last.ptr
      ensures if old(last.refcount) > 1 then fresh(cur) && last.refcount == old(last.refcount) - 1 else cur == last
      ensures forall x: Obj :: old(allocated(x)) ==> Outside(x) == old(Outside(x))
    {
      hide OwedOf, Consistent, Places;
      var n := |reply| - 1;
      cur := reply[n];
      LastCounted(buf[..bufpos], sentlen, reply, Counts(reply), Texts(reply));
      if cur.refcount > 1 {
        cur := DupLast(cur);
      } else {
        assert reply == reply[..n] + [cur];
      }
    }

    /** A private copy made of the last object, and the old one released. */
    method DupLast(last: Obj) returns (dup: Obj)
      requires Valid() && reply != [] && reply[|reply| - 1] == last && last.ptr.Some? && last.refcount > 1
      modifies this`reply, last`refcount
      ensures Valid() && Owed() == old(Owed()) && fresh(dup) && last.refcount == old(last.refcount) - 1
      ensures |reply| == old(|reply|) && reply == old(reply)[..|reply| - 1] + [dup] && dup.refcount == 1
        && dup.ptr == last.ptr
      ensures forall x: Obj :: old(allocated(x)) ==> Outside(x) == old(Outside(x))
    {
      hide OwedOf, Consistent, Places;
      dup := new Obj(last.ptr);
      ReplaceLast(last, dup);
      forall x: Obj | old(allocated(x)) ensures Spare(x) == old(Spare(x)) + (if x == last then 1 else 0) {}
      hide Spare;
      DecrRefCount(last);
    }

    method ReplaceLast(ghost last: Obj, dup: Obj)
      requires Valid() && reply != [] && reply[|reply| - 1] == last && last.ptr.Some?
      requires dup !in reply && dup.ptr == last.ptr && dup.refcount == 1
      modifies this`reply
      ensures Valid() && Owed() == old(Owed()) && Spare(last) > 0
      ensures |reply| == old(|reply|) && reply == old(reply)[..|reply| - 1] + [dup]
      ensures forall x: Obj :: old(allocated(x)) && x != dup ==>
        Spare(x) == old(Spare(x)) + (if x == last then 1 else 0)
    {
      hide OwedOf, Consistent, Places;
      ghost var b, nodes, texts, counts := buf[..bufpos], reply, Texts(reply), Counts(reply);
      var n := |reply| - 1;
      OwedDup(sent, b, sentlen, nodes, counts, texts, dup);
      LastReplaced(nodes, dup);
      Rejoined(texts);
      reply := reply[..n] + [dup];
      assert Texts(reply) == texts;
      forall x: Obj | old(allocated(x)) && x != dup
        ensures Spare(x) == old(Spare(x)) + (if x == last then 1 else 0) {
        PlacesReplaced(nodes, dup, x);
      }
    }

    /** decrRefCount, by a holder outside the list. */
    method DecrRefCount(o: Obj)
      requires Valid() && Spare(o) > 0 && o.ptr.Some?
      modifies o`refcount
      ensures Valid() && Owed() == old(Owed()) && o.refcount == old(o.refcount) - 1 && Spare(o) == old(Spare(o)) - 1
    {
      hide OwedOf, Counted, Places, HeadSent;
      ghost var counts, texts := Counts(reply), Texts(reply);
      o.refcount := o.refcount - 1;
      assert Texts(reply) == texts;
      CountedDrop(reply, counts, texts, o, Counts(reply), o.refcount);
    }

    // ----- replies -----

    /** sdscatlen onto the last object, which is the list's own. */
    method CatToLast(cur: Obj, s: Bytestring)
      requires Valid() && reply != [] && reply[|reply| - 1] == cur && cur.refcount == 1 && cur.ptr.Some?
      modifies cur`ptr
      ensures Valid() && Owed() == old(Owed()) + Items<Obj>(s) && cur.ptr == Some(old(cur.ptr.value) + s)
      ensures forall x: Obj :: old(allocated(x)) ==> Outside(x) == old(Outside(x))
    {
      PlacesIn(reply, |reply| - 1);
      ghost var n, texts, counts := |reply| - 1, Texts(reply), Counts(reply);
      OnlyOnce(reply, counts, texts, n);
      hide OwedOf, Consistent, Places;
      OwedGrows(sent, buf[..bufpos], sentlen, reply, counts, texts, cur.ptr.value, s);
      cur.ptr := Some(cur.ptr.value + s);
      assert Texts(reply) == texts[..n] + [cur.ptr];
    }

    /** The last object, made the list's own if it is shared, takes the text. */
    method AppendToTail(tail: Obj, s: Bytestring)
      requires Valid() && reply != [] && reply[|reply| - 1] == tail && tail.ptr.Some?
      modifies this`reply, tail
      ensures Valid() && Owed() == old(Owed()) + Items<Obj>(s)
      ensures old(tail.refcount) > 1 ==> tail.ptr == old(tail.ptr)
      ensures forall x :: x in reply ==> x in old(reply) || fresh(x)
      ensures forall x: Obj :: old(allocated(x)) ==> Outside(x) == old(Outside(x))
    {
      hide OwedOf, Consistent, Places;
      ghost var nodes := reply;
      var cur := DupLastObjectIfNeeded(tail);
      assert nodes == nodes[..|nodes| - 1] + [tail];
      CatToLast(cur, s);
    }

    /** Whether the end of the list has room for so much text. */
    predicate Roomy(len: nat)
      reads this`reply, reply
    {
      reply != [] && reply[|reply| - 1].ptr.Some? && |reply[|reply| - 1].ptr.value| + len <= CHUNK_BYTES
    }

    /** _addReplyStringToList and _addReplySdsToList. */
    method AddReplyStringToList(s: Bytestring)
      requires Valid()
      modifies this`reply, reply
      ensures Valid() && Owed() == old(Owed()) + (if closing then [] else Items<Obj>(s))
      ensures forall x :: x in reply ==> x in old(reply) || fresh(x)
      ensures forall o :: o in old(reply) && old(o.refcount) > 1 ==> o.ptr == old(o.ptr)
      ensures forall x: Obj :: old(allocated(x)) ==> Outside(x) == old(Outside(x))
    {
      hide OwedOf, Consistent, Places;
      assert Owed() + [] == Owed();
      if closing { return; }
      if Roomy(|s|) {
        AppendToTail(reply[|reply| - 1], s);
      } else {
        var o := new Obj(Some(s));
        NotThere(reply, o);
        AddNodeTail(o);
      }
    }

    /** _addReplyObjectToList; the caller holds a reference of its own. */
    method AddReplyObjectToList(o: Obj)
      requires Valid() && o.ptr.Some? && Spare(o) > 0
      modifies this`reply, reply, o`refcount
      ensures Valid() && Owed() == old(Owed()) + (if closing then [] else Items<Obj>(old(o.ptr.value)))
      ensures forall x :: x in old(reply) && old(x.refcount) > 1 ==> x.ptr == old(x.ptr)
      ensures forall x :: x in reply ==> x in old(reply) || x == o || fresh(x)
      ensures o.ptr == old(o.ptr)
      ensures forall x: Obj :: old(allocated(x)) ==> Outside(x) == old(Outside(x))
    {
      hide OwedOf, Consistent, Places;
      assert Owed() + [] == Owed();
      if closing { return; }
      if Roomy(|o.ptr.value|) {
        AppendToTail(reply[|reply| - 1], o.ptr.value);
        assert Outside(o) == old(Outside(o));
      } else {
        IncrRefCount(o);
        AddNodeTail(o);
      }
    }

    method IncrRefCount(o: Obj)
      requires Valid() && Spare(o) > 0 && o.ptr.Some?
      modifies o`refcount
      ensures Valid() && Owed() == old(Owed()) && o.refcount == old(o.refcount) + 1 && Spare(o) == old(Spare(o)) + 1
    {
      hide OwedOf, Counted, Places, HeadSent;
      ghost var counts, texts := Counts(reply), Texts(reply);
      o.refcount := o.refcount + 1;
      assert Texts(reply) == texts;
      CountedDrop(reply, counts, texts, o, Counts(reply), o.refcount);
    }

    /** addReply, of an object the caller holds. */
    method AddReply(o: Obj)
      requires Valid() && o.ptr.Some? && Spare(o) > 0
      modifies this`reply, this`bufpos, buf, reply, o`refcount
      ensures Valid() && Owed() == if closing then old(Owed()) else Queue(old(Owed()), Op.Reply(old(o.ptr.value)))
      ensures forall x :: x in old(reply) && old(x.refcount) > 1 ==> x.ptr == old(x.ptr)
      ensures forall x :: x in reply ==> x in old(reply) || x == o || fresh(x)
      ensures o.ptr == old(o.ptr)
      ensures forall x: Obj :: old(allocated(x)) ==> Outside(x) == old(Outside(x))
    {
      hide OwedOf, Consistent, Places;
      assert Owed() + [] == Owed();
      var ok := AddReplyToBuffer(o.ptr.value);
      if !ok { AddReplyObjectToList(o); }
    }

    /** addReplyString and addReplySds. */
    method AddReplyString(s: Bytestring)
      requires Valid()
      modifies this`reply, this`bufpos, buf, reply
      ensures Valid() && Owed() == if closing then old(Owed()) else Queue(old(Owed()), Op.Reply(s))
      ensures forall x :: x in reply ==> x in old(reply) || fresh(x)
      ensures forall x :: x in old(reply) && old(x.refcount) > 1 ==> x.ptr == old(x.ptr)
      ensures forall x: Obj :: old(allocated(x)) ==> Outside(x) == old(Outside(x))
    {
      hide OwedOf, Consistent, Places;
      assert Owed() + [] == Owed();
      var ok := AddReplyToBuffer(s);
      if !ok { AddReplyStringToList(s); }
    }

    /** addReply, of a string object made for it (getDecodedObject), which is given up afterwards. */
    method AddReplyDecoded(s: Bytestring)
      requires Valid()
      modifies this`reply, this`bufpos, buf, reply
      ensures Valid() && Owed() == if closing then old(Owed()) else Queue(old(Owed()), Op.Reply(s))
      ensures forall x :: x in reply ==> x in old(reply) || fresh(x)
      ensures forall x :: x in old(reply) && old(x.refcount) > 1 ==> x.ptr == old(x.ptr)
      ensures forall x: Obj :: old(allocated(x)) ==> Outside(x) == old(Outside(x))
    {
      hide OwedOf, Consistent, Places, Queue, Texts, Counts;
      var o := new Obj(Some(s));
      NotThere(reply, o);
      label Made:
      AddReply(o);
      assert Outside(o) == old@Made(Outside(o));
      DecrRefCount(o);
    }

    /** addReply, of an object that holds an integer instead of text. */
    method AddReplyInteger(v: int)
      requires Valid() && Int64(v)
      modifies this`reply, this`bufpos, buf, reply
      ensures Valid() && Owed() == if closing then old(Owed()) else Queue(old(Owed()), Op.Reply(Print(v)))
      ensures forall x :: x in reply ==> x in old(reply) || fresh(x)
      ensures forall x :: x in old(reply) && old(x.refcount) > 1 ==> x.ptr == old(x.ptr)
      ensures forall x: Obj :: old(allocated(x)) ==> Outside(x) == old(Outside(x))
    {
      hide OwedOf, Consistent, Places;
      assert Owed() + [] == Owed();
      var s := Ll2String(v);
      if |reply| == 0 && buf.Length - bufpos >= 32 {
        var ok := AddReplyToBuffer(s);
        if ok { return; }
      }
      AddReplyDecoded(s);
    }

    // ----- deferred lengths -----

    /** addDeferredMultiBulkLength. */
    method AddDeferredMultiBulkLength() returns (node: Obj)
      requires Valid()
      modifies this`reply
      ensures Valid() && fresh(node) && node.ptr == None && reply == old(reply) + [node]
      ensures Owed() == Queue(old(Owed()), Reserve(node))
      ensures forall x: Obj :: old(allocated(x)) ==> Outside(x) == old(Outside(x))
    {
      node := new Obj(None);
      NotThere(reply, node);
      AddNodeTail(node);
    }

    /** setDeferredMultiBulkLength: the length goes where it was reserved, and is glued to the text
        after it, if that is text. */
    method SetDeferredMultiBulkLength(node: Obj, length: int)
      requires Valid() && node in reply && node.ptr == None && Int64(length)
      modifies this`reply, reply
      ensures Valid() && Owed() == Queue(old(Owed()), Supply(node, length))
      ensures forall x :: x in reply ==> x in old(reply)
      ensures forall x :: x in old(reply) && x != node ==> x.ptr == old(x.ptr)
      ensures forall x: Obj :: old(allocated(x)) ==> Outside(x) == old(Outside(x))
    {
      hide OwedOf, Consistent, Places, Filled;
      var i :| 0 <= i < |reply| && reply[i] == node;
      var n := Ll2String(length);
      FillNode(node, i, [STAR] + n + CRLF);
      if i + 1 < |reply| && reply[i + 1].ptr.Some? {
        GlueNext(node, i, reply[i + 1]);
      }
    }

    method FillNode(node: Obj, ghost i: nat, h: Bytestring)
      requires Valid() && i < |reply| && reply[i] == node && node.ptr == None
      modifies node`ptr
      ensures Valid() && Owed() == Filled(old(Owed()), node, h) && node.ptr == Some(h)
      ensures Spare(node) == 0 && forall j :: 0 <= j < |reply| && reply[j] == node ==> j == i
    {
      hide OwedOf, Consistent, Places, Filled;
      ghost var texts, counts := Texts(reply), Counts(reply);
      OwedFill(sent, buf[..bufpos], sentlen, reply, counts, texts, i, h);
      HoleIsOwn(buf[..bufpos], sentlen, reply, counts, texts, i);
      node.ptr := Some(h);
      assert Texts(reply) == texts[i := Some(h)] && Counts(reply) == counts;
    }

    method GlueNext(node: Obj, i: nat, next: Obj)
      requires Valid() && i + 1 < |reply| && reply[i] == node && reply[i + 1] == next && node.ptr.Some?
        && next.ptr.Some?
      requires Spare(node) == 0 && forall j :: 0 <= j < |reply| && reply[j] == node ==> j == i
      modifies this`reply, node`ptr, next`refcount
      ensures forall x :: x in reply ==> x in old(reply)
      ensures Valid() && Owed() == old(Owed())
      ensures forall x: Obj :: old(allocated(x)) ==> Outside(x) == old(Outside(x))
    {
      hide OwedOf, Consistent, Places;
      ghost var nodes, texts, counts := reply, Texts(reply), Counts(reply);
      ghost var a, t := node.ptr.value, next.ptr.value;
      OwedGlue(sent, buf[..bufpos], sentlen, nodes, counts, texts, i, a, t);
      node.ptr := Some(node.ptr.value + next.ptr.value);
      reply := reply[..i] + [node] + reply[i + 2..];
      assert Texts(reply) == texts[..i] + [Some(a + t)] + texts[i + 2..];
      assert Counts(reply) == counts[..i] + [counts[i]] + counts[i + 2..];
      forall x: Obj | old(allocated(x)) ensures Spare(x) == old(Spare(x)) + (if x == next then 1 else 0) {
        PlacesGlued(nodes, i, x);
      }
      DecrRefCount(next);
    }

    // ----- sending -----

    /** The sizes of the pieces still to be written. */
    ghost function Pieces(): seq<nat>
      reads this`bufpos, this`sentlen, this`reply, reply
    {
      PiecesOf(bufpos, sentlen, Sizes())
    }

    ghost function Sizes(): (r: seq<nat>)
      reads this`reply, reply
      ensures |r| == |reply|
    {
      Lengths(Texts(reply))
    }

    /** Nothing is left to write. */
    predicate Drained()
      reads this`bufpos, this`reply
    {
      bufpos == 0 && reply == []
    }

    ghost predicate NoHoles()
      reads this`reply, reply
    {
      forall i :: 0 <= i < |reply| ==> reply[i].ptr.Some?
    }

    /** n bytes of the static buffer written. */
    method BufferWritten(n: nat)
      requires Valid() && bufpos > 0 && sentlen + n <= bufpos
      modifies this`sent, this`sentlen, this`bufpos
      ensures Valid() && Owed() == old(Owed()) && sent == old(sent) + old(buf[sentlen..sentlen + n])
      ensures Pieces() == if old(sentlen) + n == old(bufpos) then PiecesOf(0, 0, old(Sizes()))
        else PiecesOf(old(bufpos), old(sentlen) + n, old(Sizes()))
    {
      hide OwedOf, Consistent, PiecesOf, Lengths;
      ghost var b := buf[..bufpos];
      assert buf[sentlen..sentlen + n] == b[sentlen..sentlen + n];
      OwedBufferSent(sent, b, sentlen, n, reply, Counts(reply), Texts(reply));
      sent := sent + buf[sentlen..sentlen + n];
      sentlen := sentlen + n;
      if sentlen == bufpos {
        bufpos := 0;
        sentlen := 0;
        assert buf[..bufpos] == [];
      }
    }

    /** n bytes of the first object written, or all the rest of it. */
    method ObjectWritten(n: nat)
      requires Valid() && bufpos == 0 && reply != [] && reply[0].ptr.Some? && sentlen + n < |reply[0].ptr.value|
      modifies this`sent, this`sentlen
      ensures Valid() && Owed() == old(Owed()) && sent == old(sent) + reply[0].ptr.value[old(sentlen)..old(sentlen) + n]
        && Pieces() == PiecesOf(0, old(sentlen) + n, old(Sizes()))
    {
      hide OwedOf, Consistent;
      assert buf[..bufpos] == [];
      OwedNodeSent(sent, sentlen, n, reply, Counts(reply), Texts(reply));
      sent := sent + reply[0].ptr.value[sentlen..sentlen + n];
      sentlen := sentlen + n;
    }

    method ObjectDone(o: Obj)
      requires Valid() && bufpos == 0 && reply != [] && reply[0] == o && o.ptr.Some? && sentlen <= |o.ptr.value|
      modifies this`sent, this`sentlen, this`reply, o`refcount
      ensures Valid() && Owed() == old(Owed()) && sent == old(sent) + o.ptr.value[old(sentlen)..]
      ensures reply == old(reply)[1..] && bufpos == 0 && sentlen == 0 && Pieces() == PiecesOf(0, 0, old(Sizes())[1..])
      ensures forall x: Obj :: old(allocated(x)) ==> Outside(x) == old(Outside(x))
    {
      hide OwedOf, Consistent, Places, PiecesOf, Lengths;
      assert buf[..bufpos] == [];
      ghost var nodes, texts, counts := reply, Texts(reply), Counts(reply);
      OwedNodeDone(sent, sentlen, nodes, counts, texts);
      sent := sent + o.ptr.value[sentlen..];
      reply := reply[1..];
      sentlen := 0;
      assert Texts(reply) == texts[1..] && Counts(reply) == counts[1..];
      LengthsRest(texts);
      forall x: Obj | old(allocated(x)) ensures Spare(x) == old(Spare(x)) + (if x == o then 1 else 0) {
        PlacesFirst(nodes, x);
      }
      DecrRefCount(o);
      assert Texts(reply) == texts[1..];
    }

    /** sendReplyToClient. The calls to write return the numbers in `net`, and nothing after that; one that is not
        positive ends the loop, and so does the first after which more than MAX_WRITE_PER_EVENT bytes have gone out,
        unless the server is short of memory. `writes` is the number of calls that took something. */
    method SendReplyToClient(net: seq<int>, overMemory: bool) returns (ghost writes: nat)
      requires Valid() && NoHoles()
      modifies this`sent, this`sentlen, this`bufpos, this`reply, reply`refcount
      ensures Valid() && NoHoles() && Owed() == Queue(old(Owed()), Send) && old(sent) <= sent
      ensures writes <= |net| && forall i :: 0 <= i < writes ==> net[i] > 0
      ensures |sent| - |old(sent)| == Written(old(Pieces()), net, writes)
      ensures Drained() || writes == |net| || net[writes] <= 0
        || (!overMemory && |sent| - |old(sent)| > MAX_WRITE_PER_EVENT)
      ensures !overMemory ==> forall j :: 0 <= j < writes ==> Written(old(Pieces()), net, j) <= MAX_WRITE_PER_EVENT
      ensures net != [] && net[0] > 0 && !Drained() ==> |sent| > |old(sent)|
      ensures forall x :: x in reply ==> x in old(reply)
      ensures forall x: Obj :: old(allocated(x)) ==> Outside(x) == old(Outside(x))
    {
      hide OwedOf, Consistent, Places, Spare, Outside, Pieces, Left, Cut, Trim, Written, Progress, NoHoles;
      ghost var pieces := Pieces();
      ghost var total, left;
      writes, total, left := WritePieces(net, overMemory);
      Progressed(pieces, net, writes, overMemory, total, left);
    }

    /** The loop of sendReplyToClient; `total` bytes go out in k writes. */
    method WritePieces(net: seq<int>, overMemory: bool) returns (k: nat, ghost total: int, ghost left: seq<nat>)
      requires Valid() && NoHoles()
      modifies this`sent, this`sentlen, this`bufpos, this`reply, reply`refcount
      ensures Valid() && NoHoles() && Owed() == old(Owed()) && old(sent) <= sent && total == |sent| - |old(sent)|
      ensures Progress(old(Pieces()), net, k, overMemory, total, left)
      ensures Drained() || k == |net| || net[k] <= 0 || (!overMemory && total > MAX_WRITE_PER_EVENT)
      ensures forall x :: x in reply ==> x in old(reply)
      ensures forall x: Obj :: old(allocated(x)) ==> Outside(x) == old(Outside(x))
    {
      hide OwedOf, Consistent, Places, Spare, Outside, Pieces, Left, Cut, Trim, Written, Wrote, NoHoles;
      var totwritten := 0;
      ghost var nodes, pieces := reply, Pieces();
      k, total, left := 0, 0, Trim(pieces);
      ProgressStart(pieces, net, overMemory);
      while bufpos > 0 || |reply| > 0
        invariant Valid() && NoHoles() && Owed() == old(Owed()) && old(sent) <= sent
        invariant totwritten == total == |sent| - |old(sent)| && (overMemory || total <= MAX_WRITE_PER_EVENT)
        invariant left == Trim(Pieces()) && Progress(pieces, net, k, overMemory, total, left)
        invariant forall i :: 0 <= i < |reply| ==> reply[i] in nodes
        invariant forall x: Obj :: old(allocated(x)) ==> Outside(x) == old(Outside(x))
        decreases |net| - k, |reply|
      {
        hide Progress;
        Writable(pieces, net, k, overMemory, total, left);
        var written := if k < |net| then net[k] else 0;
        var stuck, n := SendStep(written);
        if stuck { break; }
        if n > 0 {
          ProgressStep(pieces, net, k, overMemory, total, left, n, Trim(Pieces()));
          k := k + 1;
        }
        left := Trim(Pieces());
        totwritten, total := totwritten + n, total + n;
        if n > 0 && totwritten > MAX_WRITE_PER_EVENT && !overMemory { break; }
      }
    }

    /** One round of the loop: an empty object is dropped; otherwise a write is attempted, and says
        how many bytes it could take. */
    method SendStep(written: int) returns (stuck: bool, n: nat)
      requires Valid() && NoHoles() && (bufpos > 0 || |reply| > 0)
      modifies this`sent, this`sentlen, this`bufpos, this`reply, reply`refcount
      ensures Valid() && NoHoles() && Owed() == old(Owed()) && old(sent) <= sent && |sent| == |old(sent)| + n
      ensures reply == old(reply) || (|old(reply)| > 0 && reply == old(reply)[1..])
      ensures stuck ==> written <= 0 && n == 0 && !Drained()
      ensures !stuck ==> if n > 0 then written > 0 else |reply| < |old(reply)|
      ensures if n > 0 then Wrote(old(Trim(Pieces())), Trim(Pieces()), written, n)
        else Trim(Pieces()) == old(Trim(Pieces()))
      ensures forall x: Obj :: old(allocated(x)) ==> Outside(x) == old(Outside(x))
    {
      hide OwedOf, Consistent, Places, Wrote, Trim, PiecesOf;
      stuck, n := false, 0;
      if bufpos > 0 {
        if written <= 0 { return true, 0; }
        n := SendBuffer(written);
      } else {
        var o := reply[0];
        if |o.ptr.value| == 0 {
          Sane();
          EmptyPiece(Sizes());
          ObjectDone(o);
          return;
        }
        if written <= 0 { return true, 0; }
        n := SendObject(o, written);
      }
    }

    method SendBuffer(written: int) returns (n: nat)
      requires Valid() && bufpos > 0 && written > 0
      modifies this`sent, this`sentlen, this`bufpos
      ensures Valid() && Owed() == old(Owed()) && old(sent) <= sent && n > 0 && |sent| == |old(sent)| + n
      ensures Wrote(old(Trim(Pieces())), Trim(Pieces()), written, n)
    {
      hide OwedOf, Consistent;
      Sane();
      n := if written < bufpos - sentlen then written else bufpos - sentlen;
      PieceCut(bufpos, sentlen, Sizes(), written, n);
      hide Wrote, Trim, PiecesOf, Lengths, Texts;
      BufferWritten(n);
    }

    method SendObject(o: Obj, written: int) returns (n: nat)
      requires Valid() && bufpos == 0 && reply != [] && reply[0] == o && o.ptr.Some? && |o.ptr.value| > 0 && written > 0
      modifies this`sent, this`sentlen, this`reply, o`refcount
      ensures Valid() && Owed() == old(Owed()) && old(sent) <= sent && n > 0 && |sent| == |old(sent)| + n
        && (reply == old(reply) || reply == old(reply)[1..])
      ensures Wrote(old(Trim(Pieces())), Trim(Pieces()), written, n)
      ensures forall x: Obj :: old(allocated(x)) ==> Outside(x) == old(Outside(x))
    {
      hide OwedOf, Consistent;
      Sane();
      var objlen := |o.ptr.value|;
      n := if written < objlen - sentlen then written else objlen - sentlen;
      PieceCut(0, sentlen, Sizes(), written, n);
      hide Wrote, Trim, PiecesOf, Lengths, Texts;
      if sentlen + n == objlen { ObjectDone(o); } else { ObjectWritten(n); }
    }

    lemma Sane()
      requires Valid() && (bufpos > 0 || (reply != [] && reply[0].ptr.Some?))
      ensures if bufpos > 0 then sentlen < bufpos else sentlen == 0 || sentlen < |reply[0].ptr.value|
    {
      assert |buf[..bufpos]| == bufpos;
    }
  }

  lemma PlacesReplaced(nodes: seq<Obj>, dup: Obj, o: Obj)
    requires nodes != [] && dup != o
    ensures var n := |nodes| - 1; Places(nodes[..n] + [dup], o) + (if nodes[n] == o then 1 else 0) == Places(nodes, o)
  {
    assert (nodes[..|nodes| - 1] + [dup])[..|nodes| - 1] == nodes[..|nodes| - 1];
  }

  lemma Rejoined(texts: seq<Option<Bytestring>>)
    requires texts != []
    ensures texts == texts[..|texts| - 1] + [texts[|texts| - 1]]
  {
  }

  lemma LastReplaced(nodes: seq<Obj>, o: Obj)
    requires nodes != []
    ensures var n := |nodes| - 1;
      && Texts(nodes[..n] + [o]) == Texts(nodes)[..n] + [o.ptr]
      && Counts(nodes[..n] + [o]) == Counts(nodes)[..n] + [o.refcount]
  {
  }

  /** A hole has no holder but the list. */
  lemma HoleIsOwn(b: Bytestring, k: nat, nodes: seq<Obj>, counts: seq<nat>, texts: seq<Option<Bytestring>>, i: nat)
    requires |nodes| == |counts| == |texts| && Consistent(b, k, nodes, counts, texts) && i < |nodes|
      && texts[i] == None
    ensures Places(nodes, nodes[i]) == counts[i] == 1
  {
    PlacesIn(nodes, i);
  }

  lemma LastCounted(b: Bytestring, k: nat, nodes: seq<Obj>, counts: seq<nat>, texts: seq<Option<Bytestring>>)
    requires |nodes| == |counts| == |texts| && Consistent(b, k, nodes, counts, texts) && nodes != []
    ensures counts[|nodes| - 1] >= 1
  {
    PlacesIn(nodes, |nodes| - 1);
  }
}
