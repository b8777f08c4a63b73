/** Decoding an encoded graph: it succeeds exactly when no node is of a kind decoding refuses, and then the objects
    built are the original ones under their node numbers, sharing and cycles included. */
module GraphProof {
  import opened Collections
  import opened GraphCodec

  // ---------------------------------------------------------------- what a graph says

  /** What reading a node gives. */
  function ValueOf(nodes: seq<Node>, id: nat): Val {
    if id < |nodes| && nodes[id].NPrim? then P(nodes[id].prim) else R(id)
  }

  /** The slots of an object node. */
  function SlotsOf(nodes: seq<Node>, keys: seq<string>, kids: seq<nat>): (r: seq<Slot>)
    requires |keys| == |kids|
    ensures |r| == |kids|
  {
    seq(|kids|, i requires 0 <= i < |kids| => Slot(keys[i], false, ValueOf(nodes, kids[i])))
  }

  /** The node stands for this value. */
  predicate Points(nodes: seq<Node>, seen: map<nat, nat>, kid: nat, v: Val) {
    kid < |nodes| &&
    match v
    case P(p) => nodes[kid] == NPrim(p)
    case R(o) => o in seen && seen[o] == kid
    case Foreign => false
  }

  /** The node of an object describes it. */
  predicate Describes(h: Heap, nodes: seq<Node>, seen: map<nat, nat>, o: nat)
    requires o in seen && seen[o] < |nodes|
  {
    var n := nodes[seen[o]];
    o in h && !h[o].shape.Platform? && n.NObj? && n.shape == h[o].shape && n.keys == Keys(h[o].slots)
    && |n.kids| == |h[o].slots|
    && forall i :: 0 <= i < |n.kids| ==> !h[o].slots[i].accessor && Points(nodes, seen, n.kids[i], h[o].slots[i].val)
  }

  /** Different objects have different nodes. */
  predicate Injective(seen: map<nat, nat>) { forall a, b :: a in seen && b in seen && seen[a] == seen[b] ==> a == b }

  /** An encoding in progress: finished objects are described, the others still have a hole for a node. */
  ghost predicate Encoded(h: Heap, st: Encoding) {
    Injective(st.seen)
    && (forall o :: o in st.seen ==> st.seen[o] < |st.nodes| && o in h && !h[o].shape.Platform?
                                      && (st.nodes[st.seen[o]] == Hole || Describes(h, st.nodes, st.seen, o)))
    && (forall i :: 0 <= i < |st.nodes| && !st.nodes[i].NPrim? ==> exists o :: o in st.seen && st.seen[o] == i)
  }

  /** What came before is still there. */
  ghost predicate Extends(st: Encoding, st': Encoding) {
    |st.nodes| <= |st'.nodes|
    && (forall i :: 0 <= i < |st.nodes| ==> st'.nodes[i] == st.nodes[i])
    && (forall i :: |st.nodes| <= i < |st'.nodes| ==> st'.nodes[i] != Hole)
    && (forall o :: o in st.seen ==> o in st'.seen && st'.seen[o] == st.seen[o])
    && st.bytes <= st'.bytes
  }

  lemma ExtendsTransits(a: Encoding, b: Encoding, c: Encoding)
    requires Extends(a, b) && Extends(b, c)
    ensures Extends(a, c)
  {
  }

  lemma PointsExtend(st: Encoding, st': Encoding, kid: nat, v: Val)
    requires Extends(st, st') && Points(st.nodes, st.seen, kid, v)
    ensures Points(st'.nodes, st'.seen, kid, v)
  {
  }

  lemma OpenedEncoded(h: Heap, st: Encoding, o: nat)
    requires Encoded(h, st) && o in h && !h[o].shape.Platform? && o !in st.seen
    ensures Encoded(h, Opened(st, o, h[o].shape))
  {
    var st' := Opened(st, o, h[o].shape);
    forall a | a in st'.seen
      ensures st'.nodes[st'.seen[a]] == Hole || Describes(h, st'.nodes, st'.seen, a)
    {
      if a != o && st.nodes[st.seen[a]] != Hole {
        assert Describes(h, st.nodes, st.seen, a);
        assert forall i :: 0 <= i < |h[a].slots| ==> Points(st.nodes, st.seen, st.nodes[st.seen[a]].kids[i], h[a].slots[i].val);
      }
    }
    forall i | 0 <= i < |st'.nodes| && !st'.nodes[i].NPrim?
      ensures exists a :: a in st'.seen && st'.seen[a] == i
    {
      if i == |st.nodes| { assert st'.seen[o] == i; } else {
        var a :| a in st.seen && st.seen[a] == i;
        assert st'.seen[a] == i;
      }
    }
  }

  lemma PrimEncoded(h: Heap, st: Encoding, p: Prim, bytes: nat)
    requires Encoded(h, st) && st.bytes <= bytes
    ensures var st' := st.(nodes := st.nodes + [NPrim(p)], bytes := bytes);
      Encoded(h, st') && Extends(st, st') && Points(st'.nodes, st'.seen, |st.nodes|, P(p))
  {
    var st' := st.(nodes := st.nodes + [NPrim(p)], bytes := bytes);
    forall a | a in st'.seen
      ensures st'.nodes[st'.seen[a]] == Hole || Describes(h, st'.nodes, st'.seen, a)
    {
      if st.nodes[st.seen[a]] != Hole {
        assert Describes(h, st.nodes, st.seen, a);
        assert forall i :: 0 <= i < |h[a].slots| ==> Points(st.nodes, st.seen, st.nodes[st.seen[a]].kids[i], h[a].slots[i].val);
      }
    }
  }

  /** Filling the hole of an object whose slots have been visited. */
  lemma FilledEncoded(h: Heap, st: Encoding, o: nat, kids: seq<nat>, start: Encoding)
    requires Encoded(h, st) && o in st.seen && st.nodes[st.seen[o]] == Hole && |kids| == |h[o].slots|
    requires forall i :: 0 <= i < |kids| ==>
      !h[o].slots[i].accessor && Points(st.nodes, st.seen, kids[i], h[o].slots[i].val)
    ensures Encoded(h, st.(nodes := st.nodes[st.seen[o] := NObj(h[o].shape, Keys(h[o].slots), kids)]))
  {
    var st' := st.(nodes := st.nodes[st.seen[o] := NObj(h[o].shape, Keys(h[o].slots), kids)]);
    forall a | a in st'.seen
      ensures st'.nodes[st'.seen[a]] == Hole || Describes(h, st'.nodes, st'.seen, a)
    {
      if a == o {
        assert forall i :: 0 <= i < |kids| ==> Points(st'.nodes, st'.seen, kids[i], h[o].slots[i].val);
      } else if st.nodes[st.seen[a]] != Hole {
        assert Describes(h, st.nodes, st.seen, a);
        var ks := st.nodes[st.seen[a]].kids;
        assert forall i :: 0 <= i < |ks| ==> Points(st.nodes, st.seen, ks[i], h[a].slots[i].val);
        assert forall i :: 0 <= i < |ks| ==> Points(st'.nodes, st'.seen, ks[i], h[a].slots[i].val);
      }
    }
  }

  /** An object's slots have been visited: its node is filled. */
  lemma ObjectEncodes(h: Heap, o: nat, st: Encoding, kids: seq<nat>, done: Encoding)
    requires o in h && o !in st.seen && Extends(Opened(st, o, h[o].shape), done) && Encoded(h, done)
    requires |kids| == |h[o].slots| && forall i :: 0 <= i < |kids| ==>
      !h[o].slots[i].accessor && Points(done.nodes, done.seen, kids[i], h[o].slots[i].val)
    ensures var id := |st.nodes|;
      id < |done.nodes|
      && var st' := done.(nodes := done.nodes[id := NObj(h[o].shape, Keys(h[o].slots), kids)]);
      Encoded(h, st') && Extends(st, st') && Points(st'.nodes, st'.seen, id, R(o))
  {
    var start := Opened(st, o, h[o].shape);
    assert start.nodes[|st.nodes|] == Hole && start.seen[o] == |st.nodes|;
    assert done.seen[o] == |st.nodes| && done.nodes[|st.nodes|] == Hole;
    FilledEncoded(h, done, o, kids, start);
    hide Encoded, Points;
  }

  /** A visit describes what it passes and gives the node of the value. */
  lemma {:induction false} VisitEncodes(h: Heap, v: Val, depth: nat, st: Encoding)
    requires depth <= GRAPH_DEPTH + 1 && Encoded(h, st) && Visit(h, v, depth, st).Ok?
    ensures var (id, st') := Visit(h, v, depth, st).value;
      Encoded(h, st') && Extends(st, st') && Points(st'.nodes, st'.seen, id, v)
    decreases GRAPH_DEPTH + 2 - depth, 0
  {
    if v.R? && v.id in st.seen {
    } else if v.P? {
      PrimEncoded(h, st, v.prim, st.bytes + PrimBytes(v.prim));
    } else {
      var o := v.id;
      var start := Opened(st, o, h[o].shape);
      OpenedEncoded(h, st, o);
      SlotsEncode(h, h[o].slots, depth + 1, start);
      var (kids, done) := VisitSlots(h, h[o].slots, depth + 1, start).value;
      hide Encoded, Extends, Points, Opened;
      ObjectEncodes(h, o, st, kids, done);
    }
  }

  lemma {:induction false} SlotsEncode(h: Heap, slots: seq<Slot>, depth: nat, st: Encoding)
    requires depth <= GRAPH_DEPTH + 1 && Encoded(h, st) && VisitSlots(h, slots, depth, st).Ok?
    ensures var (kids, st') := VisitSlots(h, slots, depth, st).value;
      Encoded(h, st') && Extends(st, st') && |kids| == |slots|
      && forall i :: 0 <= i < |kids| ==> !slots[i].accessor && Points(st'.nodes, st'.seen, kids[i], slots[i].val)
    decreases GRAPH_DEPTH + 2 - depth, |slots| + 1
  {
    if slots != [] {
      var keyed := st.(bytes := st.bytes + 2 * |slots[0].key|);
      VisitEncodes(h, slots[0].val, depth, keyed);
      var (id, mid) := Visit(h, slots[0].val, depth, keyed).value;
      SlotsEncode(h, slots[1..], depth, mid);
      var (kids, done) := VisitSlots(h, slots[1..], depth, mid).value;
      PointsExtend(mid, done, id, slots[0].val);
      ExtendsTransits(keyed, mid, done);
      forall i | 0 <= i < |slots|
        ensures !slots[i].accessor && Points(done.nodes, done.seen, ([id] + kids)[i], slots[i].val)
      {
        if i > 0 { assert slots[i] == slots[1..][i - 1]; }
      }
    }
  }

  /** A finished encoding describes everything it has seen, and has no holes. */
  ghost predicate Described(h: Heap, nodes: seq<Node>, seen: map<nat, nat>) {
    Injective(seen)
    && (forall o :: o in seen ==> seen[o] < |nodes| && Describes(h, nodes, seen, o))
    && (forall i :: 0 <= i < |nodes| ==> nodes[i] != Hole)
    && (forall i :: 0 <= i < |nodes| && nodes[i].NObj? ==> exists o :: o in seen && seen[o] == i)
  }

  lemma EncodeDescribes(h: Heap, v: Val)
    requires Encode(h, v).Ok?
    ensures var (g, st) := Encode(h, v).value;
      Described(h, g.nodes, st.seen) && Points(g.nodes, st.seen, g.root, v) && |g.nodes| <= GRAPH_NODES
  {
    VisitEncodes(h, v, 0, Encoding([], map[], 0));
    VisitBounded(h, v, 0, Encoding([], map[], 0));
  }

  lemma {:induction false} VisitBounded(h: Heap, v: Val, depth: nat, st: Encoding)
    requires depth <= GRAPH_DEPTH + 1 && |st.nodes| <= GRAPH_NODES && Visit(h, v, depth, st).Ok?
    ensures |Visit(h, v, depth, st).value.1.nodes| <= GRAPH_NODES
    decreases GRAPH_DEPTH + 2 - depth, 0
  {
    if !(v.R? && v.id in st.seen) && v.R? {
      SlotsBounded(h, h[v.id].slots, depth + 1, Opened(st, v.id, h[v.id].shape));
    }
  }

  lemma {:induction false} SlotsBounded(h: Heap, slots: seq<Slot>, depth: nat, st: Encoding)
    requires depth <= GRAPH_DEPTH + 1 && |st.nodes| <= GRAPH_NODES && VisitSlots(h, slots, depth, st).Ok?
    ensures |VisitSlots(h, slots, depth, st).value.1.nodes| <= GRAPH_NODES
    decreases GRAPH_DEPTH + 2 - depth, |slots| + 1
  {
    if slots != [] {
      var keyed := st.(bytes := st.bytes + 2 * |slots[0].key|);
      VisitBounded(h, slots[0].val, depth, keyed);
      SlotsBounded(h, slots[1..], depth, Visit(h, slots[0].val, depth, keyed).value.1);
    }
  }
}
