/** The codec's limits: what a graph weighs is counted once per node, and nothing beyond the limits is encoded or
    decoded, whoever made the graph. */
module GraphLimits {
  import opened Collections
  import opened GraphCodec
  import opened GraphProof
  import opened GraphRoundTrip
  import opened GraphIsomorphism

  function KeyBytes(keys: seq<string>): nat {
    if keys == [] then 0 else 2 * |keys[0]| + KeyBytes(keys[1..])
  }

  /** What a node counts for. */
  function NodeBytes(n: Node): nat {
    match n
    case Hole => 0
    case NPrim(p) => PrimBytes(p)
    case NObj(shape, keys, _) => ShapeBytes(shape) + KeyBytes(keys)
  }

  function Weight(nodes: seq<Node>): nat {
    if nodes == [] then 0 else Weight(nodes[..|nodes| - 1]) + NodeBytes(nodes[|nodes| - 1])
  }

  lemma WeightMore(nodes: seq<Node>, n: Node)
    ensures Weight(nodes + [n]) == Weight(nodes) + NodeBytes(n)
  {
    assert (nodes + [n])[..|nodes|] == nodes;
  }

  lemma {:induction false} WeightUpdate(nodes: seq<Node>, i: nat, n: Node)
    requires i < |nodes|
    ensures Weight(nodes[i := n]) == Weight(nodes) - NodeBytes(nodes[i]) + NodeBytes(n)
    decreases |nodes|
  {
    var last := |nodes| - 1;
    if i == last {
      assert nodes[i := n][..last] == nodes[..last];
    } else {
      assert nodes[i := n][..last] == nodes[..last][i := n];
      WeightUpdate(nodes[..last], i, n);
    }
  }

  // ---------------------------------------------------------------- encoding

  /** A visit counts what it adds. `owed` is what has been counted for objects whose nodes are still holes. */
  lemma {:induction false} VisitWeighs(h: Heap, v: Val, depth: nat, st: Encoding, owed: int)
    requires depth <= GRAPH_DEPTH + 1 && Visit(h, v, depth, st).Ok? && Encoded(h, st)
    requires st.bytes == Weight(st.nodes) + owed && st.bytes <= PORTABLE_VALUE_BYTES
    ensures var st' := Visit(h, v, depth, st).value.1;
      st'.bytes == Weight(st'.nodes) + owed && st'.bytes <= PORTABLE_VALUE_BYTES
    decreases GRAPH_DEPTH + 2 - depth, 0
  {
    hide Visit, VisitSlots, Encoded, Extends, Weight, Described;
    VisitStep(h, v, depth, st);
    if v.P? {
      WeightMore(st.nodes, NPrim(v.prim));
    } else if v.id !in st.seen {
      var o, start := v.id, Opened(st, v.id, h[v.id].shape);
      OpenedEncoded(h, st, o);
      WeightMore(st.nodes, Hole);
      SlotsWeigh(h, h[o].slots, depth + 1, start, owed + ShapeBytes(h[o].shape));
      SlotsEncode(h, h[o].slots, depth + 1, start);
      var (kids, done) := VisitSlots(h, h[o].slots, depth + 1, start).value;
      HoleStays(st, o, h[o].shape, done);
      FilledWeighs(done, |st.nodes|, h[o].shape, Keys(h[o].slots), kids);
    }
  }

  lemma FilledWeighs(done: Encoding, id: nat, shape: Shape, keys: seq<string>, kids: seq<nat>)
    requires id < |done.nodes| && done.nodes[id] == Hole
    ensures Weight(done.nodes[id := NObj(shape, keys, kids)]) == Weight(done.nodes) + ShapeBytes(shape) + KeyBytes(keys)
  {
    hide Weight;
    WeightUpdate(done.nodes, id, NObj(shape, keys, kids));
  }

  lemma HoleStays(st: Encoding, o: nat, shape: Shape, done: Encoding)
    requires Extends(Opened(st, o, shape), done)
    ensures |st.nodes| < |done.nodes| && done.nodes[|st.nodes|] == Hole
  {
    assert Opened(st, o, shape).nodes[|st.nodes|] == Hole;
  }

  lemma {:induction false} SlotsWeigh(h: Heap, slots: seq<Slot>, depth: nat, st: Encoding, owed: int)
    requires depth <= GRAPH_DEPTH + 1 && VisitSlots(h, slots, depth, st).Ok? && Encoded(h, st)
    requires st.bytes == Weight(st.nodes) + owed && st.bytes <= PORTABLE_VALUE_BYTES
    ensures var st' := VisitSlots(h, slots, depth, st).value.1;
      st'.bytes == Weight(st'.nodes) + owed + KeyBytes(Keys(slots)) && st'.bytes <= PORTABLE_VALUE_BYTES
    decreases GRAPH_DEPTH + 2 - depth, |slots| + 1
  {
    hide Visit, VisitSlots, Encoded, Extends, Described, Weight, Keys;
    if slots == [] {
      NoKeys(h, depth, st);
    } else {
      VisitSlotsStep(h, slots, depth, st);
      var bytes := 2 * |slots[0].key|;
      var keyed := st.(bytes := st.bytes + bytes);
      KeyedEncoded(h, st, bytes);
      VisitWeighs(h, slots[0].val, depth, keyed, owed + bytes);
      VisitEncodes(h, slots[0].val, depth, keyed);
      SlotsWeigh(h, slots[1..], depth, Visit(h, slots[0].val, depth, keyed).value.1, owed + bytes);
      KeysStep(slots);
    }
  }

  lemma NoKeys(h: Heap, depth: nat, st: Encoding)
    requires depth <= GRAPH_DEPTH + 1
    ensures VisitSlots(h, [], depth, st) == Ok(([], st)) && KeyBytes(Keys([])) == 0
  {
  }

  lemma KeyedEncoded(h: Heap, st: Encoding, bytes: nat)
    requires Encoded(h, st)
    ensures Encoded(h, st.(bytes := st.bytes + bytes))
  {
  }

  lemma KeysStep(slots: seq<Slot>)
    requires slots != []
    ensures KeyBytes(Keys(slots)) == 2 * |slots[0].key| + KeyBytes(Keys(slots[1..]))
  {
    assert Keys(slots)[1..] == Keys(slots[1..]);
  }

  /** What is encoded has at most 40000 nodes and weighs what was counted, at most 64 MiB. */
  lemma EncodedWithinLimits(h: Heap, v: Val)
    requires Encode(h, v).Ok?
    ensures var (g, st) := Encode(h, v).value;
      Weight(g.nodes) == st.bytes <= PORTABLE_VALUE_BYTES && |g.nodes| <= GRAPH_NODES
  {
    EncodeStarts(h, v);
    EncodeDescribes(h, v);
    StartsMatched(h, [], v);
    hide Visit, Encode, Encoded;
    VisitWeighs(h, v, 0, START, 0);
  }

  // ---------------------------------------------------------------- decoding

  function Worth(nodes: seq<Node>, i: nat): nat { if i < |nodes| then NodeBytes(nodes[i]) else 0 }

  /** What a set of nodes weighs. */
  ghost function Weigh(nodes: seq<Node>, s: set<nat>): nat { Total(map i | i in s :: Worth(nodes, i), Self) }

  lemma WeighMore(nodes: seq<Node>, s: set<nat>, i: nat)
    requires i !in s
    ensures Weigh(nodes, s + {i}) == Weigh(nodes, s) + Worth(nodes, i)
  {
    var m: map<nat, nat> := map j | j in s :: Worth(nodes, j);
    TotalPut<nat, nat>(m, Self, i, Worth(nodes, i));
    assert (map j | j in s + {i} :: Worth(nodes, j)) == m[i := Worth(nodes, i)];
  }

  /** The numbers below `k`. */
  function UpTo(k: nat): set<nat> { if k == 0 then {} else UpTo(k - 1) + {k - 1} }

  lemma {:induction false} UpToHas(k: nat, i: nat)
    ensures i in UpTo(k) <==> i < k
    decreases k
  {
    if k > 0 { UpToHas(k - 1, i); }
  }

  lemma {:induction false} WeighAll(nodes: seq<Node>, k: nat)
    requires k <= |nodes|
    ensures Weigh(nodes, UpTo(k)) == Weight(nodes[..k])
  {
    if k == 0 {
      assert (map i | i in UpTo(0) :: Worth(nodes, i)) == map[];
      TotalEmpty<nat, nat>(Self);
    } else {
      WeighAll(nodes, k - 1);
      UpToHas(k - 1, k - 1);
      hide Weigh;
      WeighMore(nodes, UpTo(k - 1), k - 1);
      assert nodes[..k] == nodes[..k - 1] + [nodes[k - 1]];
      WeightMore(nodes[..k - 1], nodes[k - 1]);
    }
  }

  function Begun(ds: Decoding): set<nat> { ds.values.Keys + ds.building }

  /** Reading counts what it enters; `owed` is what objects still being read have not counted yet. */
  ghost predicate Counts(nodes: seq<Node>, ds: Decoding, owed: nat) {
    ds.total + owed == Weigh(nodes, Begun(ds)) && ds.total <= PORTABLE_VALUE_BYTES
  }

  lemma {:induction false} ReadCounts(nodes: seq<Node>, id: nat, depth: nat, ds: Decoding, owed: nat)
    requires depth <= GRAPH_DEPTH + 1 && Read(nodes, id, depth, ds).Ok? && Counts(nodes, ds, owed)
    ensures var ds' := Read(nodes, id, depth, ds).value.1;
      Counts(nodes, ds', owed) && ds'.building == ds.building
    decreases GRAPH_DEPTH + 2 - depth, 0
  {
    hide ReadKids, Permitted, ViewFits, Weigh;
    if id !in ds.values {
      WeighMore(nodes, Begun(ds), id);
      if nodes[id].NObj? {
        var start := Entered(ds, id, nodes[id].shape);
        assert Begun(start) == Begun(ds) + {id};
        KidsCount(nodes, id, nodes[id].keys, nodes[id].kids, depth + 1, start, owed);
        var done := ReadKids(nodes, id, nodes[id].keys, nodes[id].kids, depth + 1, start).value;
        var ds' := Read(nodes, id, depth, ds).value.1;
        assert Begun(ds') == Begun(done);
        assert ds'.building == ds.building;
      } else {
        assert Begun(Read(nodes, id, depth, ds).value.1) == Begun(ds) + {id};
      }
    }
  }

  lemma {:induction false} KidsCount(nodes: seq<Node>, id: nat, keys: seq<string>, kids: seq<nat>, depth: nat,
                                     ds: Decoding, owed: nat)
    requires depth <= GRAPH_DEPTH + 1 && |keys| == |kids| && ReadKids(nodes, id, keys, kids, depth, ds).Ok?
    requires Counts(nodes, ds, owed + KeyBytes(keys))
    ensures var ds' := ReadKids(nodes, id, keys, kids, depth, ds).value;
      Counts(nodes, ds', owed) && ds'.building == ds.building
    decreases GRAPH_DEPTH + 2 - depth, |kids| + 1
  {
    hide Read, Weigh;
    if kids != [] {
      var keyed := ds.(total := ds.total + 2 * |keys[0]|);
      assert Begun(keyed) == Begun(ds);
      ReadCounts(nodes, kids[0], depth, keyed, owed + KeyBytes(keys[1..]));
      var (v, next) := Read(nodes, kids[0], depth, keyed).value;
      var attached := Attached(next, id, keys[0], v);
      assert Begun(attached) == Begun(next);
      KidsCount(nodes, id, keys[1..], kids[1..], depth, attached, owed);
    }
  }

  lemma {:induction false} AllCounts(nodes: seq<Node>, from: nat, ds: Decoding)
    requires from <= |nodes| && ReadAll(nodes, from, ds).Ok? && Counts(nodes, ds, 0) && ds.building == {}
    requires Checked(nodes, ds) && forall i :: 0 <= i < from ==> i in ds.values
    ensures Weight(nodes) <= PORTABLE_VALUE_BYTES
    decreases |nodes| - from
  {
    hide Read, Weigh;
    if from < |nodes| {
      ReadCounts(nodes, from, 0, ds, 0);
      ReadChecks(nodes, from, 0, ds);
      AllCounts(nodes, from + 1, Read(nodes, from, 0, ds).value.1);
    } else {
      assert Begun(ds) == UpTo(|nodes|) by {
        forall i ensures i in Begun(ds) <==> i in UpTo(|nodes|) { UpToHas(|nodes|, i); }
      }
      WeighAll(nodes, |nodes|);
      assert nodes[..|nodes|] == nodes;
    }
  }

  /** Whatever graph decodes, it has at most 40000 nodes and weighs at most 64 MiB, unreferenced nodes included. */
  lemma DecodedWithinLimits(g: Graph)
    requires Decode(g).Ok?
    ensures |g.nodes| <= GRAPH_NODES && Weight(g.nodes) <= PORTABLE_VALUE_BYTES
  {
    hide Read, ReadAll;
    assert Begun(FRESH) == {};
    assert (map i | i in {} :: Worth(g.nodes, i)) == map[];
    TotalEmpty<nat, nat>(Self);
    ReadCounts(g.nodes, g.root, 0, FRESH, 0);
    ReadChecks(g.nodes, g.root, 0, FRESH);
    AllCounts(g.nodes, 0, Read(g.nodes, g.root, 0, FRESH).value.1);
  }
}
