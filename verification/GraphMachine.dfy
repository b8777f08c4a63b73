/** The codec as it runs: the encoder fills its nodes, the decoder its values, in place and step by step. */
module GraphMachine {
  import opened Collections
  import opened GraphCodec
  import opened GraphIsomorphism

  /** What the visits of some slots and then of the others come to. */
  function Prepended(kids: seq<nat>, r: Result<(seq<nat>, Encoding)>): Result<(seq<nat>, Encoding)> {
    if r.Err? then Err else Ok((kids + r.value.0, r.value.1))
  }

  lemma VisitSlotsNext(h: Heap, slots: seq<Slot>, k: nat, depth: nat, kids: seq<nat>, st: Encoding)
    requires depth <= GRAPH_DEPTH + 1 && k < |slots| && !slots[k].accessor
    requires st.bytes + 2 * |slots[k].key| <= PORTABLE_VALUE_BYTES
    ensures var first := Visit(h, slots[k].val, depth, st.(bytes := st.bytes + 2 * |slots[k].key|));
      Prepended(kids, VisitSlots(h, slots[k..], depth, st))
      == if first.Err? then Err
         else Prepended(kids + [first.value.0], VisitSlots(h, slots[k + 1..], depth, first.value.1))
  {
    hide Visit;
    assert slots[k..][0] == slots[k] && slots[k..][1..] == slots[k + 1..];
    var first := Visit(h, slots[k].val, depth, st.(bytes := st.bytes + 2 * |slots[k].key|));
    if first.Ok? {
      var rest := VisitSlots(h, slots[k + 1..], depth, first.value.1);
      if rest.Ok? { assert kids + ([first.value.0] + rest.value.0) == kids + [first.value.0] + rest.value.0; }
    }
  }

  class PortableEncoder {
    var nodes: seq<Node>
    var seen: map<nat, nat>
    var bytes: nat

    ghost function State(): Encoding reads this { Encoding(nodes, seen, bytes) }

    constructor ()
      ensures State() == START
    {
      nodes, seen, bytes := [], map[], 0;
    }

    /** The inner visit: every value gets the next number, and an object its number before what it holds. */
    method VisitValue(h: Heap, v: Val, depth: nat) returns (r: Result<nat>)
      requires depth <= GRAPH_DEPTH + 1 && bytes <= PORTABLE_VALUE_BYTES
      modifies this
      ensures |old(nodes)| <= |nodes|
      ensures r.Err? <==> Visit(h, v, depth, old(State())).Err?
      ensures r.Ok? ==> Visit(h, v, depth, old(State())) == Ok((r.value, State())) && bytes <= PORTABLE_VALUE_BYTES
      decreases GRAPH_DEPTH + 2 - depth, 0
    {
      ghost var st := State();
      if depth > GRAPH_DEPTH || |nodes| >= GRAPH_NODES { return Err; }
      if v.R? && v.id in seen { return Ok(seen[v.id]); }
      var id := |nodes|;
      nodes := nodes + [Hole];
      if v.R? { seen := seen[v.id := id]; }
      var n: Node;
      match v {
        case Foreign => return Err;
        case P(p) =>
          if !PrimFits(p) { return Err; }
          bytes := bytes + PrimBytes(p);
          n := NPrim(p);
        case R(o) =>
          if o !in h || h[o].shape.Platform? { return Err; }
          bytes := bytes + ShapeBytes(h[o].shape);
          if bytes > PORTABLE_VALUE_BYTES { return Err; }
          assert State() == Opened(st, o, h[o].shape);
          var kids := VisitHeld(h, h[o].slots, depth + 1);
          if kids.Err? { return Err; }
          n := NObj(h[o].shape, Keys(h[o].slots), kids.value);
      }
      if bytes > PORTABLE_VALUE_BYTES { return Err; }
      assert v.P? ==> nodes[id := n] == st.nodes + [n];
      nodes := nodes[id := n];
      return Ok(id);
    }

    /** The loops over what an object holds. */
    method VisitHeld(h: Heap, slots: seq<Slot>, depth: nat) returns (r: Result<seq<nat>>)
      requires depth <= GRAPH_DEPTH + 1 && bytes <= PORTABLE_VALUE_BYTES
      modifies this
      ensures |old(nodes)| <= |nodes|
      ensures r.Err? <==> VisitSlots(h, slots, depth, old(State())).Err?
      ensures r.Ok? ==> VisitSlots(h, slots, depth, old(State())) == Ok((r.value, State())) && bytes <= PORTABLE_VALUE_BYTES
      decreases GRAPH_DEPTH + 2 - depth, 1
    {
      hide Visit;
      ghost var spec := VisitSlots(h, slots, depth, State());
      var kids: seq<nat> := [];
      var k := 0;
      assert slots[0..] == slots;
      assert spec.Ok? ==> [] + spec.value.0 == spec.value.0;
      while k < |slots|
        invariant k <= |slots| && |old(nodes)| <= |nodes| && bytes <= PORTABLE_VALUE_BYTES
        invariant spec == Prepended(kids, VisitSlots(h, slots[k..], depth, State()))
      {
        assert slots[k..][0] == slots[k];
        if slots[k].accessor { return Err; }
        ghost var st := State();
        bytes := bytes + 2 * |slots[k].key|;
        if bytes > PORTABLE_VALUE_BYTES { return Err; }
        VisitSlotsNext(h, slots, k, depth, kids, st);
        var kid := VisitValue(h, slots[k].val, depth);
        if kid.Err? { return Err; }
        kids := kids + [kid.value];
        k := k + 1;
      }
      assert kids + [] == kids;
      return Ok(kids);
    }
  }

  /** Encoding from nothing. */
  method EncodePortable(h: Heap, v: Val) returns (r: Result<Graph>)
    ensures r.Err? <==> Encode(h, v).Err?
    ensures r.Ok? ==> r.value == Encode(h, v).value.0
  {
    hide Visit;
    var encoder := new PortableEncoder();
    var root := encoder.VisitValue(h, v, 0);
    if root.Err? { return Err; }
    return Ok(Graph(root.value, encoder.nodes));
  }

  class PortableDecoder {
    var values: map<nat, Val>
    var building: set<nat>
    var heap: Heap
    var total: nat

    ghost function State(): Decoding reads this { Decoding(values, building, heap, total) }

    constructor ()
      ensures State() == FRESH
    {
      values, building, heap, total := map[], {}, map[], 0;
    }

    /** The inner read: containers are entered before what they hold, a view only after its buffer. */
    method ReadNode(nodes: seq<Node>, id: nat, depth: nat) returns (r: Result<Val>)
      requires depth <= GRAPH_DEPTH + 1 && total <= PORTABLE_VALUE_BYTES
      modifies this
      ensures old(heap).Keys <= heap.Keys
      ensures r.Err? <==> Read(nodes, id, depth, old(State())).Err?
      ensures r.Ok? ==> Read(nodes, id, depth, old(State())) == Ok((r.value, State())) && total <= PORTABLE_VALUE_BYTES
      decreases GRAPH_DEPTH + 2 - depth, 0
    {
      ghost var ds := State();
      if id >= |nodes| || depth > GRAPH_DEPTH { return Err; }
      if id in values { return Ok(values[id]); }
      if id in building { return Err; }
      building := building + {id};
      var v: Val;
      match nodes[id] {
        case Hole => return Err;
        case NPrim(p) =>
          if !PrimFits(p) { return Err; }
          total := total + PrimBytes(p);
          v := P(p);
          assert building - {id} == ds.building;
        case NObj(shape, keys, kids) =>
          if !Permitted(shape, keys) || |keys| != |kids| { return Err; }
          total := total + ShapeBytes(shape);
          if total > PORTABLE_VALUE_BYTES { return Err; }
          v := R(id);
          heap := heap[id := Obj(shape, [])];
          if Early(shape) { values := values[id := v]; }
          assert State() == Entered(ds, id, shape);
          var filled := ReadHeld(nodes, id, keys, kids, depth + 1);
          if !filled || !ViewFits(shape, heap[id].slots, heap) { return Err; }
      }
      if total > PORTABLE_VALUE_BYTES { return Err; }
      values := values[id := v];
      building := building - {id};
      return Ok(v);
    }

    /** The loops over what an object node holds. */
    method ReadHeld(nodes: seq<Node>, owner: nat, keys: seq<string>, kids: seq<nat>, depth: nat) returns (ok: bool)
      requires depth <= GRAPH_DEPTH + 1 && |keys| == |kids| && owner in heap && total <= PORTABLE_VALUE_BYTES
      modifies this
      ensures old(heap).Keys <= heap.Keys
      ensures ok <==> ReadKids(nodes, owner, keys, kids, depth, old(State())).Ok?
      ensures ok ==> ReadKids(nodes, owner, keys, kids, depth, old(State())) == Ok(State()) && total <= PORTABLE_VALUE_BYTES
      decreases GRAPH_DEPTH + 2 - depth, 1
    {
      hide Read;
      ghost var spec := ReadKids(nodes, owner, keys, kids, depth, State());
      var k := 0;
      assert kids[0..] == kids && keys[0..] == keys;
      while k < |kids|
        invariant k <= |kids| && old(heap).Keys <= heap.Keys && total <= PORTABLE_VALUE_BYTES
        invariant spec == ReadKids(nodes, owner, keys[k..], kids[k..], depth, State())
      {
        assert kids[k..][0] == kids[k] && keys[k..][0] == keys[k];
        assert kids[k..][1..] == kids[k + 1..] && keys[k..][1..] == keys[k + 1..];
        total := total + 2 * |keys[k]|;
        if total > PORTABLE_VALUE_BYTES { return false; }
        var v := ReadNode(nodes, kids[k], depth);
        if v.Err? { return false; }
        heap := heap[owner := heap[owner].(slots := heap[owner].slots + [Slot(keys[k], false, v.value)])];
        k := k + 1;
      }
      return true;
    }
  }

  /** Decoding: the root first, then every node once more, so that a node nothing reaches is checked too. */
  method DecodePortable(g: Graph) returns (r: Result<(Val, Heap)>)
    ensures r == Decode(g)
  {
    hide Read;
    if |g.nodes| > GRAPH_NODES { return Err; }
    var decoder := new PortableDecoder();
    var root := decoder.ReadNode(g.nodes, g.root, 0);
    if root.Err? { return Err; }
    ghost var spec := ReadAll(g.nodes, 0, decoder.State());
    var id := 0;
    while id < |g.nodes|
      invariant id <= |g.nodes| && decoder.total <= PORTABLE_VALUE_BYTES
      invariant spec == ReadAll(g.nodes, id, decoder.State())
    {
      var again := decoder.ReadNode(g.nodes, id, 0);
      if again.Err? { return Err; }
      id := id + 1;
    }
    return Ok((root.value, decoder.heap));
  }
}
