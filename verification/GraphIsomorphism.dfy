/** The law of the portable codec: what decoding builds is the encoded graph under other names. */
module GraphIsomorphism {
  import opened Collections
  import opened GraphCodec
  import opened GraphProof
  import opened GraphRoundTrip

  /** A value under other names for the objects. */
  predicate Named(f: map<nat, nat>, v: Val) { v.P? || (v.R? && v.id in f) }

  function Image(f: map<nat, nat>, v: Val): Val
    requires Named(f, v)
  {
    if v.R? then R(f[v.id]) else v
  }

  /** The object `y` is `x` under other names: same shape, same slots in the same order, no accessors. */
  predicate SameObject(f: map<nat, nat>, x: Obj, y: Obj) {
    x.shape == y.shape && |x.slots| == |y.slots|
    && forall i :: 0 <= i < |x.slots| ==>
      x.slots[i].key == y.slots[i].key && !x.slots[i].accessor && !y.slots[i].accessor && Named(f, x.slots[i].val)
      && y.slots[i].val == Image(f, x.slots[i].val)
  }

  /** `f` names every object reached from `v`, different objects differently, and the second heap has those objects
      under those names and no others. Sharing and cycles are the same because `f` is one-to-one. */
  ghost predicate Isomorphic(h: Heap, v: Val, h2: Heap, w: Val, f: map<nat, nat>) {
    Injective(f) && Named(f, v) && w == Image(f, v)
    && (forall o :: o in f ==> o in h && f[o] in h2 && SameObject(f, h[o], h2[f[o]]))
    && (forall i :: i in h2 ==> exists o :: o in f && f[o] == i)
  }

  /** A set of objects that contains everything its members hold. */
  ghost predicate Closed(h: Heap, c: set<nat>) {
    forall o :: o in c && o in h ==> forall i :: 0 <= i < |h[o].slots| && h[o].slots[i].val.R? ==> h[o].slots[i].val.id in c
  }

  /** An object is reached from a value when every closed set with the value has it. */
  ghost predicate Reached(h: Heap, v: Val, o: nat) {
    forall c: set<nat> :: Closed(h, c) && (v.R? ==> v.id in c) ==> o in c
  }

  /** Every object the graph has is of a kind decoding accepts, and small enough for it. */
  predicate Acceptable(h: Heap, f: map<nat, nat>) {
    forall o :: o in f && o in h ==> Permitted(h[o].shape, Keys(h[o].slots))
  }

  // ---------------------------------------------------------------- what is reached

  lemma {:induction false} VisitStays(h: Heap, v: Val, depth: nat, st: Encoding, c: set<nat>)
    requires depth <= GRAPH_DEPTH + 1 && Visit(h, v, depth, st).Ok?
    requires Closed(h, c) && (v.R? ==> v.id in c) && st.seen.Keys <= c
    ensures Visit(h, v, depth, st).value.1.seen.Keys <= c
    decreases GRAPH_DEPTH + 2 - depth, 0
  {
    hide VisitSlots;
    if v.R? && v.id !in st.seen {
      SlotsStay(h, h[v.id].slots, depth + 1, Opened(st, v.id, h[v.id].shape), c);
    }
  }

  lemma {:induction false} SlotsStay(h: Heap, slots: seq<Slot>, depth: nat, st: Encoding, c: set<nat>)
    requires depth <= GRAPH_DEPTH + 1 && VisitSlots(h, slots, depth, st).Ok? && Closed(h, c) && st.seen.Keys <= c
    requires forall i :: 0 <= i < |slots| && slots[i].val.R? ==> slots[i].val.id in c
    ensures VisitSlots(h, slots, depth, st).value.1.seen.Keys <= c
    decreases GRAPH_DEPTH + 2 - depth, |slots| + 1
  {
    hide Visit;
    if slots != [] {
      var keyed := st.(bytes := st.bytes + 2 * |slots[0].key|);
      VisitStays(h, slots[0].val, depth, keyed, c);
      SlotsStay(h, slots[1..], depth, Visit(h, slots[0].val, depth, keyed).value.1, c);
    }
  }

  /** The objects encoded are exactly those reached from the value. */
  lemma EncodesTheReached(h: Heap, v: Val, o: nat)
    requires Encode(h, v).Ok?
    ensures o in Encode(h, v).value.1.seen <==> Reached(h, v, o)
  {
    var (g, st) := Encode(h, v).value;
    EncodeDescribes(h, v);
    if o in st.seen {
      forall c: set<nat> | Closed(h, c) && (v.R? ==> v.id in c) ensures o in c {
        VisitStays(h, v, 0, Encoding([], map[], 0), c);
      }
    }
    var c := st.seen.Keys;
    forall a | a in c && a in h
      ensures forall i :: 0 <= i < |h[a].slots| && h[a].slots[i].val.R? ==> h[a].slots[i].val.id in c
    {
      assert Describes(h, g.nodes, st.seen, a);
      var kids := g.nodes[st.seen[a]].kids;
      assert forall i :: 0 <= i < |kids| ==> Points(g.nodes, st.seen, kids[i], h[a].slots[i].val);
    }
    assert Closed(h, c);
  }

  // ---------------------------------------------------------------- what decoding checks

  /** Everything entered so far was of a kind decoding accepts. */
  ghost predicate Checked(nodes: seq<Node>, ds: Decoding) {
    forall i :: i in ds.values || i in ds.building ==>
      i < |nodes| && (nodes[i].NObj? ==> Permitted(nodes[i].shape, nodes[i].keys))
  }

  lemma {:induction false} ReadChecks(nodes: seq<Node>, id: nat, depth: nat, ds: Decoding)
    requires depth <= GRAPH_DEPTH + 1 && Read(nodes, id, depth, ds).Ok? && Checked(nodes, ds)
    ensures var ds' := Read(nodes, id, depth, ds).value.1;
      Checked(nodes, ds') && ds.values.Keys <= ds'.values.Keys && id in ds'.values
    decreases GRAPH_DEPTH + 2 - depth, 0
  {
    hide ReadKids, Permitted, ViewFits;
    if id !in ds.values && nodes[id].NObj? {
      KidsCheck(nodes, id, nodes[id].keys, nodes[id].kids, depth + 1, Entered(ds, id, nodes[id].shape));
    }
  }

  lemma {:induction false} KidsCheck(nodes: seq<Node>, id: nat, keys: seq<string>, kids: seq<nat>, depth: nat,
                                     ds: Decoding)
    requires depth <= GRAPH_DEPTH + 1 && |keys| == |kids| && ReadKids(nodes, id, keys, kids, depth, ds).Ok?
    requires Checked(nodes, ds)
    ensures var ds' := ReadKids(nodes, id, keys, kids, depth, ds).value;
      Checked(nodes, ds') && ds.values.Keys <= ds'.values.Keys
    decreases GRAPH_DEPTH + 2 - depth, |kids| + 1
  {
    hide Read, Permitted;
    if kids != [] {
      var keyed := ds.(total := ds.total + 2 * |keys[0]|);
      ReadChecks(nodes, kids[0], depth, keyed);
      var (v, next) := Read(nodes, kids[0], depth, keyed).value;
      KidsCheck(nodes, id, keys[1..], kids[1..], depth, Attached(next, id, keys[0], v));
    }
  }

  lemma {:induction false} AllCheck(nodes: seq<Node>, from: nat, ds: Decoding)
    requires from <= |nodes| && ReadAll(nodes, from, ds).Ok? && Checked(nodes, ds)
    requires forall i :: 0 <= i < from ==> i in ds.values
    ensures AllPermitted(nodes)
    decreases |nodes| - from
  {
    hide Read, Permitted;
    if from < |nodes| {
      ReadChecks(nodes, from, 0, ds);
      AllCheck(nodes, from + 1, Read(nodes, from, 0, ds).value.1);
    }
  }

  lemma {:induction false} ReadAllAgain(nodes: seq<Node>, from: nat, ds: Decoding)
    requires from <= |nodes| && forall i :: 0 <= i < |nodes| ==> i in ds.values
    ensures ReadAll(nodes, from, ds) == Ok(ds)
    decreases |nodes| - from
  {
    if from < |nodes| { ReadAllAgain(nodes, from + 1, ds); }
  }

  // ---------------------------------------------------------------- the law

  lemma AcceptableIsPermitted(h: Heap, nodes: seq<Node>, seen: map<nat, nat>)
    requires Described(h, nodes, seen)
    ensures Acceptable(h, seen) <==> AllPermitted(nodes)
  {
    hide Permitted;
    if Acceptable(h, seen) {
      forall i | 0 <= i < |nodes| && nodes[i].NObj? ensures Permitted(nodes[i].shape, nodes[i].keys) {
        var o :| o in seen && seen[o] == i;
        assert Describes(h, nodes, seen, o);
      }
    }
    if AllPermitted(nodes) {
      forall o | o in seen && o in h ensures Permitted(h[o].shape, Keys(h[o].slots)) {
        assert Describes(h, nodes, seen, o);
      }
    }
  }

  const START := Encoding([], map[], 0)

  lemma EncodeStarts(h: Heap, v: Val)
    requires Encode(h, v).Ok?
    ensures var (g, st) := Encode(h, v).value;
      Visit(h, v, 0, START) == Ok((g.root, st)) && g.nodes == st.nodes
  {
    hide Visit;
  }

  lemma StartsMatched(h: Heap, nodes: seq<Node>, v: Val)
    ensures Encoded(h, START) && Matches(nodes, START, FRESH) && Ready(h, START, FRESH, v)
  {
  }

  lemma DecodeSteps(g: Graph, read: Decoding)
    requires |g.nodes| <= GRAPH_NODES && Read(g.nodes, g.root, 0, FRESH) == Ok((ValueOf(g.nodes, g.root), read))
    requires forall i :: 0 <= i < |g.nodes| ==> i in read.values
    ensures Decode(g) == Ok((ValueOf(g.nodes, g.root), read.heap))
  {
    hide Read, ReadAll;
    ReadAllAgain(g.nodes, 0, read);
  }

  /** After the root has been read everything has been. */
  lemma RootReadsAll(nodes: seq<Node>, st: Encoding, id: nat, r: Result<(Val, Decoding)>)
    requires Locked(nodes, START, FRESH, id, st, r) && st.nodes == nodes
    ensures r.Ok? && r.value.0 == ValueOf(nodes, id) && Done(nodes, r.value.1, 0, |nodes|)
    ensures forall i :: 0 <= i < |nodes| ==> i in r.value.1.values
    ensures forall i :: i in r.value.1.heap ==> i < |nodes| && nodes[i].NObj?
  {
  }

  lemma DescribedFinishes(nodes: seq<Node>, st: Encoding)
    requires st.nodes == nodes
    ensures Finishes(nodes, st.seen, st)
  {
  }

  /** Decoding an encoded graph whose nodes are all accepted. */
  lemma Decodes(h: Heap, v: Val)
    requires HeapOk(h) && Encode(h, v).Ok? && AllPermitted(Encode(h, v).value.0.nodes)
    ensures var (g, st) := Encode(h, v).value;
      Decode(g).Ok? && Decode(g).value.0 == ValueOf(g.nodes, g.root)
      && BuiltFrom(g.nodes, Decode(g).value.1)
  {
    hide *;
    var (g, st) := Encode(h, v).value;
    EncodeDescribes(h, v);
    EncodeStarts(h, v);
    StartsMatched(h, g.nodes, v);
    DescribedFinishes(g.nodes, st);
    VisitLocks(h, g.nodes, st.seen, v, 0, START, FRESH);
    RootReadsAll(g.nodes, st, g.root, Read(g.nodes, g.root, 0, FRESH));
    DecodeSteps(g, Read(g.nodes, g.root, 0, FRESH).value.1);
    DoneIsBuilt(g.nodes, Read(g.nodes, g.root, 0, FRESH).value.1);
  }

  /** The heap holds the object of every object node and nothing else. */
  ghost predicate BuiltFrom(nodes: seq<Node>, heap: Heap) {
    (forall i :: i in heap ==> i < |nodes| && nodes[i].NObj?)
    && forall i :: 0 <= i < |nodes| && nodes[i].NObj? ==>
      |nodes[i].keys| == |nodes[i].kids| && i in heap && heap[i] == Built(nodes, i)
  }

  lemma DoneIsBuilt(nodes: seq<Node>, ds: Decoding)
    requires Done(nodes, ds, 0, |nodes|) && forall i :: i in ds.heap ==> i < |nodes| && nodes[i].NObj?
    ensures BuiltFrom(nodes, ds.heap)
  {
  }

  lemma PointsImage(nodes: seq<Node>, seen: map<nat, nat>, kid: nat, v: Val, h: Heap)
    requires Points(nodes, seen, kid, v) && Described(h, nodes, seen)
    ensures Named(seen, v) && ValueOf(nodes, kid) == Image(seen, v)
  {
    if v.R? { ValueOfSeen(h, nodes, seen, v.id); }
  }

  lemma BuiltIsSame(h: Heap, nodes: seq<Node>, seen: map<nat, nat>, o: nat)
    requires Described(h, nodes, seen) && o in seen
    ensures o in h && seen[o] < |nodes| && nodes[seen[o]].NObj? && |nodes[seen[o]].keys| == |nodes[seen[o]].kids|
    ensures SameObject(seen, h[o], Built(nodes, seen[o]))
  {
    assert Describes(h, nodes, seen, o);
    var n := nodes[seen[o]];
    forall i | 0 <= i < |n.kids|
      ensures Named(seen, h[o].slots[i].val) && ValueOf(nodes, n.kids[i]) == Image(seen, h[o].slots[i].val)
    {
      PointsImage(nodes, seen, n.kids[i], h[o].slots[i].val, h);
    }
  }

  lemma BuiltIsIsomorphic(h: Heap, v: Val, nodes: seq<Node>, root: nat, seen: map<nat, nat>, h2: Heap)
    requires Described(h, nodes, seen) && Points(nodes, seen, root, v) && BuiltFrom(nodes, h2)
    ensures Isomorphic(h, v, h2, ValueOf(nodes, root), seen)
  {
    PointsImage(nodes, seen, root, v, h);
    forall o | o in seen
      ensures o in h && seen[o] in h2 && SameObject(seen, h[o], h2[seen[o]])
    {
      hide SameObject, Points, ValueOf;
      BuiltIsSame(h, nodes, seen, o);
    }
    hide SameObject, Points, ValueOf;
    forall i | i in h2 ensures exists o :: o in seen && seen[o] == i {
      assert nodes[i].NObj?;
    }
  }

  lemma DecodedIsPermitted(g: Graph)
    requires Decode(g).Ok?
    ensures AllPermitted(g.nodes)
  {
    hide Read, ReadAll, AllPermitted, Permitted;
    ReadChecks(g.nodes, g.root, 0, FRESH);
    AllCheck(g.nodes, 0, Read(g.nodes, g.root, 0, FRESH).value.1);
  }

  /** The round trip: an encoded graph decodes if and only if every object in it is acceptable, and what is built is
      then isomorphic to what was encoded. */
  lemma RoundTrip(h: Heap, v: Val)
    requires HeapOk(h) && Encode(h, v).Ok?
    ensures var (g, st) := Encode(h, v).value;
      (Decode(g).Ok? <==> Acceptable(h, st.seen))
      && (Decode(g).Ok? ==> Isomorphic(h, v, Decode(g).value.1, Decode(g).value.0, st.seen))
  {
    hide *;
    var (g, st) := Encode(h, v).value;
    EncodeDescribes(h, v);
    AcceptableIsPermitted(h, g.nodes, st.seen);
    if Decode(g).Ok? { DecodedIsPermitted(g); }
    if AllPermitted(g.nodes) {
      Decodes(h, v);
      BuiltIsIsomorphic(h, v, g.nodes, g.root, st.seen, Decode(g).value.1);
    }
  }

  lemma DistinctStayDistinct(f: map<nat, nat>, a: Val, b: Val)
    requires Injective(f) && Named(f, a) && Named(f, b)
    ensures Image(f, a) == Image(f, b) <==> a == b
  {
  }

  /** Two slots of x and y hold the same value if and only if the two slots of their copies do. */
  predicate ShareAlike(x: Obj, y: Obj, x': Obj, y': Obj) {
    |x'.slots| == |x.slots| && |y'.slots| == |y.slots|
    && forall i, j :: 0 <= i < |x.slots| && 0 <= j < |y.slots| ==>
      (x'.slots[i].val == y'.slots[j].val <==> x.slots[i].val == y.slots[j].val)
  }

  lemma CopiesShareAlike(f: map<nat, nat>, x: Obj, y: Obj, x': Obj, y': Obj)
    requires Injective(f) && SameObject(f, x, x') && SameObject(f, y, y')
    ensures ShareAlike(x, y, x', y')
  {
    hide Injective;
    forall i, j | 0 <= i < |x.slots| && 0 <= j < |y.slots|
      ensures x'.slots[i].val == y'.slots[j].val <==> x.slots[i].val == y.slots[j].val
    {
      DistinctStayDistinct(f, x.slots[i].val, y.slots[j].val);
    }
  }

  /** Wherever two places of a graph hold the same value or the same object, the places of the decoded graph do, and
      nowhere else: no two keys of a map and no two members of a set run together. */
  lemma SharingIsKept(h: Heap, v: Val)
    requires HeapOk(h) && Encode(h, v).Ok? && Decode(Encode(h, v).value.0).Ok?
    ensures var f, h2 := Encode(h, v).value.1.seen, Decode(Encode(h, v).value.0).value.1;
      forall o, p :: o in f && p in f ==>
        o in h && p in h && f[o] in h2 && f[p] in h2 && ShareAlike(h[o], h[p], h2[f[o]], h2[f[p]])
  {
    hide *;
    RoundTrip(h, v);
    var f, h2 := Encode(h, v).value.1.seen, Decode(Encode(h, v).value.0).value.1;
    forall o, p | o in f && p in f
      ensures o in h && p in h && f[o] in h2 && f[p] in h2 && ShareAlike(h[o], h[p], h2[f[o]], h2[f[p]])
    {
      CopyOf(h, v, h2, Decode(Encode(h, v).value.0).value.0, f, o);
      CopyOf(h, v, h2, Decode(Encode(h, v).value.0).value.0, f, p);
      CopiesShareAlike(f, h[o], h[p], h2[f[o]], h2[f[p]]);
    }
  }

  lemma CopyOf(h: Heap, v: Val, h2: Heap, w: Val, f: map<nat, nat>, o: nat)
    requires Isomorphic(h, v, h2, w, f) && o in f
    ensures o in h && f[o] in h2 && SameObject(f, h[o], h2[f[o]]) && Injective(f)
  {
    hide SameObject;
  }

  /** Not every graph that can be encoded can be decoded: an empty array may be longer than decoding allows. */
  lemma LongArrayIsRefused()
    ensures var h := map[0 := Obj(ArrayShape(GRAPH_NODES + 1), [])];
      Encode(h, R(0)).Ok? && Decode(Encode(h, R(0)).value.0).Err?
  {
    var h := map[0 := Obj(ArrayShape(GRAPH_NODES + 1), [])];
    var start := Opened(START, 0, h[0].shape);
    assert VisitSlots(h, [], 1, start) == Ok(([], start));
    var node := NObj(h[0].shape, Keys([]), []);
    assert Visit(h, R(0), 0, START) == Ok((0, start.(nodes := start.nodes[0 := node])));
    assert !Permitted(node.shape, Keys([]));
  }
}
