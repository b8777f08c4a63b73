/** Encoding and decoding walk the same graph in the same order. */
module GraphRoundTrip {
  import opened Collections
  import opened GraphCodec
  import opened GraphProof

  /** What the platform guarantees of its objects: a view holds one buffer long enough for it, and buffers, blobs,
      dates and regular expressions hold nothing. */
  predicate HeapOk(h: Heap) {
    forall o :: o in h ==> ObjOk(h, h[o])
  }

  predicate ObjOk(h: Heap, x: Obj) {
    (x.shape.Buffer? || x.shape.Blob? || x.shape.Date? || x.shape.RegExp? ==> x.slots == [])
    && (x.shape.View? ==>
          |x.slots| == 1 && x.slots[0].val.R? && x.slots[0].val.id in h
          && (h[x.slots[0].val.id].shape.Platform?
              || (h[x.slots[0].val.id].shape.Buffer?
                  && x.shape.offset + x.shape.length <= |h[x.slots[0].val.id].shape.bytes|)))
  }

  /** No node is of a kind decoding refuses. */
  predicate AllPermitted(nodes: seq<Node>) {
    forall i :: 0 <= i < |nodes| && nodes[i].NObj? ==> Permitted(nodes[i].shape, nodes[i].keys)
  }

  /** The object a finished node stands for. */
  function Built(nodes: seq<Node>, id: nat): Obj
    requires id < |nodes| && nodes[id].NObj? && |nodes[id].keys| == |nodes[id].kids|
  {
    Obj(nodes[id].shape, SlotsOf(nodes, nodes[id].keys, nodes[id].kids))
  }

  /** A decoding and the encoding it repeats are equally far. `nodes` is the finished graph. */
  ghost predicate Matches(nodes: seq<Node>, st: Encoding, ds: Decoding) {
    |st.nodes| <= |nodes| && ds.total == st.bytes
    && (forall i :: i in ds.values ==> i < |st.nodes| && ds.values[i] == ValueOf(nodes, i))
    && (forall i :: i in ds.building ==> i < |st.nodes|)
    && (forall i :: i in ds.heap ==> i < |st.nodes| && nodes[i].NObj?)
    && (forall i :: 0 <= i < |st.nodes| && nodes[i].NObj? ==> i in ds.heap && ds.heap[i].shape == nodes[i].shape)
    && (forall i :: 0 <= i < |st.nodes| && i !in ds.values ==> nodes[i].NObj? && nodes[i].shape.View?)
  }

  /** Reading only adds: values stay, and objects already there are left alone but for the one being filled. */
  ghost predicate Kept(ds: Decoding, ds': Decoding, owner: Option<nat>) {
    (forall i :: i in ds.values ==> i in ds'.values && ds'.values[i] == ds.values[i])
    && (forall i :: i in ds.heap && owner != Some(i) ==> i in ds'.heap && ds'.heap[i] == ds.heap[i])
    && ds'.building == ds.building
  }

  /** The objects entered since are built. */
  ghost predicate Done(nodes: seq<Node>, ds: Decoding, from: nat, to: nat) {
    forall i :: from <= i < to && i < |nodes| && nodes[i].NObj? ==>
      |nodes[i].keys| == |nodes[i].kids| && i in ds.heap && ds.heap[i] == Built(nodes, i)
  }

  /** The finished graph continues the encoding. */
  ghost predicate Finishes(nodes: seq<Node>, seen: map<nat, nat>, st: Encoding) {
    |st.nodes| <= |nodes| && (forall i :: 0 <= i < |st.nodes| && st.nodes[i] != Hole ==> nodes[i] == st.nodes[i])
    && forall o :: o in st.seen ==> o in seen && seen[o] == st.seen[o]
  }

  /** Every node so far can be read again. */
  ghost predicate AllIn(st: Encoding, ds: Decoding) { forall i :: 0 <= i < |st.nodes| ==> i in ds.values }

  /** Whatever cannot be read again could not be read again before either. */
  ghost predicate NoneLost(st: Encoding, ds: Decoding, st': Encoding, ds': Decoding) {
    forall i :: 0 <= i < |st'.nodes| && i !in ds'.values ==> i < |st.nodes| && i !in ds.values
  }

  predicate IsBuffer(h: Heap, v: Val) { v.R? && v.id in h && h[v.id].shape.Buffer? }

  /** A value that can be read now: everything is entered, or it is a buffer. */
  ghost predicate Ready(h: Heap, st: Encoding, ds: Decoding, v: Val) { AllIn(st, ds) || IsBuffer(h, v) }

  ghost predicate AllReady(h: Heap, st: Encoding, ds: Decoding, slots: seq<Slot>) {
    AllIn(st, ds) || (|slots| <= 1 && forall i :: 0 <= i < |slots| ==> IsBuffer(h, slots[i].val))
  }

  lemma ValueOfSeen(h: Heap, nodes: seq<Node>, seen: map<nat, nat>, o: nat)
    requires Described(h, nodes, seen) && o in seen
    ensures seen[o] < |nodes| && nodes[seen[o]].NObj? && ValueOf(nodes, seen[o]) == R(seen[o])
    ensures o in h && nodes[seen[o]].shape == h[o].shape
  {
    assert Describes(h, nodes, seen, o);
  }

  /** A primitive read again. */
  lemma PrimLocks(nodes: seq<Node>, p: Prim, st: Encoding, ds: Decoding, depth: nat)
    requires depth <= GRAPH_DEPTH && Matches(nodes, st, ds) && PrimFits(p)
    requires st.bytes + PrimBytes(p) <= PORTABLE_VALUE_BYTES
    requires |st.nodes| < |nodes| && nodes[|st.nodes|] == NPrim(p)
    ensures var id := |st.nodes|;
      var r := Read(nodes, id, depth, ds);
      r.Ok? && r.value.0 == P(p)
      && r.value.1 == ds.(values := ds.values[id := P(p)], total := ds.total + PrimBytes(p))
      && Matches(nodes, st.(nodes := st.nodes + [NPrim(p)], bytes := st.bytes + PrimBytes(p)), r.value.1)
  {
  }

  lemma EnterMatches(nodes: seq<Node>, st: Encoding, ds: Decoding, o: nat, shape: Shape)
    requires Matches(nodes, st, ds) && |st.nodes| < |nodes| && nodes[|st.nodes|].NObj?
    requires nodes[|st.nodes|].shape == shape && (Early(shape) || shape.View?)
    ensures Matches(nodes, Opened(st, o, shape), Entered(ds, |st.nodes|, shape))
  {
  }

  /** An object without slots, or one whose slots have been read, is finished. */
  lemma LeaveMatches(nodes: seq<Node>, st: Encoding, ds: Decoding, id: nat, node: Node)
    requires Matches(nodes, st, ds) && id < |st.nodes| && ValueOf(nodes, id) == R(id)
    ensures Matches(nodes, st.(nodes := st.nodes[id := node]),
                    ds.(values := ds.values[id := R(id)], building := ds.building - {id}))
  {
  }

  lemma AttachMatches(nodes: seq<Node>, st: Encoding, ds: Decoding, id: nat, key: string, v: Val)
    requires Matches(nodes, st, ds) && id in ds.heap
    ensures Matches(nodes, st, Attached(ds, id, key, v))
  {
  }

  /** What reading a visited value comes to. */
  ghost predicate Locked(nodes: seq<Node>, st: Encoding, ds: Decoding, id: nat, st': Encoding,
                         r: Result<(Val, Decoding)>)
  {
    r.Ok? && r.value.0 == ValueOf(nodes, id) && Matches(nodes, st', r.value.1) && Kept(ds, r.value.1, None)
    && Done(nodes, r.value.1, |st.nodes|, |st'.nodes|) && NoneLost(st, ds, st', r.value.1)
  }

  /** What reading visited slots into their owner comes to. */
  ghost predicate Filled(nodes: seq<Node>, st: Encoding, ds: Decoding, owner: nat, keys: seq<string>, kids: seq<nat>,
                         st': Encoding, r: Result<Decoding>)
    requires |keys| == |kids| && owner in ds.heap
  {
    r.Ok? && Matches(nodes, st', r.value) && Kept(ds, r.value, Some(owner))
    && owner in r.value.heap
    && r.value.heap[owner] == Obj(ds.heap[owner].shape, ds.heap[owner].slots + SlotsOf(nodes, keys, kids))
    && Done(nodes, r.value, |st.nodes|, |st'.nodes|) && NoneLost(st, ds, st', r.value)
  }

  lemma FinishesEarlier(nodes: seq<Node>, seen: map<nat, nat>, a: Encoding, b: Encoding)
    requires Extends(a, b) && Finishes(nodes, seen, b)
    ensures Finishes(nodes, seen, a)
  {
  }

  lemma Grows(a: Encoding, b: Encoding)
    requires Extends(a, b)
    ensures |a.nodes| <= |b.nodes|
  {
  }

  /** An object met again. */
  lemma SeenLocks(h: Heap, nodes: seq<Node>, seen: map<nat, nat>, o: nat, depth: nat, st: Encoding, ds: Decoding)
    requires depth <= GRAPH_DEPTH && Described(h, nodes, seen) && Encoded(h, st) && Matches(nodes, st, ds)
    requires o in st.seen && Finishes(nodes, seen, st) && Ready(h, st, ds, R(o))
    ensures Locked(nodes, st, ds, st.seen[o], st, Read(nodes, st.seen[o], depth, ds))
  {
    ValueOfSeen(h, nodes, seen, o);
    assert st.seen[o] in ds.values;
  }

  /** An object that holds nothing is entered and finished at once. */
  lemma LeafLocks(h: Heap, nodes: seq<Node>, o: nat, depth: nat, st: Encoding, ds: Decoding, kids: seq<nat>,
                  done: Encoding)
    requires depth <= GRAPH_DEPTH && HeapOk(h) && AllPermitted(nodes) && Matches(nodes, st, ds)
    requires o in h && !h[o].shape.Platform? && !Early(h[o].shape) && !h[o].shape.View?
    requires |kids| == |h[o].slots| && |st.nodes| < |nodes|
    requires nodes[|st.nodes|] == NObj(h[o].shape, Keys(h[o].slots), kids)
    requires st.bytes + ShapeBytes(h[o].shape) <= PORTABLE_VALUE_BYTES
    requires done == Opened(st, o, h[o].shape)
    ensures Locked(nodes, st, ds, |st.nodes|, done.(nodes := done.nodes[|st.nodes| := nodes[|st.nodes|]]),
                   Read(nodes, |st.nodes|, depth, ds))
  {
    var id := |st.nodes|;
    assert ObjOk(h, h[o]);
    assert h[o].slots == [] && kids == [];
    var start := Entered(ds, id, h[o].shape);
    assert ReadKids(nodes, id, nodes[id].keys, kids, depth + 1, start) == Ok(start);
    assert SlotsOf(nodes, nodes[id].keys, kids) == [];
    assert start.building - {id} == ds.building;
  }

  lemma NoSlotsVisited(h: Heap, o: nat, depth: nat, st: Encoding)
    requires HeapOk(h) && o in h && !h[o].shape.Platform? && !Early(h[o].shape) && !h[o].shape.View?
    requires depth <= GRAPH_DEPTH + 1
    ensures VisitSlots(h, h[o].slots, depth, st) == Ok(([], st))
  {
    assert ObjOk(h, h[o]);
  }

  /** A view's buffer can be read while the view is being built. */
  lemma ViewReady(h: Heap, nodes: seq<Node>, seen: map<nat, nat>, o: nat)
    requires HeapOk(h) && Described(h, nodes, seen) && o in seen && o in h && h[o].shape.View?
    ensures |h[o].slots| == 1 && IsBuffer(h, h[o].slots[0].val)
    ensures h[o].shape.offset + h[o].shape.length <= |h[h[o].slots[0].val.id].shape.bytes|
    ensures h[o].slots[0].val.id in seen
  {
    assert ObjOk(h, h[o]) && Describes(h, nodes, seen, o);
    var b := h[o].slots[0].val;
    assert Points(nodes, seen, nodes[seen[o]].kids[0], b);
    assert Describes(h, nodes, seen, b.id);
  }

  /** A view's buffer is long enough once it has been read. */
  lemma ViewBuilt(h: Heap, nodes: seq<Node>, seen: map<nat, nat>, o: nat, st: Encoding, ds: Decoding)
    requires HeapOk(h) && Described(h, nodes, seen) && o in seen && o in h && h[o].shape.View?
    requires Matches(nodes, st, ds) && seen[o] in ds.heap && ds.heap[seen[o]] == Built(nodes, seen[o])
    requires seen[h[o].slots[0].val.id] < |st.nodes|
    ensures ViewFits(h[o].shape, ds.heap[seen[o]].slots, ds.heap)
  {
    ViewReady(h, nodes, seen, o);
    var b := h[o].slots[0].val.id;
    assert Describes(h, nodes, seen, o);
    assert Points(nodes, seen, nodes[seen[o]].kids[0], R(b));
    ValueOfSeen(h, nodes, seen, b);
  }

  /** Reading an object node, once what it holds has been read. */
  lemma ReadOwner(nodes: seq<Node>, id: nat, depth: nat, ds: Decoding, read: Decoding)
    requires depth <= GRAPH_DEPTH && id < |nodes| && nodes[id].NObj? && id !in ds.values && id !in ds.building
    requires Permitted(nodes[id].shape, nodes[id].keys) && |nodes[id].keys| == |nodes[id].kids|
    requires ds.total + ShapeBytes(nodes[id].shape) <= PORTABLE_VALUE_BYTES
    requires ReadKids(nodes, id, nodes[id].keys, nodes[id].kids, depth + 1, Entered(ds, id, nodes[id].shape)) == Ok(read)
    requires id in read.heap && ViewFits(nodes[id].shape, read.heap[id].slots, read.heap)
    ensures Read(nodes, id, depth, ds)
      == Ok((R(id), read.(values := read.values[id := R(id)], building := read.building - {id})))
  {
    hide ReadKids, Permitted, ViewFits, Entered;
  }

  /** An object whose slots have been read is finished. */
  lemma OwnerLocks(h: Heap, nodes: seq<Node>, seen: map<nat, nat>, o: nat, depth: nat, st: Encoding, ds: Decoding,
                   kids: seq<nat>, done: Encoding)
    requires depth <= GRAPH_DEPTH && HeapOk(h) && Described(h, nodes, seen) && AllPermitted(nodes)
    requires Matches(nodes, st, ds) && o in h && o in seen && seen[o] == |st.nodes| < |done.nodes| <= |nodes|
    requires Early(h[o].shape) || h[o].shape.View?
    requires st.bytes + ShapeBytes(h[o].shape) <= PORTABLE_VALUE_BYTES
    requires |kids| == |h[o].slots| && nodes[seen[o]] == NObj(h[o].shape, Keys(h[o].slots), kids)
    requires forall i :: 0 <= i < |kids| ==> kids[i] < |done.nodes|
    requires var start := Entered(ds, seen[o], h[o].shape);
      Filled(nodes, Opened(st, o, h[o].shape), start, seen[o], Keys(h[o].slots), kids, done,
             ReadKids(nodes, seen[o], Keys(h[o].slots), kids, depth + 1, start))
    ensures Locked(nodes, st, ds, seen[o], done.(nodes := done.nodes[seen[o] := nodes[seen[o]]]),
                   Read(nodes, seen[o], depth, ds))
  {
    hide Read, ReadKids, Visit, VisitSlots;
    var id := seen[o];
    var start := Entered(ds, id, h[o].shape);
    var read := ReadKids(nodes, id, Keys(h[o].slots), kids, depth + 1, start).value;
    assert read.heap[id] == Built(nodes, id) && id !in ds.values && id !in ds.building && ds.total == st.bytes by {
      hide AllPermitted, Described, HeapOk;
      assert start.heap[id].slots + SlotsOf(nodes, Keys(h[o].slots), kids) == SlotsOf(nodes, Keys(h[o].slots), kids);
    }
    assert ViewFits(h[o].shape, read.heap[id].slots, read.heap) by {
      if h[o].shape.View? {
        ViewReady(h, nodes, seen, o);
        assert Describes(h, nodes, seen, o);
        assert Points(nodes, seen, kids[0], h[o].slots[0].val);
        hide HeapOk, AllPermitted, AllIn, Kept, Done;
        ViewBuilt(h, nodes, seen, o, done, read);
      }
    }
    assert Permitted(nodes[id].shape, nodes[id].keys);
    hide Described, HeapOk, AllPermitted, ViewFits, Permitted;
    ReadOwner(nodes, id, depth, ds, read);
    assert id !in ds.heap;
    FinishedLocks(nodes, id, st, ds, h[o].shape, o, done, read, Read(nodes, id, depth, ds));
  }

  /** The state after an object is finished. */
  lemma FinishedLocks(nodes: seq<Node>, id: nat, st: Encoding, ds: Decoding, shape: Shape, o: nat, done: Encoding,
                      read: Decoding, r: Result<(Val, Decoding)>)
    requires id !in ds.building && id !in ds.values && id !in ds.heap && id == |st.nodes| < |done.nodes| <= |nodes|
    requires nodes[id].NObj? && |nodes[id].keys| == |nodes[id].kids|
    requires Matches(nodes, done, read) && Kept(Entered(ds, id, shape), read, Some(id))
    requires id in read.heap && read.heap[id] == Built(nodes, id)
    requires Done(nodes, read, id + 1, |done.nodes|)
    requires NoneLost(Opened(st, o, shape), Entered(ds, id, shape), done, read)
    requires r == Ok((R(id), read.(values := read.values[id := R(id)], building := read.building - {id})))
    ensures Locked(nodes, st, ds, id, done.(nodes := done.nodes[id := nodes[id]]), r)
  {
    hide Matches, SlotsOf;
    var st', ds' := done.(nodes := done.nodes[id := nodes[id]]), r.value.1;
    LeaveMatches(nodes, done, read, id, nodes[id]);
    assert ds'.building == ds.building by { hide Done, NoneLost; }
    assert Done(nodes, ds', id, |done.nodes|) by { hide Kept, NoneLost; }
    assert NoneLost(st, ds, st', ds') by { hide Done, Kept; }
    assert Kept(ds, ds', None) by { hide Done, NoneLost; }
    hide Done, Kept, NoneLost;
  }

  /** Visiting the first slot and going on with the rest. */
  lemma VisitSlotsStep(h: Heap, slots: seq<Slot>, depth: nat, st: Encoding)
    requires depth <= GRAPH_DEPTH + 1 && slots != [] && VisitSlots(h, slots, depth, st).Ok?
    ensures var bytes := 2 * |slots[0].key|;
      var first := Visit(h, slots[0].val, depth, st.(bytes := st.bytes + bytes));
      st.bytes + bytes <= PORTABLE_VALUE_BYTES && first.Ok? && VisitSlots(h, slots[1..], depth, first.value.1).Ok?
      && var rest := VisitSlots(h, slots[1..], depth, first.value.1).value;
      VisitSlots(h, slots, depth, st) == Ok(([first.value.0] + rest.0, rest.1))
  {
  }

  /** Reading the first slot and going on with the rest. */
  lemma ReadStep(nodes: seq<Node>, ds: Decoding, owner: nat, key: string, keys: seq<string>, kid: nat, rest: seq<nat>,
                 read: Decoding, depth: nat)
    requires depth <= GRAPH_DEPTH + 1 && |keys| == |rest| && owner in read.heap
    requires ds.total + 2 * |key| <= PORTABLE_VALUE_BYTES
    requires Read(nodes, kid, depth, ds.(total := ds.total + 2 * |key|)) == Ok((ValueOf(nodes, kid), read))
    ensures ReadKids(nodes, owner, [key] + keys, [kid] + rest, depth, ds)
      == ReadKids(nodes, owner, keys, rest, depth, Attached(read, owner, key, ValueOf(nodes, kid)))
  {
    hide Read, ValueOf, Attached;
    var keys', kids' := [key] + keys, [kid] + rest;
    assert keys'[0] == key && keys'[1..] == keys && kids'[0] == kid && kids'[1..] == rest;
  }

  lemma SlotsOfStep(nodes: seq<Node>, had: seq<Slot>, key: string, keys: seq<string>, kid: nat, rest: seq<nat>)
    requires |keys| == |rest|
    ensures (had + [Slot(key, false, ValueOf(nodes, kid))]) + SlotsOf(nodes, keys, rest)
      == had + SlotsOf(nodes, [key] + keys, [kid] + rest)
  {
    assert SlotsOf(nodes, [key] + keys, [kid] + rest)
      == [Slot(key, false, ValueOf(nodes, kid))] + SlotsOf(nodes, keys, rest);
  }

  /** Reading the first slot and then the rest fills the owner with all of them. */
  lemma JoinSlots(nodes: seq<Node>, st: Encoding, ds: Decoding, owner: nat, key: string, kid: nat, mid: Encoding,
                  read: Decoding, keys: seq<string>, rest: seq<nat>, done: Encoding, r: Result<Decoding>)
    requires owner in ds.heap && owner in read.heap && owner < |st.nodes| <= |mid.nodes| <= |done.nodes|
    requires |rest| == |keys|
    requires Kept(ds, read, None) && Done(nodes, read, |st.nodes|, |mid.nodes|)
    requires NoneLost(st, ds, mid, read)
    requires Filled(nodes, mid, Attached(read, owner, key, ValueOf(nodes, kid)), owner, keys, rest, done, r)
    ensures Filled(nodes, st, ds, owner, [key] + keys, [kid] + rest, done, r)
  {
    hide Matches;
    SlotsOfStep(nodes, ds.heap[owner].slots, key, keys, kid, rest);
    hide SlotsOf;
    assert Kept(ds, r.value, Some(owner));
  }

  /** Counting a key changes no more than the count. */
  lemma Keyed(h: Heap, nodes: seq<Node>, slots: seq<Slot>, st: Encoding, ds: Decoding, owner: nat, bytes: nat)
    requires Encoded(h, st) && Matches(nodes, st, ds) && owner in ds.heap && slots != [] && AllReady(h, st, ds, slots)
    ensures var (est, eds) := (st.(bytes := st.bytes + bytes), ds.(total := ds.total + bytes));
      Encoded(h, est) && Matches(nodes, est, eds) && Ready(h, est, eds, slots[0].val) && owner < |st.nodes|
    ensures Keys(slots) == [slots[0].key] + Keys(slots[1..])
  {
  }

  /** The first slot has been read and attached. */
  lemma FirstAttached(h: Heap, nodes: seq<Node>, slots: seq<Slot>, st: Encoding, ds: Decoding, owner: nat, bytes: nat,
                      kid: nat, mid: Encoding, r: Result<(Val, Decoding)>)
    requires slots != [] && owner in ds.heap && AllReady(h, st, ds, slots)
    requires Locked(nodes, st.(bytes := st.bytes + bytes), ds.(total := ds.total + bytes), kid, mid, r)
    ensures r.Ok? && r.value.0 == ValueOf(nodes, kid) && owner in r.value.1.heap
    ensures var read := r.value.1;
      var next := Attached(read, owner, slots[0].key, ValueOf(nodes, kid));
      Kept(ds, read, None) && Done(nodes, read, |st.nodes|, |mid.nodes|) && NoneLost(st, ds, mid, read)
      && Matches(nodes, mid, next) && AllReady(h, mid, next, slots[1..]) && owner in next.heap
  {
    var read := r.value.1;
    var next := Attached(read, owner, slots[0].key, ValueOf(nodes, kid));
    AttachMatches(nodes, mid, read, owner, slots[0].key, ValueOf(nodes, kid));
    assert AllReady(h, mid, next, slots[1..]) by { hide Matches, Kept, Done; }
    hide Matches, AllReady;
  }

  /** Reading no slots. */
  lemma NoSlots(h: Heap, nodes: seq<Node>, owner: nat, depth: nat, st: Encoding, ds: Decoding)
    requires depth <= GRAPH_DEPTH + 1 && Matches(nodes, st, ds) && owner in ds.heap
    ensures VisitSlots(h, [], depth, st) == Ok(([], st)) && Keys([]) == []
    ensures Filled(nodes, st, ds, owner, [], [], st, ReadKids(nodes, owner, [], [], depth, ds))
  {
    assert ds.heap[owner].slots + SlotsOf(nodes, [], []) == ds.heap[owner].slots;
  }

  /** A value that is not an object seen before is a primitive or opens an object. */
  lemma VisitStep(h: Heap, v: Val, depth: nat, st: Encoding)
    requires depth <= GRAPH_DEPTH + 1 && Visit(h, v, depth, st).Ok?
    ensures depth <= GRAPH_DEPTH && !v.Foreign?
    ensures v.R? && v.id in st.seen ==> Visit(h, v, depth, st) == Ok((st.seen[v.id], st))
    ensures v.P? ==> PrimFits(v.prim) && st.bytes + PrimBytes(v.prim) <= PORTABLE_VALUE_BYTES
                      && Visit(h, v, depth, st) == Ok((|st.nodes|, st.(nodes := st.nodes + [NPrim(v.prim)],
                                                                       bytes := st.bytes + PrimBytes(v.prim))))
    ensures v.R? && v.id !in st.seen ==>
      v.id in h && !h[v.id].shape.Platform? && st.bytes + ShapeBytes(h[v.id].shape) <= PORTABLE_VALUE_BYTES
      && var slots := VisitSlots(h, h[v.id].slots, depth + 1, Opened(st, v.id, h[v.id].shape));
      slots.Ok? && |st.nodes| < |slots.value.1.nodes|
      && Visit(h, v, depth, st) == Ok((|st.nodes|, slots.value.1.(nodes := slots.value.1.nodes[|st.nodes| :=
           NObj(h[v.id].shape, Keys(h[v.id].slots), slots.value.0)])))
  {
    hide VisitSlots;
  }

  /** A primitive visited is a primitive read. */
  lemma PrimVisited(nodes: seq<Node>, seen: map<nat, nat>, p: Prim, st: Encoding, ds: Decoding, depth: nat)
    requires depth <= GRAPH_DEPTH && Matches(nodes, st, ds) && PrimFits(p)
    requires st.bytes + PrimBytes(p) <= PORTABLE_VALUE_BYTES
    requires Finishes(nodes, seen, st.(nodes := st.nodes + [NPrim(p)], bytes := st.bytes + PrimBytes(p)))
    ensures Locked(nodes, st, ds, |st.nodes|,
                   st.(nodes := st.nodes + [NPrim(p)], bytes := st.bytes + PrimBytes(p)),
                   Read(nodes, |st.nodes|, depth, ds))
  {
    assert (st.nodes + [NPrim(p)])[|st.nodes|] == NPrim(p);
    PrimLocks(nodes, p, st, ds, depth);
    hide Matches, Read;
  }

  /** What the finished graph says of an object that has been visited, and of the visit of its slots. */
  lemma ObjectFinishes(h: Heap, nodes: seq<Node>, seen: map<nat, nat>, o: nat, st: Encoding, kids: seq<nat>,
                       done: Encoding)
    requires o in h && Extends(Opened(st, o, h[o].shape), done) && |st.nodes| < |done.nodes|
    requires Finishes(nodes, seen, done.(nodes := done.nodes[|st.nodes| := NObj(h[o].shape, Keys(h[o].slots), kids)]))
    ensures o in seen && seen[o] == |st.nodes| < |done.nodes| <= |nodes| && Finishes(nodes, seen, done)
    ensures nodes[seen[o]] == NObj(h[o].shape, Keys(h[o].slots), kids)
  {
    var st' := done.(nodes := done.nodes[|st.nodes| := NObj(h[o].shape, Keys(h[o].slots), kids)]);
    assert Opened(st, o, h[o].shape).seen[o] == |st.nodes|;
    assert done.nodes[|st.nodes|] == Opened(st, o, h[o].shape).nodes[|st.nodes|] == Hole;
    assert st'.nodes[|st.nodes|] != Hole && st'.seen[o] == |st.nodes|;
    assert forall i :: 0 <= i < |done.nodes| && done.nodes[i] != Hole ==> st'.nodes[i] == done.nodes[i];
  }

  /** What is needed before an object's slots are read. */
  lemma OwnerReady(h: Heap, nodes: seq<Node>, seen: map<nat, nat>, o: nat, st: Encoding, ds: Decoding)
    requires HeapOk(h) && Described(h, nodes, seen) && o in seen && o in h && Matches(nodes, st, ds)
    requires seen[o] == |st.nodes| < |nodes| && nodes[seen[o]].NObj? && nodes[seen[o]].shape == h[o].shape
    requires Ready(h, st, ds, R(o)) && (Early(h[o].shape) || h[o].shape.View?)
    ensures var (start, entered) := (Opened(st, o, h[o].shape), Entered(ds, seen[o], h[o].shape));
      Matches(nodes, start, entered) && AllReady(h, start, entered, h[o].slots) && seen[o] in entered.heap
  {
    EnterMatches(nodes, st, ds, o, h[o].shape);
    if h[o].shape.View? { ViewReady(h, nodes, seen, o); }
    hide Matches, Described, HeapOk;
  }

  lemma KidsInside(h: Heap, slots: seq<Slot>, depth: nat, st: Encoding)
    requires depth <= GRAPH_DEPTH + 1 && Encoded(h, st) && VisitSlots(h, slots, depth, st).Ok?
    ensures var (kids, st') := VisitSlots(h, slots, depth, st).value;
      |kids| == |slots| && forall i :: 0 <= i < |kids| ==> kids[i] < |st'.nodes|
  {
    SlotsEncode(h, slots, depth, st);
    hide VisitSlots, Encoded;
    var (kids, st') := VisitSlots(h, slots, depth, st).value;
    forall i | 0 <= i < |kids| ensures kids[i] < |st'.nodes| {
      assert Points(st'.nodes, st'.seen, kids[i], slots[i].val);
    }
  }

  /** Whatever a visit encodes, reading its node gives the value back, however much of the graph is already there. */
  lemma {:induction false} VisitLocks(h: Heap, nodes: seq<Node>, seen: map<nat, nat>, v: Val, depth: nat,
                                      st: Encoding, ds: Decoding)
    requires depth <= GRAPH_DEPTH + 1 && Visit(h, v, depth, st).Ok?
    requires HeapOk(h) && Described(h, nodes, seen) && AllPermitted(nodes)
    requires Encoded(h, st) && Matches(nodes, st, ds) && Ready(h, st, ds, v)
    requires Finishes(nodes, seen, Visit(h, v, depth, st).value.1)
    ensures var (id, st') := Visit(h, v, depth, st).value;
      Locked(nodes, st, ds, id, st', Read(nodes, id, depth, ds))
    decreases GRAPH_DEPTH + 2 - depth, 0
  {
    hide *;
    VisitStep(h, v, depth, st);
    if v.R? && v.id in st.seen {
      SeenLocks(h, nodes, seen, v.id, depth, st, ds);
    } else if v.P? {
      PrimVisited(nodes, seen, v.prim, st, ds, depth);
    } else {
      var o := v.id;
      var start, entered := Opened(st, o, h[o].shape), Entered(ds, |st.nodes|, h[o].shape);
      var (kids, done) := VisitSlots(h, h[o].slots, depth + 1, start).value;
      OpenedEncoded(h, st, o);
      SlotsEncode(h, h[o].slots, depth + 1, start);
      ObjectFinishes(h, nodes, seen, o, st, kids, done);
      KidsInside(h, h[o].slots, depth + 1, start);
      if Early(h[o].shape) || h[o].shape.View? {
        OwnerReady(h, nodes, seen, o, st, ds);
        SlotsLock(h, nodes, seen, seen[o], h[o].slots, depth + 1, start, entered);
        OwnerLocks(h, nodes, seen, o, depth, st, ds, kids, done);
      } else {
        NoSlotsVisited(h, o, depth + 1, start);
        LeafLocks(h, nodes, o, depth, st, ds, kids, done);
      }
    }
  }

  lemma {:induction false} SlotsLock(h: Heap, nodes: seq<Node>, seen: map<nat, nat>, owner: nat, slots: seq<Slot>,
                                     depth: nat, st: Encoding, ds: Decoding)
    requires depth <= GRAPH_DEPTH + 1 && VisitSlots(h, slots, depth, st).Ok?
    requires HeapOk(h) && Described(h, nodes, seen) && AllPermitted(nodes)
    requires Encoded(h, st) && Matches(nodes, st, ds) && AllReady(h, st, ds, slots)
    requires owner in ds.heap
    requires Finishes(nodes, seen, VisitSlots(h, slots, depth, st).value.1)
    ensures var (kids, st') := VisitSlots(h, slots, depth, st).value;
      |kids| == |slots|
      && Filled(nodes, st, ds, owner, Keys(slots), kids, st', ReadKids(nodes, owner, Keys(slots), kids, depth, ds))
    decreases GRAPH_DEPTH + 2 - depth, |slots| + 1
  {
    hide *;
    if slots == [] {
      NoSlots(h, nodes, owner, depth, st, ds);
      return;
    }
    var s := slots[0];
    var bytes := 2 * |s.key|;
    var (est, eds) := (st.(bytes := st.bytes + bytes), ds.(total := ds.total + bytes));
    VisitSlotsStep(h, slots, depth, st);
    Keyed(h, nodes, slots, st, ds, owner, bytes);
    var (kid, mid) := Visit(h, s.val, depth, est).value;
    var (rest, done) := VisitSlots(h, slots[1..], depth, mid).value;
    VisitEncodes(h, s.val, depth, est);
    SlotsEncode(h, slots[1..], depth, mid);
    FinishesEarlier(nodes, seen, mid, done);
    VisitLocks(h, nodes, seen, s.val, depth, est, eds);
    FirstAttached(h, nodes, slots, st, ds, owner, bytes, kid, mid, Read(nodes, kid, depth, eds));
    var read := Read(nodes, kid, depth, eds).value.1;
    var next := Attached(read, owner, s.key, ValueOf(nodes, kid));
    SlotsLock(h, nodes, seen, owner, slots[1..], depth, mid, next);
    ReadStep(nodes, ds, owner, s.key, Keys(slots[1..]), kid, rest, read, depth);
    Grows(est, mid);
    Grows(mid, done);
    JoinSlots(nodes, st, ds, owner, s.key, kid, mid, read, Keys(slots[1..]), rest, done,
              ReadKids(nodes, owner, Keys(slots), [kid] + rest, depth, ds));
  }
}
