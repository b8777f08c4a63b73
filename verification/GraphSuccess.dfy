/** Which graphs are encoded: what is asked of the values reached, of the paths to them, and of their number and size,
    told from the objects alone. */
module GraphSuccess {
  import opened Collections
  import opened GraphCodec
  import opened GraphProof
  import opened GraphRoundTrip
  import opened GraphIsomorphism
  import opened GraphLimits

  // ---------------------------------------------------------------- what is asked

  predicate PlainValue(v: Val) { !v.Foreign? && (v.P? ==> PrimFits(v.prim)) }

  predicate PlainObject(x: Obj) {
    !x.shape.Platform? && forall i :: 0 <= i < |x.slots| ==> !x.slots[i].accessor && PlainValue(x.slots[i].val)
  }

  /** Everything reached is there and portable. */
  ghost predicate Portable(h: Heap, v: Val) {
    PlainValue(v) && forall o :: Reached(h, v, o) ==> o in h && PlainObject(h[o])
  }

  predicate Links(h: Heap, a: nat, b: nat) { a in h && exists i :: 0 <= i < |h[a].slots| && h[a].slots[i].val == R(b) }

  /** A way from the value through the objects that meets no object twice. */
  predicate Path(h: Heap, v: Val, p: seq<nat>) {
    p != [] && v == R(p[0]) && (forall i :: 0 <= i < |p| - 1 ==> Links(h, p[i], p[i + 1]))
    && forall i, j :: 0 <= i < j < |p| ==> p[i] != p[j]
  }

  /** No such way has more than 64 steps to a value at its end. */
  ghost predicate Shallow(h: Heap, v: Val) {
    forall p :: Path(h, v, p) ==>
      var last := p[|p| - 1]; |p| - 1 <= GRAPH_DEPTH && (last in h && h[last].slots != [] ==> |p| <= GRAPH_DEPTH)
  }

  function ValueBytes(v: Val): nat { if v.P? then PrimBytes(v.prim) else 0 }

  function SlotsBytes(slots: seq<Slot>): nat {
    if slots == [] then 0 else 2 * |slots[0].key| + ValueBytes(slots[0].val) + SlotsBytes(slots[1..])
  }

  function ObjectBytes(x: Obj): nat { ShapeBytes(x.shape) + SlotsBytes(x.slots) }
  function ObjectSlots(x: Obj): nat { |x.slots| }

  ghost function ReachedSet(h: Heap, v: Val): set<nat> { set o | o in h && Reached(h, v, o) }

  function Part(h: Heap, s: set<nat>): Heap { map o | o in h && o in s :: h[o] }

  /** How often a value is looked at: once, and once for every slot of every object reached. */
  ghost function Visits(h: Heap, v: Val): nat { 1 + Total(Part(h, ReachedSet(h, v)), ObjectSlots) }

  /** What everything reached weighs: text and keys at two bytes a unit, and binary contents. */
  ghost function Bytes(h: Heap, v: Val): nat { ValueBytes(v) + Total(Part(h, ReachedSet(h, v)), ObjectBytes) }

  // ---------------------------------------------------------------- reaching

  lemma RootReached(h: Heap, v: Val)
    ensures v.R? ==> Reached(h, v, v.id)
  {
  }

  lemma LinkReached(h: Heap, v: Val, a: nat, b: nat)
    requires Reached(h, v, a) && Links(h, a, b)
    ensures Reached(h, v, b)
  {
    var i :| 0 <= i < |h[a].slots| && h[a].slots[i].val == R(b);
    forall c: set<nat> | Closed(h, c) && (v.R? ==> v.id in c) ensures b in c {
      assert a in c && h[a].slots[i].val.id in c;
    }
  }

  // ---------------------------------------------------------------- sums over what is left

  ghost function Left(h: Heap, c: set<nat>, st: Encoding, f: Obj -> nat): nat { Total(Part(h, c - st.seen.Keys), f) }

  lemma LeftOpened(h: Heap, c: set<nat>, st: Encoding, o: nat, f: Obj -> nat)
    requires o in c && o in h && o !in st.seen
    ensures Left(h, c, st, f) == f(h[o]) + Left(h, c, Opened(st, o, h[o].shape), f)
  {
    var rest, start := Part(h, c - st.seen.Keys), Opened(st, o, h[o].shape);
    TotalRemove(rest, f, o);
    assert rest - {o} == Part(h, c - start.seen.Keys);
  }

  // ---------------------------------------------------------------- the visit

  /** What a visit may rely on: where it has come from, and that nothing reached is refused. */
  ghost predicate Underway(h: Heap, root: Val, c: set<nat>, p: seq<nat>, st: Encoding) {
    Portable(h, root) && Shallow(h, root) && c == ReachedSet(h, root) && st.seen.Keys <= c
    && (p != [] ==> Path(h, root, p)) && forall i :: 0 <= i < |p| ==> p[i] in st.seen
  }

  /** The value is the root, or held by the object the way ends at. */
  predicate Held(h: Heap, root: Val, p: seq<nat>, v: Val) {
    if p == [] then v == root
    else var last := p[|p| - 1]; last in h && exists i :: 0 <= i < |h[last].slots| && h[last].slots[i].val == v
  }

  /** Room for everything not yet visited, beside what is owed elsewhere. */
  ghost predicate Room(h: Heap, c: set<nat>, st: Encoding, visits: nat, bytes: nat) {
    |st.nodes| + visits + Left(h, c, st, ObjectSlots) <= GRAPH_NODES
    && st.bytes + bytes + Left(h, c, st, ObjectBytes) <= PORTABLE_VALUE_BYTES
  }

  lemma HeldReached(h: Heap, root: Val, c: set<nat>, p: seq<nat>, st: Encoding, v: Val)
    requires Underway(h, root, c, p, st) && Held(h, root, p, v)
    ensures PlainValue(v) && (v.R? ==> v.id in c && v.id in h && PlainObject(h[v.id]))
  {
    if p == [] {
      RootReached(h, root);
    } else {
      var last := p[|p| - 1];
      assert last in st.seen && last in c && Reached(h, root, last);
      var i :| 0 <= i < |h[last].slots| && h[last].slots[i].val == v;
      if v.R? {
        assert Links(h, last, v.id);
        LinkReached(h, root, last, v.id);
      }
    }
  }

  /** The way goes on to an object not met before. */
  lemma PathOn(h: Heap, root: Val, c: set<nat>, p: seq<nat>, st: Encoding, o: nat)
    requires Underway(h, root, c, p, st) && Held(h, root, p, R(o)) && o !in st.seen && o in c && o in h
    ensures Underway(h, root, c, p + [o], Opened(st, o, h[o].shape))
    ensures |p| <= GRAPH_DEPTH && (h[o].slots != [] ==> |p + [o]| <= GRAPH_DEPTH)
  {
    var q := p + [o];
    if p != [] {
      var last := p[|p| - 1];
      assert Links(h, last, o);
      forall i | 0 <= i < |q| - 1 ensures Links(h, q[i], q[i + 1]) {
        if i < |p| - 1 { assert Links(h, p[i], p[i + 1]); }
      }
    }
    assert Path(h, root, q);
    assert q[|q| - 1] == o;
  }

  lemma VisitPlain(h: Heap, v: Val, depth: nat, st: Encoding)
    requires depth <= GRAPH_DEPTH && |st.nodes| < GRAPH_NODES && PlainValue(v) && !v.R?
    requires st.bytes + ValueBytes(v) <= PORTABLE_VALUE_BYTES
    ensures Visit(h, v, depth, st)
      == Ok((|st.nodes|, st.(nodes := st.nodes + [NPrim(v.prim)], bytes := st.bytes + ValueBytes(v))))
  {
  }

  lemma VisitSeen(h: Heap, o: nat, depth: nat, st: Encoding)
    requires depth <= GRAPH_DEPTH && |st.nodes| < GRAPH_NODES && o in st.seen
    ensures Visit(h, R(o), depth, st) == Ok((st.seen[o], st))
  {
  }

  lemma VisitNew(h: Heap, o: nat, depth: nat, st: Encoding)
    requires depth <= GRAPH_DEPTH && |st.nodes| < GRAPH_NODES && o !in st.seen && o in h && !h[o].shape.Platform?
    requires var start := Opened(st, o, h[o].shape);
      start.bytes <= PORTABLE_VALUE_BYTES && VisitSlots(h, h[o].slots, depth + 1, start).Ok?
      && |st.nodes| < |VisitSlots(h, h[o].slots, depth + 1, start).value.1.nodes|
    ensures var (kids, done) := VisitSlots(h, h[o].slots, depth + 1, Opened(st, o, h[o].shape)).value;
      Visit(h, R(o), depth, st)
      == Ok((|st.nodes|, done.(nodes := done.nodes[|st.nodes| := NObj(h[o].shape, Keys(h[o].slots), kids)])))
  {
    hide VisitSlots;
  }

  /** What a visit leaves: as much has been counted as there was to count. */
  ghost predicate Counted(h: Heap, c: set<nat>, st: Encoding, st': Encoding, visits: nat, bytes: nat) {
    st.seen.Keys <= st'.seen.Keys <= c && |st.nodes| <= |st'.nodes|
    && |st'.nodes| + Left(h, c, st', ObjectSlots) <= |st.nodes| + visits + Left(h, c, st, ObjectSlots)
    && st'.bytes + Left(h, c, st', ObjectBytes) == st.bytes + bytes + Left(h, c, st, ObjectBytes)
  }

  lemma {:induction false} VisitSucceeds(h: Heap, root: Val, c: set<nat>, p: seq<nat>, v: Val, st: Encoding, visits: nat,
                                         bytes: nat)
    requires Underway(h, root, c, p, st) && Held(h, root, p, v) && |p| <= GRAPH_DEPTH
    requires Room(h, c, st, visits + 1, bytes + ValueBytes(v))
    ensures Visit(h, v, |p|, st).Ok? && Counted(h, c, st, Visit(h, v, |p|, st).value.1, 1, ValueBytes(v))
    decreases GRAPH_DEPTH + 2 - |p|, 0
  {
    hide Visit, VisitSlots, Underway, Held, Left, PlainObject;
    HeldReached(h, root, c, p, st, v);
    UnderwaySeen(h, root, c, p, st);
    if !v.R? {
      VisitPlain(h, v, |p|, st);
      SameLeft(h, c, st, Visit(h, v, |p|, st).value.1);
    } else if v.id in st.seen {
      VisitSeen(h, v.id, |p|, st);
    } else {
      var o := v.id;
      var start := Opened(st, o, h[o].shape);
      PathOn(h, root, c, p, st, o);
      LeftOpened(h, c, st, o, ObjectSlots);
      LeftOpened(h, c, st, o, ObjectBytes);
      SlotsSucceed(h, root, c, p + [o], o, 0, start, visits, bytes);
      assert h[o].slots[0..] == h[o].slots;
      PlainShape(h[o]);
      VisitNew(h, o, |p|, st);
      var done := VisitSlots(h, h[o].slots, |p| + 1, start).value.1;
      SameLeft(h, c, done, Visit(h, v, |p|, st).value.1);
    }
  }

  lemma PlainShape(x: Obj)
    requires PlainObject(x)
    ensures !x.shape.Platform?
  {
  }

  lemma UnderwaySeen(h: Heap, root: Val, c: set<nat>, p: seq<nat>, st: Encoding)
    requires Underway(h, root, c, p, st)
    ensures st.seen.Keys <= c
  {
  }

  lemma SameLeft(h: Heap, c: set<nat>, st: Encoding, st': Encoding)
    requires st'.seen == st.seen
    ensures Left(h, c, st', ObjectSlots) == Left(h, c, st, ObjectSlots)
    ensures Left(h, c, st', ObjectBytes) == Left(h, c, st, ObjectBytes)
  {
  }

  /** The slots of an object from one on. */
  lemma {:induction false} SlotsSucceed(h: Heap, root: Val, c: set<nat>, p: seq<nat>, o: nat, k: nat, st: Encoding,
                                        visits: nat, bytes: nat)
    requires Underway(h, root, c, p, st) && p != [] && p[|p| - 1] == o && o in h && k <= |h[o].slots|
    requires PlainObject(h[o]) && |p| <= GRAPH_DEPTH + 1 && (h[o].slots != [] ==> |p| <= GRAPH_DEPTH)
    requires Room(h, c, st, visits + (|h[o].slots| - k), bytes + SlotsBytes(h[o].slots[k..]))
    ensures var r := VisitSlots(h, h[o].slots[k..], |p|, st);
      r.Ok? && Counted(h, c, st, r.value.1, |h[o].slots| - k, SlotsBytes(h[o].slots[k..]))
    decreases GRAPH_DEPTH + 2 - |p|, |h[o].slots| - k + 1
  {
    hide Visit, VisitSlots, Underway, Left;
    var slots := h[o].slots[k..];
    UnderwaySeen(h, root, c, p, st);
    if k == |h[o].slots| {
      NoSlots(h, |p|, st);
    } else {
      var s, rest := slots[0], h[o].slots[k + 1..];
      assert slots[1..] == rest && s == h[o].slots[k];
      var keyed := st.(bytes := st.bytes + 2 * |s.key|);
      KeyedUnderway(h, root, c, p, st, 2 * |s.key|);
      SameLeft(h, c, st, keyed);
      assert Held(h, root, p, s.val);
      VisitSucceeds(h, root, c, p, s.val, keyed, visits + |rest|, bytes + SlotsBytes(rest));
      var next := Visit(h, s.val, |p|, keyed).value.1;
      GrownUnderway(h, root, c, p, keyed, next);
      SlotsSucceed(h, root, c, p, o, k + 1, next, visits, bytes);
      SlotVisited(h, slots, |p|, st);
    }
  }

  lemma NoSlots(h: Heap, depth: nat, st: Encoding)
    requires depth <= GRAPH_DEPTH + 1
    ensures VisitSlots(h, [], depth, st) == Ok(([], st))
  {
  }

  lemma KeyedUnderway(h: Heap, root: Val, c: set<nat>, p: seq<nat>, st: Encoding, bytes: nat)
    requires Underway(h, root, c, p, st)
    ensures Underway(h, root, c, p, st.(bytes := st.bytes + bytes))
  {
    hide Portable, Shallow, Path;
  }

  lemma GrownUnderway(h: Heap, root: Val, c: set<nat>, p: seq<nat>, st: Encoding, st': Encoding)
    requires Underway(h, root, c, p, st) && st.seen.Keys <= st'.seen.Keys <= c
    ensures Underway(h, root, c, p, st')
  {
    hide Portable, Shallow, Path;
  }

  lemma SlotVisited(h: Heap, slots: seq<Slot>, depth: nat, st: Encoding)
    requires depth <= GRAPH_DEPTH + 1 && slots != [] && !slots[0].accessor
    requires st.bytes + 2 * |slots[0].key| <= PORTABLE_VALUE_BYTES
    requires Visit(h, slots[0].val, depth, st.(bytes := st.bytes + 2 * |slots[0].key|)).Ok?
    requires VisitSlots(h, slots[1..], depth, Visit(h, slots[0].val, depth, st.(bytes := st.bytes + 2 * |slots[0].key|)).value.1).Ok?
    ensures VisitSlots(h, slots, depth, st).Ok?
    ensures VisitSlots(h, slots, depth, st).value.1
      == VisitSlots(h, slots[1..], depth, Visit(h, slots[0].val, depth, st.(bytes := st.bytes + 2 * |slots[0].key|)).value.1).value.1
  {
  }

  // ---------------------------------------------------------------- which graphs are encoded

  /** Within the codec's limits. */
  ghost predicate WithinLimits(h: Heap, v: Val) {
    Shallow(h, v) && Visits(h, v) <= GRAPH_NODES && Bytes(h, v) <= PORTABLE_VALUE_BYTES
  }

  lemma NothingSeen(h: Heap, v: Val, c: set<nat>)
    requires c == ReachedSet(h, v)
    ensures Left(h, c, START, ObjectSlots) == Visits(h, v) - 1
    ensures Left(h, c, START, ObjectBytes) == Bytes(h, v) - ValueBytes(v)
  {
    assert c - START.seen.Keys == c;
  }

  /** Everything portable within the limits is encoded. */
  lemma PortableIsEncoded(h: Heap, v: Val)
    requires Portable(h, v) && WithinLimits(h, v)
    ensures Encode(h, v).Ok?
  {
    var c := ReachedSet(h, v);
    assert Underway(h, v, c, [], START) && Held(h, v, [], v);
    NothingSeen(h, v, c);
    hide Underway, Held, Visits, Bytes, Shallow, Portable, Left, Visit;
    VisitSucceeds(h, v, c, [], v, START, 0, 0);
  }

  // ---------------------------------------------------------------- which are refused

  /** Every object an encoding has newly seen is portable. */
  ghost predicate NewArePlain(h: Heap, st: Encoding, st': Encoding) {
    forall o :: o in st'.seen && o !in st.seen ==> o in h && PlainObject(h[o])
  }

  lemma {:induction false} VisitChecks(h: Heap, v: Val, depth: nat, st: Encoding)
    requires depth <= GRAPH_DEPTH + 1 && Visit(h, v, depth, st).Ok?
    ensures PlainValue(v) && NewArePlain(h, st, Visit(h, v, depth, st).value.1)
    decreases GRAPH_DEPTH + 2 - depth, 0
  {
    hide VisitSlots;
    if v.R? && v.id !in st.seen {
      SlotsCheck(h, h[v.id].slots, depth + 1, Opened(st, v.id, h[v.id].shape));
    }
  }

  lemma {:induction false} SlotsCheck(h: Heap, slots: seq<Slot>, depth: nat, st: Encoding)
    requires depth <= GRAPH_DEPTH + 1 && VisitSlots(h, slots, depth, st).Ok?
    ensures forall i :: 0 <= i < |slots| ==> !slots[i].accessor && PlainValue(slots[i].val)
    ensures NewArePlain(h, st, VisitSlots(h, slots, depth, st).value.1)
    decreases GRAPH_DEPTH + 2 - depth, |slots| + 1
  {
    hide Visit, PlainObject, PlainValue;
    if slots != [] {
      VisitSlotsStep(h, slots, depth, st);
      var keyed := st.(bytes := st.bytes + 2 * |slots[0].key|);
      VisitChecks(h, slots[0].val, depth, keyed);
      SlotsCheck(h, slots[1..], depth, Visit(h, slots[0].val, depth, keyed).value.1);
      forall i | 0 <= i < |slots| ensures !slots[i].accessor && PlainValue(slots[i].val) {
        if i > 0 { assert slots[1..][i - 1] == slots[i]; }
      }
    }
  }

  /** What is encoded is portable: nothing reached is missing, a platform object, an accessor, a value of no portable
      kind or a BigInt that is too long. */
  lemma EncodedIsPortable(h: Heap, v: Val)
    requires Encode(h, v).Ok?
    ensures Portable(h, v)
  {
    VisitChecks(h, v, 0, START);
    hide PlainObject, PlainValue;
    forall o | Reached(h, v, o) ensures o in h && PlainObject(h[o]) {
      EncodesTheReached(h, v, o);
    }
  }

  lemma ReachedIsClosed(h: Heap, v: Val)
    requires Portable(h, v)
    ensures Closed(h, ReachedSet(h, v)) && (v.R? ==> v.id in ReachedSet(h, v))
  {
    RootReached(h, v);
    var c := ReachedSet(h, v);
    forall a, i | a in c && a in h && 0 <= i < |h[a].slots| && h[a].slots[i].val.R? ensures h[a].slots[i].val.id in c {
      assert Links(h, a, h[a].slots[i].val.id);
      LinkReached(h, v, a, h[a].slots[i].val.id);
    }
  }

  lemma {:induction false} VisitCounts(h: Heap, v: Val, depth: nat, st: Encoding, c: set<nat>)
    requires depth <= GRAPH_DEPTH + 1 && Visit(h, v, depth, st).Ok? && Closed(h, c) && (v.R? ==> v.id in c)
    requires st.seen.Keys <= c
    ensures var st' := Visit(h, v, depth, st).value.1;
      st'.seen.Keys <= c
      && st'.bytes + Left(h, c, st', ObjectBytes) == st.bytes + ValueBytes(v) + Left(h, c, st, ObjectBytes)
    decreases GRAPH_DEPTH + 2 - depth, 0
  {
    VisitStep(h, v, depth, st);
    VisitStays(h, v, depth, st, c);
    hide Visit, VisitSlots, Left;
    var st' := Visit(h, v, depth, st).value.1;
    if !v.R? {
      SameLeft(h, c, st, st');
    } else if v.id !in st.seen {
      var o := v.id;
      var start := Opened(st, o, h[o].shape);
      LeftOpened(h, c, st, o, ObjectBytes);
      SlotsCount(h, h[o].slots, depth + 1, start, c);
      SameLeft(h, c, VisitSlots(h, h[o].slots, depth + 1, start).value.1, st');
    }
  }

  lemma {:induction false} SlotsCount(h: Heap, slots: seq<Slot>, depth: nat, st: Encoding, c: set<nat>)
    requires depth <= GRAPH_DEPTH + 1 && VisitSlots(h, slots, depth, st).Ok? && Closed(h, c) && st.seen.Keys <= c
    requires forall i :: 0 <= i < |slots| && slots[i].val.R? ==> slots[i].val.id in c
    ensures var st' := VisitSlots(h, slots, depth, st).value.1;
      st'.seen.Keys <= c
      && st'.bytes + Left(h, c, st', ObjectBytes) == st.bytes + SlotsBytes(slots) + Left(h, c, st, ObjectBytes)
    decreases GRAPH_DEPTH + 2 - depth, |slots| + 1
  {
    hide Visit, VisitSlots, Left;
    if slots == [] {
      NoSlots(h, depth, st);
    } else {
      VisitSlotsStep(h, slots, depth, st);
      var keyed := st.(bytes := st.bytes + 2 * |slots[0].key|);
      SameLeft(h, c, st, keyed);
      VisitCounts(h, slots[0].val, depth, keyed, c);
      SlotsCount(h, slots[1..], depth, Visit(h, slots[0].val, depth, keyed).value.1, c);
    }
  }

  /** What is encoded weighs what its objects do. */
  lemma EncodedBytes(h: Heap, v: Val)
    requires Encode(h, v).Ok? && Portable(h, v)
    ensures Encode(h, v).value.1.bytes == Bytes(h, v)
  {
    var c := ReachedSet(h, v);
    var st := Encode(h, v).value.1;
    EncodeStarts(h, v);
    ReachedIsClosed(h, v);
    VisitCounts(h, v, 0, START, c);
    NothingSeen(h, v, c);
    forall o | o in c ensures o in st.seen { EncodesTheReached(h, v, o); }
    assert Part(h, c - st.seen.Keys) == map[];
    TotalEmpty<nat, Obj>(ObjectBytes);
    hide Visit, Portable, Encode;
  }

  /** A graph whose ways are no longer than 64 steps and that needs no more than 40000 looks is encoded if and only if
      everything reached is portable and weighs no more than 64 MiB. */
  lemma EncodedIff(h: Heap, v: Val)
    requires Shallow(h, v) && Visits(h, v) <= GRAPH_NODES
    ensures Encode(h, v).Ok? <==> Portable(h, v) && Bytes(h, v) <= PORTABLE_VALUE_BYTES
  {
    hide Encode, Portable, Bytes, Visits, Shallow;
    if Encode(h, v).Ok? {
      EncodedIsPortable(h, v);
      EncodedBytes(h, v);
      EncodedWithinLimits(h, v);
    }
    if Portable(h, v) && Bytes(h, v) <= PORTABLE_VALUE_BYTES { PortableIsEncoded(h, v); }
  }

  // ---------------------------------------------------------------- the law for values within the limits

  /** For every portable value within the limits: encoding succeeds, decoding the encoding succeeds exactly if no object
      reached is of a size or kind it refuses, and then builds the same graph under other names. */
  lemma PortableRoundTrip(h: Heap, v: Val)
    requires HeapOk(h) && Portable(h, v) && WithinLimits(h, v)
    ensures Encode(h, v).Ok?
    ensures var (g, st) := Encode(h, v).value;
      (Decode(g).Ok? <==> forall o :: Reached(h, v, o) ==> o in h && Permitted(h[o].shape, Keys(h[o].slots)))
      && (Decode(g).Ok? ==> Isomorphic(h, v, Decode(g).value.1, Decode(g).value.0, st.seen))
  {
    PortableIsEncoded(h, v);
    hide Encode, Decode, WithinLimits, HeapOk, Permitted, Isomorphic, Reached;
    RoundTrip(h, v);
    var st := Encode(h, v).value.1;
    forall o ensures o in st.seen <==> Reached(h, v, o) { EncodesTheReached(h, v, o); }
  }
}
