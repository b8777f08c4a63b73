/** The portable graph codec (runtime/hub-contracts.ts): a value with everything it reaches, cycles and sharing
    included, flattened into numbered nodes, and the object graph built back from them. */
module GraphCodec {
  import opened Collections

  const GRAPH_DEPTH: nat := 64
  const GRAPH_NODES: nat := 40000
  const PORTABLE_VALUE_BYTES: nat := 64 * 1024 * 1024
  const MOST_BIGINT_DIGITS: nat := 1235
  const MOST_MIME: nat := 256

  datatype Prim = Null | Undefined | Str(text: string) | Bool(b: bool) | Num(number: string) | Big(digits: string)

  /** A value: a primitive, a reference to an object, or something that is neither (a function, a symbol). */
  datatype Val = P(prim: Prim) | R(id: nat) | Foreign

  datatype File = File(name: string, modified: int)

  datatype Shape =
    | Buffer(bytes: seq<bv8>)
    | View(kind: string, offset: nat, length: nat)
    | Blob(bytes: seq<bv8>, mime: string, file: Option<File>)
    | Date(time: string)
    | RegExp(source: string, flags: string)
    | MapShape
    | SetShape
    | ArrayShape(count: nat)
    | ObjectShape(nullPrototype: bool)
    | Platform

  /** What an object holds: an enumerable property, or an element of a collection; the keys and values of a map
      alternate, and a view holds its buffer. */
  datatype Slot = Slot(key: string, accessor: bool, val: Val)

  datatype Obj = Obj(shape: Shape, slots: seq<Slot>)

  type Heap = map<nat, Obj>

  datatype Node = Hole | NPrim(prim: Prim) | NObj(shape: Shape, keys: seq<string>, kids: seq<nat>)

  datatype Result<T> = Ok(value: T) | Err

  /** The bytes a primitive or a shape counts for. */
  function PrimBytes(p: Prim): nat { if p.Str? then 2 * |p.text| else 0 }
  function ShapeBytes(s: Shape): nat { if s.Buffer? || s.Blob? then |s.bytes| else 0 }

  predicate PrimFits(p: Prim) { p.Big? ==> |p.digits| <= MOST_BIGINT_DIGITS }

  function Keys(slots: seq<Slot>): (r: seq<string>)
    ensures |r| == |slots|
  {
    seq(|slots|, i requires 0 <= i < |slots| => slots[i].key)
  }

  // ---------------------------------------------------------------- encoding

  datatype Encoding = Encoding(nodes: seq<Node>, seen: map<nat, nat>, bytes: nat)

  /** encodePortableValue's visit. */
  function Visit(h: Heap, v: Val, depth: nat, st: Encoding): (r: Result<(nat, Encoding)>)
    requires depth <= GRAPH_DEPTH + 1
    decreases GRAPH_DEPTH + 2 - depth, 0
  {
    if depth > GRAPH_DEPTH || |st.nodes| >= GRAPH_NODES then Err
    else if v.R? && v.id in st.seen then Ok((st.seen[v.id], st))
    else
      var id := |st.nodes|;
      match v
      case Foreign => Err
      case P(p) =>
        var bytes := st.bytes + PrimBytes(p);
        if !PrimFits(p) || bytes > PORTABLE_VALUE_BYTES then Err
        else Ok((id, st.(nodes := st.nodes + [NPrim(p)], bytes := bytes)))
      case R(o) =>
        if o !in h || h[o].shape.Platform? then Err
        else
          var start := Opened(st, o, h[o].shape);
          if start.bytes > PORTABLE_VALUE_BYTES then Err
          else
            var r := VisitSlots(h, h[o].slots, depth + 1, start);
            if r.Err? then Err
            else
              var (kids, done) := r.value;
              if id >= |done.nodes| then Err
              else Ok((id, done.(nodes := done.nodes[id := NObj(h[o].shape, Keys(h[o].slots), kids)])))
  }

  /** A number is reserved for the object before what it holds is visited. */
  function Opened(st: Encoding, o: nat, shape: Shape): Encoding {
    Encoding(st.nodes + [Hole], st.seen[o := |st.nodes|], st.bytes + ShapeBytes(shape))
  }

  function VisitSlots(h: Heap, slots: seq<Slot>, depth: nat, st: Encoding): (r: Result<(seq<nat>, Encoding)>)
    requires depth <= GRAPH_DEPTH + 1
    decreases GRAPH_DEPTH + 2 - depth, |slots| + 1
  {
    if slots == [] then Ok(([], st))
    else
      var s := slots[0];
      var keyed := st.(bytes := st.bytes + 2 * |s.key|);
      if s.accessor || keyed.bytes > PORTABLE_VALUE_BYTES then Err
      else
        var first := Visit(h, s.val, depth, keyed);
        if first.Err? then Err
        else
          var rest := VisitSlots(h, slots[1..], depth, first.value.1);
          if rest.Err? then Err else Ok(([first.value.0] + rest.value.0, rest.value.1))
  }

  datatype Graph = Graph(root: nat, nodes: seq<Node>)

  function Encode(h: Heap, v: Val): Result<(Graph, Encoding)> {
    var r := Visit(h, v, 0, Encoding([], map[], 0));
    if r.Err? then Err else Ok((Graph(r.value.0, r.value.1.nodes), r.value.1))
  }

  // ---------------------------------------------------------------- decoding

  const VIEW_KINDS := {"Int8Array", "Uint8Array", "Uint8ClampedArray", "Int16Array", "Uint16Array", "Int32Array",
                       "Uint32Array", "Float32Array", "Float64Array", "BigInt64Array", "BigUint64Array", "DataView"}

  /** `heap` holds the objects built so far under their node numbers, `values` what reading a node again gives. */
  datatype Decoding = Decoding(values: map<nat, Val>, building: set<nat>, heap: Heap, total: nat)

  /** What decoding demands of a node, apart from what the nodes it holds are. */
  predicate Permitted(shape: Shape, keys: seq<string>) {
    match shape
    case ArrayShape(count) => count <= GRAPH_NODES && |keys| <= GRAPH_NODES && "length" !in keys
    case ObjectShape(_) => |keys| <= GRAPH_NODES
    case View(kind, _, _) => kind in VIEW_KINDS
    case Blob(_, mime, _) => |mime| <= MOST_MIME
    case Platform => false
    case _ => true
  }

  /** These are entered before what they hold is read, so that a cycle finds them. */
  predicate Early(shape: Shape) { shape.ArrayShape? || shape.ObjectShape? || shape.MapShape? || shape.SetShape? }

  /** A view needs a buffer long enough. */
  predicate ViewFits(shape: Shape, slots: seq<Slot>, heap: Heap) {
    shape.View? ==>
      |slots| == 1 && slots[0].val.R? && slots[0].val.id in heap && heap[slots[0].val.id].shape.Buffer?
      && shape.offset + shape.length <= |heap[slots[0].val.id].shape.bytes|
  }

  /** decodePortableValue's read. */
  function Read(nodes: seq<Node>, id: nat, depth: nat, ds: Decoding): (r: Result<(Val, Decoding)>)
    requires depth <= GRAPH_DEPTH + 1
    decreases GRAPH_DEPTH + 2 - depth, 0
  {
    if id >= |nodes| || depth > GRAPH_DEPTH then Err
    else if id in ds.values then Ok((ds.values[id], ds))
    else if id in ds.building then Err
    else
      match nodes[id]
      case Hole => Err
      case NPrim(p) =>
        var total := ds.total + PrimBytes(p);
        if !PrimFits(p) || total > PORTABLE_VALUE_BYTES then Err
        else Ok((P(p), ds.(values := ds.values[id := P(p)], total := total)))
      case NObj(shape, keys, kids) =>
        if !Permitted(shape, keys) || |keys| != |kids| || ds.total + ShapeBytes(shape) > PORTABLE_VALUE_BYTES then Err
        else
          var r := ReadKids(nodes, id, keys, kids, depth + 1, Entered(ds, id, shape));
          if r.Err? then Err
          else
            var done := r.value;
            if id !in done.heap || !ViewFits(shape, done.heap[id].slots, done.heap) then Err
            else Ok((R(id), done.(values := done.values[id := R(id)], building := done.building - {id})))
  }

  function Entered(ds: Decoding, id: nat, shape: Shape): Decoding {
    Decoding(if Early(shape) then ds.values[id := R(id)] else ds.values, ds.building + {id},
             ds.heap[id := Obj(shape, [])], ds.total + ShapeBytes(shape))
  }

  function ReadKids(nodes: seq<Node>, id: nat, keys: seq<string>, kids: seq<nat>, depth: nat, ds: Decoding)
    : (r: Result<Decoding>)
    requires depth <= GRAPH_DEPTH + 1 && |keys| == |kids|
    decreases GRAPH_DEPTH + 2 - depth, |kids| + 1
  {
    if kids == [] then Ok(ds)
    else
      var keyed := ds.(total := ds.total + 2 * |keys[0]|);
      if keyed.total > PORTABLE_VALUE_BYTES then Err
      else
        var first := Read(nodes, kids[0], depth, keyed);
        if first.Err? || id !in first.value.1.heap then Err
        else
          ReadKids(nodes, id, keys[1..], kids[1..], depth, Attached(first.value.1, id, keys[0], first.value.0))
  }

  /** One more thing the object holds. */
  function Attached(ds: Decoding, id: nat, key: string, v: Val): Decoding
    requires id in ds.heap
  {
    ds.(heap := ds.heap[id := ds.heap[id].(slots := ds.heap[id].slots + [Slot(key, false, v)])])
  }

  function ReadAll(nodes: seq<Node>, from: nat, ds: Decoding): Result<Decoding>
    requires from <= |nodes|
    decreases |nodes| - from
  {
    if from == |nodes| then Ok(ds)
    else
      var r := Read(nodes, from, 0, ds);
      if r.Err? then Err else ReadAll(nodes, from + 1, r.value.1)
  }

  const FRESH := Decoding(map[], {}, map[], 0)

  function Decode(g: Graph): Result<(Val, Heap)> {
    if |g.nodes| > GRAPH_NODES then Err
    else
      var r := Read(g.nodes, g.root, 0, FRESH);
      if r.Err? then Err
      else
        var all := ReadAll(g.nodes, 0, r.value.1);
        if all.Err? then Err else Ok((r.value.0, all.value.heap))
  }
}
