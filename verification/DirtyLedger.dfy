/** The native dirty ledger of runtime/local-dirty-v2.ts: one control row, markers stored twice (by key
    and by generation) and size rows, all written inside the website's own transactions. */
module DirtyLedger {
  import opened Collections

  const MAX_SAFE_INTEGER := 9007199254740991

  /** Store names and record keys stand for their rank in native key order. */
  type StoreName = int
  type Key = int

  datatype Loc = Loc(store: StoreName, key: Key)
  datatype Operation = Upsert | Delete | Clear | Schema | DatabaseDelete

  /** `charge` is what markerBytes charges for the marker row; `size` the optional native estimate. */
  datatype Input = Input(operation: Operation, loc: Loc, size: Option<nat>, eligible: bool, charge: nat)

  datatype Limits = Limits(maxBytes: nat, maxKeys: nat)

  datatype Control = Control(
    incarnation: nat, generation: nat, acknowledged: nat, schemaEpoch: nat, trackingEpoch: nat,
    baselineRequired: bool, deleted: bool, dirtyCount: int, dirtyBytes: int, storeEpochs: map<StoreName, nat>)

  datatype Marker = Marker(
    loc: Loc, generation: nat, operation: Operation, storeEpoch: nat, size: Option<nat>, eligible: bool, bytes: nat)
  datatype Size = Size(storeEpoch: nat, bytes: nat, eligible: bool)

  datatype DirtyKey = DirtyKey(epoch: nat, storeEpoch: nat, loc: Loc)
  datatype GenKey = GenKey(epoch: nat, generation: nat, storeEpoch: nat, loc: Loc)
  datatype SizeKey = SizeKey(store: StoreName, epoch: nat, key: Key)

  datatype Ledger = Ledger(
    control: Control, dirty: map<DirtyKey, Marker>, generations: map<GenKey, Marker>, sizes: map<SizeKey, Size>)

  function EmptyControl(incarnation: nat): Control {
    Control(incarnation, 0, 0, 1, 1, false, false, 0, 0, map[])
  }

  function EmptyLedger(incarnation: nat): Ledger {
    Ledger(EmptyControl(incarnation), map[], map[], map[])
  }

  function StoreEpoch(c: Control, s: StoreName): nat {
    if s in c.storeEpochs then c.storeEpochs[s] else 1
  }

  function DirtyKeyOf(c: Control, loc: Loc): DirtyKey {
    DirtyKey(c.trackingEpoch, StoreEpoch(c, loc.store), loc)
  }

  function GenKeyOf(epoch: nat, m: Marker): GenKey {
    GenKey(epoch, m.generation, m.storeEpoch, m.loc)
  }

  function Baseline(c: Control): Control {
    c.(baselineRequired := true, trackingEpoch := c.trackingEpoch + 1, dirtyCount := 0, dirtyBytes := 0)
  }

  /** One generation per native transaction, whatever number of records it changes. */
  function Begin(l: Ledger): Ledger {
    l.(control := l.control.(generation := l.control.generation + 1))
  }

  function WithSize(l: Ledger, i: Input, epoch: nat): map<SizeKey, Size> {
    var k := SizeKey(i.loc.store, epoch, i.loc.key);
    if i.operation != Delete && i.size.Some? then l.sizes[k := Size(epoch, i.size.value, i.eligible)] else l.sizes - {k}
  }

  function MarkerOf(c: Control, i: Input, epoch: nat): Marker {
    Marker(i.loc, c.generation, i.operation, epoch, i.size, i.eligible, i.charge)
  }

  /** An upsert or delete revives the database, names the store's epoch and refreshes the size row. */
  function Touch(l: Ledger, i: Input): Ledger {
    var epoch := StoreEpoch(l.control, i.loc.store);
    l.(control := l.control.(deleted := false, storeEpochs := l.control.storeEpochs[i.loc.store := epoch]),
       sizes := WithSize(l, i, epoch))
  }

  function NextBytes(l: Ledger, i: Input): int {
    var k := DirtyKeyOf(l.control, i.loc);
    l.control.dirtyBytes - (if k in l.dirty then l.dirty[k].bytes else 0) + i.charge
  }

  function NextCount(l: Ledger, i: Input): int {
    l.control.dirtyCount + (if DirtyKeyOf(l.control, i.loc) in l.dirty then 0 else 1)
  }

  predicate Overflows(l: Ledger, i: Input, lim: Limits) {
    i.charge > lim.maxBytes || NextBytes(l, i) > lim.maxBytes || NextCount(l, i) > lim.maxKeys
  }

  /** Replaces the key's marker, moving its generation row to the running transaction. */
  function Mark(l: Ledger, i: Input): Ledger {
    var k := DirtyKeyOf(l.control, i.loc);
    var m := MarkerOf(l.control, i, StoreEpoch(l.control, i.loc.store));
    var freed := if k in l.dirty then l.generations - {GenKeyOf(k.epoch, l.dirty[k])} else l.generations;
    Ledger(l.control.(dirtyBytes := NextBytes(l, i), dirtyCount := NextCount(l, i)),
           l.dirty[k := m], freed[GenKeyOf(k.epoch, m) := m], l.sizes)
  }

  /** One turn of the pump. */
  function Append(l: Ledger, i: Input, lim: Limits): Ledger {
    var c := l.control;
    match i.operation
    case Schema => l.(control := Baseline(c.(schemaEpoch := c.schemaEpoch + 1)))
    case Clear => l.(control := Baseline(c.(storeEpochs := c.storeEpochs[i.loc.store := StoreEpoch(c, i.loc.store) + 1])))
    case DatabaseDelete => l.(control := Baseline(c.(deleted := true)))
    case _ =>
      var t := Touch(l, i);
      if Overflows(t, i, lim) then t.(control := Baseline(t.control)) else Mark(t, i)
  }

  function AppendAll(l: Ledger, inputs: seq<Input>, lim: Limits): Ledger
    decreases |inputs|
  {
    if inputs == [] then l else AppendAll(Append(l, inputs[0], lim), inputs[1..], lim)
  }

  function Acknowledge(l: Ledger, cut: nat, expectedEpoch: nat): Ledger {
    var c := l.control;
    if cut > c.generation then l
    else
      l.(control := c.(
        acknowledged := if cut > c.acknowledged then cut else c.acknowledged,
        baselineRequired := c.baselineRequired && !(c.trackingEpoch == expectedEpoch && cut == c.generation)))
  }

  // ---------------------------------------------------------------- ledger invariants

  function MarkerBytes(m: Marker): nat { m.bytes }

  ghost function CurrentRows(l: Ledger): map<DirtyKey, Marker> {
    map k | k in l.dirty && k.epoch == l.control.trackingEpoch :: l.dirty[k]
  }

  /** Marker rows and generation rows are two views of the same markers. */
  ghost predicate Paired(l: Ledger) {
    && (forall k :: k in l.dirty ==>
          && l.dirty[k].loc == k.loc && l.dirty[k].storeEpoch == k.storeEpoch
          && GenKeyOf(k.epoch, l.dirty[k]) in l.generations
          && l.generations[GenKeyOf(k.epoch, l.dirty[k])] == l.dirty[k])
    && (forall g :: g in l.generations ==>
          && DirtyKey(g.epoch, g.storeEpoch, g.loc) in l.dirty
          && l.dirty[DirtyKey(g.epoch, g.storeEpoch, g.loc)].generation == g.generation)
  }

  /** Every stored epoch and generation has been issued, and a current marker belongs to an existing store. */
  ghost predicate Issued(l: Ledger, names: set<StoreName>) {
    && l.control.acknowledged <= l.control.generation
    && (forall k :: k in l.dirty ==> k.epoch <= l.control.trackingEpoch && l.dirty[k].generation <= l.control.generation)
    && (forall k :: k in l.dirty && k.epoch == l.control.trackingEpoch ==>
          && k.storeEpoch == StoreEpoch(l.control, k.loc.store) && k.loc.store in names
          && l.dirty[k].operation in {Upsert, Delete})
  }

  /** dirtyCount and dirtyBytes are exact and bounded. */
  ghost predicate Conserved(l: Ledger, lim: Limits) {
    && l.control.dirtyCount == |CurrentRows(l)| <= lim.maxKeys
    && l.control.dirtyBytes == Total(CurrentRows(l), MarkerBytes) <= lim.maxBytes
  }

  ghost predicate LedgerInv(l: Ledger, names: set<StoreName>, lim: Limits) {
    Paired(l) && Issued(l, names) && Conserved(l, lim)
  }

  function LastChange(last: map<Loc, nat>, loc: Loc): nat {
    if loc in last then last[loc] else 0
  }

  /** `last` records the generation of each key's latest change, `present` the keys that hold a value
      and `floor` the generation that last gave up its markers. */
  ghost predicate Covered(l: Ledger, last: map<Loc, nat>, present: set<Loc>, floor: nat) {
    && (l.control.baselineRequired || floor <= l.control.acknowledged)
    && floor <= l.control.generation
    && (forall loc :: LastChange(last, loc) <= l.control.generation)
    && (forall loc :: LastChange(last, loc) > floor && LastChange(last, loc) > l.control.acknowledged ==>
          MarkedAt(l, loc, LastChange(last, loc), loc in present))
    && Truthful(l, last, present)
  }

  /** A current marker carries its key's latest generation and says whether the key still holds a value. */
  ghost predicate Truthful(l: Ledger, last: map<Loc, nat>, present: set<Loc>) {
    forall k :: k in l.dirty && k.epoch == l.control.trackingEpoch ==>
      l.dirty[k].generation == LastChange(last, k.loc) && (l.dirty[k].operation == Upsert <==> k.loc in present)
  }

  ghost predicate MarkedAt(l: Ledger, loc: Loc, generation: nat, present: bool) {
    var k := DirtyKeyOf(l.control, loc);
    && k in l.dirty && l.dirty[k].generation == generation
    && l.dirty[k].operation == (if present then Upsert else Delete)
  }

  /** What one pump item means for the website's data: which keys it changes and whether it may give up markers. */
  ghost predicate ItemEffect(
    l: Ledger, i: Input, lim: Limits, last: map<Loc, nat>, present: set<Loc>, floor: nat, names: set<StoreName>,
    last': map<Loc, nat>, present': set<Loc>, floor': nat, names': set<StoreName>)
  {
    var g := l.control.generation;
    match i.operation
    case Upsert =>
      && i.loc.store in names && names' == names
      && last' == last[i.loc := g] && present' == present + {i.loc}
      && floor' == (if Overflows(Touch(l, i), i, lim) then g else floor)
    case Delete =>
      && i.loc.store in names && names' == names
      && last' == last[i.loc := g] && present' == present - {i.loc}
      && floor' == (if Overflows(Touch(l, i), i, lim) then g else floor)
    case _ =>
      && floor' == g
      && (forall loc :: LastChange(last', loc) <= g)
      && (i.operation == DatabaseDelete ==> present' == {})
      && (i.operation.Schema? || names' == names)
  }

  lemma EmptyLedgerInv(incarnation: nat, names: set<StoreName>, lim: Limits)
    ensures LedgerInv(EmptyLedger(incarnation), names, lim)
    ensures Covered(EmptyLedger(incarnation), map[], {}, 0)
  {
    assert CurrentRows(EmptyLedger(incarnation)) == map[];
  }

  lemma BeginKeeps(l: Ledger, names: set<StoreName>, lim: Limits, last: map<Loc, nat>, present: set<Loc>, floor: nat)
    requires LedgerInv(l, names, lim) && Covered(l, last, present, floor)
    ensures LedgerInv(Begin(l), names, lim) && Covered(Begin(l), last, present, floor)
  {
    assert CurrentRows(Begin(l)) == CurrentRows(l);
    forall loc | LastChange(last, loc) > floor && LastChange(last, loc) > l.control.acknowledged
      ensures MarkedAt(Begin(l), loc, LastChange(last, loc), loc in present)
    {
      assert MarkedAt(l, loc, LastChange(last, loc), loc in present);
    }
  }

  lemma BaselineKeeps(l: Ledger, c: Control, sizes: map<SizeKey, Size>, names: set<StoreName>, names': set<StoreName>, lim: Limits)
    requires LedgerInv(l, names, lim)
    requires c.generation == l.control.generation && c.acknowledged == l.control.acknowledged
    requires c.trackingEpoch == l.control.trackingEpoch
    ensures LedgerInv(l.(control := Baseline(c), sizes := sizes), names', lim)
  {
    var l' := l.(control := Baseline(c), sizes := sizes);
    assert CurrentRows(l') == map[];
  }

  lemma TouchKeeps(l: Ledger, i: Input, names: set<StoreName>, lim: Limits)
    requires LedgerInv(l, names, lim)
    ensures LedgerInv(Touch(l, i), names, lim)
  {
    assert CurrentRows(Touch(l, i)) == CurrentRows(l);
  }

  lemma MarkRows(l: Ledger, i: Input)
    ensures CurrentRows(Mark(l, i)) ==
            CurrentRows(l)[DirtyKeyOf(l.control, i.loc) := MarkerOf(l.control, i, StoreEpoch(l.control, i.loc.store))]
    ensures DirtyKeyOf(l.control, i.loc) in CurrentRows(l) <==> DirtyKeyOf(l.control, i.loc) in l.dirty
  {
  }

  lemma MarkConserves(l: Ledger, i: Input, lim: Limits)
    requires Conserved(l, lim) && !Overflows(l, i, lim)
    ensures Conserved(Mark(l, i), lim)
  {
    var k := DirtyKeyOf(l.control, i.loc);
    var m := MarkerOf(l.control, i, StoreEpoch(l.control, i.loc.store));
    var rows := CurrentRows(l);
    MarkRows(l, i);
    TotalPut(rows, MarkerBytes, k, m);
    assert rows[k := m].Keys == rows.Keys + {k};
  }

  lemma MarkIssued(l: Ledger, i: Input, names: set<StoreName>)
    requires Issued(l, names) && i.operation in {Upsert, Delete} && i.loc.store in names
    ensures Issued(Mark(l, i), names)
  {
  }

  /** The marker branch alone: paired rows and exact totals. */
  lemma MarkKeeps(l: Ledger, i: Input, names: set<StoreName>, lim: Limits)
    requires LedgerInv(l, names, lim)
    requires i.operation in {Upsert, Delete} && i.loc.store in names
    requires !Overflows(l, i, lim)
    ensures LedgerInv(Mark(l, i), names, lim)
  {
    MarkConserves(l, i, lim);
    MarkIssued(l, i, names);
    MarkPairs(l, i);
  }

  lemma MarkPairs(l: Ledger, i: Input)
    requires Paired(l)
    ensures Paired(Mark(l, i))
  {
    var l' := Mark(l, i);
    var k := DirtyKeyOf(l.control, i.loc);
    var m := MarkerOf(l.control, i, StoreEpoch(l.control, i.loc.store));
    var g := GenKeyOf(k.epoch, m);
    var freed := if k in l.dirty then l.generations - {GenKeyOf(k.epoch, l.dirty[k])} else l.generations;
    forall j | j in l'.dirty
      ensures l'.dirty[j].loc == j.loc && l'.dirty[j].storeEpoch == j.storeEpoch
      ensures GenKeyOf(j.epoch, l'.dirty[j]) in l'.generations
      ensures l'.generations[GenKeyOf(j.epoch, l'.dirty[j])] == l'.dirty[j]
    {
      if j != k {
        assert j in l.dirty && l.dirty[j].loc == j.loc && l.dirty[j].storeEpoch == j.storeEpoch;
        assert GenKeyOf(j.epoch, l.dirty[j]) in freed;
      }
    }
    forall h | h in l'.generations
      ensures DirtyKey(h.epoch, h.storeEpoch, h.loc) in l'.dirty
      ensures l'.dirty[DirtyKey(h.epoch, h.storeEpoch, h.loc)].generation == h.generation
    {
      if h != g {
        assert h in l.generations;
        assert DirtyKey(h.epoch, h.storeEpoch, h.loc) in l.dirty;
      }
    }
  }

  /** Conservation: through upserts, deletes, overflow, clears, schema changes and database deletion the marker
      and generation rows stay paired and the two counters stay exact and within their limits. */
  lemma AppendKeepsLedger(l: Ledger, i: Input, names: set<StoreName>, names': set<StoreName>, lim: Limits)
    requires LedgerInv(l, names, lim)
    requires i.operation in {Upsert, Delete} ==> i.loc.store in names && names' == names
    ensures LedgerInv(Append(l, i, lim), names', lim)
  {
    var c := l.control;
    match i.operation
    case Schema => BaselineKeeps(l, c.(schemaEpoch := c.schemaEpoch + 1), l.sizes, names, names', lim);
    case Clear => BaselineKeeps(l, c.(storeEpochs := c.storeEpochs[i.loc.store := StoreEpoch(c, i.loc.store) + 1]), l.sizes, names, names', lim);
    case DatabaseDelete => BaselineKeeps(l, c.(deleted := true), l.sizes, names, names', lim);
    case _ =>
      var t := Touch(l, i);
      TouchKeeps(l, i, names, lim);
      if Overflows(t, i, lim) {
        BaselineKeeps(t, t.control, t.sizes, names, names', lim);
      } else {
        MarkKeeps(t, i, names, lim);
      }
  }

  lemma MarkCovers(l: Ledger, i: Input, names: set<StoreName>, last: map<Loc, nat>, present: set<Loc>, present': set<Loc>, floor: nat)
    requires Issued(l, names) && Covered(l, last, present, floor)
    requires i.operation in {Upsert, Delete} && present' == (if i.operation == Upsert then present + {i.loc} else present - {i.loc})
    ensures Covered(Mark(l, i), last[i.loc := l.control.generation], present', floor)
  {
    var last' := last[i.loc := l.control.generation];
    forall loc | LastChange(last', loc) > floor && LastChange(last', loc) > l.control.acknowledged
      ensures MarkedAt(Mark(l, i), loc, LastChange(last', loc), loc in present')
    {
      if loc != i.loc {
        assert MarkedAt(l, loc, LastChange(last, loc), loc in present);
      }
    }
    forall loc ensures LastChange(last', loc) <= l.control.generation {
      assert LastChange(last, loc) <= l.control.generation;
    }
    forall k | k in Mark(l, i).dirty && k.epoch == l.control.trackingEpoch
      ensures Mark(l, i).dirty[k].generation == LastChange(last', k.loc)
      ensures Mark(l, i).dirty[k].operation == Upsert <==> k.loc in present'
    {
      if k != DirtyKeyOf(l.control, i.loc) {
        assert k in l.dirty && k.loc != i.loc;
      }
    }
  }

  lemma TouchCovers(l: Ledger, i: Input, last: map<Loc, nat>, present: set<Loc>, floor: nat)
    requires Covered(l, last, present, floor)
    ensures Covered(Touch(l, i), last, present, floor)
  {
    forall loc | LastChange(last, loc) > floor && LastChange(last, loc) > l.control.acknowledged
      ensures MarkedAt(Touch(l, i), loc, LastChange(last, loc), loc in present)
    {
      assert MarkedAt(l, loc, LastChange(last, loc), loc in present);
    }
  }

  /** Coverage: while no baseline is required, every key last changed after the acknowledged generation has a
      current marker at exactly that generation, and a given-up generation always demands a baseline. */
  lemma AppendKeepsCoverage(
    l: Ledger, i: Input, lim: Limits, last: map<Loc, nat>, present: set<Loc>, floor: nat, names: set<StoreName>,
    last': map<Loc, nat>, present': set<Loc>, floor': nat, names': set<StoreName>)
    requires Issued(l, names) && Covered(l, last, present, floor)
    requires ItemEffect(l, i, lim, last, present, floor, names, last', present', floor', names')
    ensures Covered(Append(l, i, lim), last', present', floor')
  {
    if i.operation in {Upsert, Delete} {
      TouchCovers(l, i, last, present, floor);
      if Overflows(Touch(l, i), i, lim) {
        forall loc ensures LastChange(last', loc) <= l.control.generation {
          assert LastChange(last, loc) <= l.control.generation;
        }
      } else {
        MarkCovers(Touch(l, i), i, names, last, present, present', floor);
      }
    }
  }

  lemma AcknowledgeKeepsLedger(l: Ledger, cut: nat, epoch: nat, lim: Limits, names: set<StoreName>)
    requires LedgerInv(l, names, lim)
    ensures LedgerInv(Acknowledge(l, cut, epoch), names, lim)
  {
    assert CurrentRows(Acknowledge(l, cut, epoch)) == CurrentRows(l);
  }

  /** Acknowledging a cut drops only demands for markers the cut already covers, and clears a required baseline
      only when nothing changed after the cut. */
  lemma AcknowledgeKeepsCoverage(l: Ledger, cut: nat, epoch: nat, last: map<Loc, nat>, present: set<Loc>, floor: nat)
    requires Covered(l, last, present, floor)
    ensures Covered(Acknowledge(l, cut, epoch), last, present, floor)
  {
    var l' := Acknowledge(l, cut, epoch);
    forall loc | LastChange(last, loc) > floor && LastChange(last, loc) > l'.control.acknowledged
      ensures MarkedAt(l', loc, LastChange(last, loc), loc in present)
    {
      assert MarkedAt(l, loc, LastChange(last, loc), loc in present);
    }
  }

  /** What an acknowledged cut leaves: the later of the two acknowledgements; and no baseline is required any more if the
      cut is the present generation of the epoch it was taken in. A cut from the future is refused. Nothing else changes. */
  lemma AcknowledgeMeans(l: Ledger, cut: nat, epoch: nat)
    ensures var (c, l') := (l.control, Acknowledge(l, cut, epoch));
      l'.dirty == l.dirty && l'.generations == l.generations && l'.sizes == l.sizes
      && l'.control == c.(acknowledged := l'.control.acknowledged, baselineRequired := l'.control.baselineRequired)
      && (cut > c.generation ==> l' == l)
      && (cut <= c.generation ==>
            l'.control.acknowledged >= cut && l'.control.acknowledged >= c.acknowledged
            && (l'.control.acknowledged == cut || l'.control.acknowledged == c.acknowledged)
            && (l'.control.baselineRequired <==> c.baselineRequired && (c.trackingEpoch != epoch || cut < c.generation)))
  {
  }

  /** A marker fits when all current markers with it are within both limits. */
  ghost predicate Fits(l: Ledger, i: Input, lim: Limits) {
    var rows := CurrentRows(l)[DirtyKeyOf(l.control, i.loc) := MarkerOf(l.control, i, StoreEpoch(l.control, i.loc.store))];
    |rows| <= lim.maxKeys && Total(rows, MarkerBytes) <= lim.maxBytes
  }

  lemma TouchRows(l: Ledger, i: Input, lim: Limits)
    requires Conserved(l, lim)
    ensures Conserved(Touch(l, i), lim) && (Fits(Touch(l, i), i, lim) <==> Fits(l, i, lim))
    ensures DirtyKeyOf(Touch(l, i).control, i.loc) == DirtyKeyOf(l.control, i.loc)
    ensures Touch(l, i).control.baselineRequired == l.control.baselineRequired
    ensures Touch(l, i).control.generation == l.control.generation
  {
    assert CurrentRows(Touch(l, i)) == CurrentRows(l);
  }

  lemma OverflowsIff(l: Ledger, i: Input, lim: Limits)
    requires Conserved(l, lim)
    ensures Overflows(l, i, lim) <==> !Fits(l, i, lim)
  {
    var k := DirtyKeyOf(l.control, i.loc);
    var m := MarkerOf(l.control, i, StoreEpoch(l.control, i.loc.store));
    var rows := CurrentRows(l);
    MarkRows(l, i);
    assert k in rows ==> rows[k] == l.dirty[k];
    hide CurrentRows;
    TotalPut(rows, MarkerBytes, k, m);
    assert rows[k := m].Keys == rows.Keys + {k};
    TotalRemove(rows[k := m], MarkerBytes, k);
  }

  /** A baseline is demanded by a clear, a schema change, the deletion of the database, or a marker that does not fit; by
      nothing else, and a demand stays. A marker that fits is written. */
  lemma BaselineDemandedIff(l: Ledger, i: Input, lim: Limits)
    requires Conserved(l, lim)
    ensures Append(l, i, lim).control.baselineRequired
      <==> l.control.baselineRequired || i.operation in {Clear, Schema, DatabaseDelete} || !Fits(l, i, lim)
    ensures i.operation in {Upsert, Delete} && Fits(l, i, lim) ==>
      MarkedAt(Append(l, i, lim), i.loc, l.control.generation, i.operation == Upsert)
  {
    TouchRows(l, i, lim);
    OverflowsIff(Touch(l, i), i, lim);
    hide Conserved, Fits, Overflows, CurrentRows;
  }

  // ---------------------------------------------------------------- size rows

  function SizeKeyOf(c: Control, loc: Loc): SizeKey { SizeKey(loc.store, StoreEpoch(c, loc.store), loc.key) }

  /** The input changes the size row of the key, or leaves it behind in an earlier epoch. */
  predicate Resizes(i: Input, loc: Loc) {
    (i.operation in {Upsert, Delete} && i.loc == loc) || (i.operation == Clear && i.loc.store == loc.store)
  }

  lemma AppendSizes(l: Ledger, i: Input, lim: Limits, loc: Loc)
    ensures var (k, l') := (SizeKeyOf(l.control, loc), Append(l, i, lim));
      if !Resizes(i, loc) then
        SizeKeyOf(l'.control, loc) == k && (k in l'.sizes <==> k in l.sizes) && (k in l.sizes ==> l'.sizes[k] == l.sizes[k])
      else if i.operation != Clear then
        SizeKeyOf(l'.control, loc) == k && (k in l'.sizes <==> i.operation == Upsert && i.size.Some?)
        && (k in l'.sizes ==> l'.sizes[k] == Size(k.epoch, i.size.value, i.eligible))
      else SizeKeyOf(l'.control, loc).epoch == k.epoch + 1
  {
    hide Overflows;
  }

  /** The size row of a key is what its last upsert measured; there is none after a delete, or an upsert that measured
      nothing. */
  lemma {:induction false} SizeRowsFollow(l: Ledger, inputs: seq<Input>, lim: Limits, at: nat)
    requires at < |inputs| && inputs[at].operation in {Upsert, Delete}
    requires forall j :: at < j < |inputs| ==> !Resizes(inputs[j], inputs[at].loc)
    ensures var (i, l') := (inputs[at], AppendAll(l, inputs, lim));
      var k := SizeKeyOf(l'.control, i.loc);
      (k in l'.sizes <==> i.operation == Upsert && i.size.Some?)
      && (k in l'.sizes ==> l'.sizes[k] == Size(k.epoch, i.size.value, i.eligible))
    decreases |inputs|
  {
    hide Append, Resizes;
    var mid, rest := Append(l, inputs[0], lim), inputs[1..];
    if at > 0 {
      assert rest[at - 1] == inputs[at];
      SizeRowsFollow(mid, rest, lim, at - 1);
    } else {
      AppendSizes(l, inputs[0], lim, inputs[0].loc);
      assert Resizes(inputs[0], inputs[0].loc) by { NamesItself(inputs[0]); }
      SizesStay(mid, rest, lim, inputs[0].loc);
    }
  }

  lemma NamesItself(i: Input)
    requires i.operation in {Upsert, Delete}
    ensures Resizes(i, i.loc)
  {
  }

  lemma {:induction false} SizesStay(l: Ledger, inputs: seq<Input>, lim: Limits, loc: Loc)
    requires forall j :: 0 <= j < |inputs| ==> !Resizes(inputs[j], loc)
    ensures var (k, l') := (SizeKeyOf(l.control, loc), AppendAll(l, inputs, lim));
      SizeKeyOf(l'.control, loc) == k && (k in l'.sizes <==> k in l.sizes) && (k in l.sizes ==> l'.sizes[k] == l.sizes[k])
    decreases |inputs|
  {
    hide Append, Resizes;
    if inputs != [] {
      AppendSizes(l, inputs[0], lim, loc);
      SizesStay(Append(l, inputs[0], lim), inputs[1..], lim, loc);
    }
  }
}
