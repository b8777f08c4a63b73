/** Bounded collection of obsolete dirty metadata (collectLocalDirtyGarbage): resumable cursors over the
    marker rows and the size rows, restarted once whenever the goal moved during a pass. */
module DirtyGarbage {
  import opened Collections
  import opened DirtyLedger

  datatype Goal = Goal(trackingEpoch: nat, schemaEpoch: nat, acknowledged: nat, storeEpochs: map<StoreName, nat>, deleted: bool)

  datatype Progress = Progress(
    goal: Option<Goal>, dirtyAfter: Option<DirtyKey>, sizeAfter: Option<SizeKey>,
    dirtyDone: bool, sizeDone: bool, rescan: bool)

  const NoProgress := Progress(None, None, None, false, false, false)

  /** The outcome of sweeping one kind of row from a cursor under a row budget. */
  datatype Sweep<+K> = Sweep(ledger: Ledger, after: Option<K>, done: bool, visited: nat, removed: nat)

  datatype Collected = Collected(ledger: Ledger, progress: Progress, visited: nat, removed: nat, complete: bool)

  function GoalOf(c: Control): Goal {
    Goal(c.trackingEpoch, c.schemaEpoch, c.acknowledged, c.storeEpochs, c.deleted)
  }

  predicate LocBefore(a: Loc, b: Loc) {
    a.store < b.store || (a.store == b.store && a.key < b.key)
  }

  predicate DirtyBefore(a: DirtyKey, b: DirtyKey) {
    a.epoch < b.epoch || (a.epoch == b.epoch && (a.storeEpoch < b.storeEpoch || (a.storeEpoch == b.storeEpoch && LocBefore(a.loc, b.loc))))
  }

  predicate SizeBefore(a: SizeKey, b: SizeKey) {
    a.store < b.store || (a.store == b.store && (a.epoch < b.epoch || (a.epoch == b.epoch && a.key < b.key)))
  }

  predicate DirtyPast(after: Option<DirtyKey>, k: DirtyKey) {
    after.None? || DirtyBefore(after.value, k)
  }

  predicate SizePast(after: Option<SizeKey>, k: SizeKey) {
    after.None? || SizeBefore(after.value, k)
  }

  predicate ObsoleteMarker(c: Control, k: DirtyKey, m: Marker) {
    k.epoch < c.trackingEpoch || m.generation <= c.acknowledged
  }

  predicate ObsoleteSize(c: Control, k: SizeKey, idb: bool, existing: set<StoreName>) {
    c.deleted || k.epoch < StoreEpoch(c, k.store) || (idb && k.store !in existing)
  }

  lemma {:induction false} LeastDirty(s: set<DirtyKey>) returns (k: DirtyKey)
    requires s != {}
    ensures k in s && forall j :: j in s && j != k ==> DirtyBefore(k, j)
    decreases |s|
  {
    var x :| x in s;
    var rest := s - {x};
    k := x;
    if rest != {} {
      var m := LeastDirty(rest);
      if DirtyBefore(m, x) {
        k := m;
      }
      forall j | j in s && j != k ensures DirtyBefore(k, j) {
        assert j == x || j in rest;
      }
    }
  }

  lemma {:induction false} LeastSize(s: set<SizeKey>) returns (k: SizeKey)
    requires s != {}
    ensures k in s && forall j :: j in s && j != k ==> SizeBefore(k, j)
    decreases |s|
  {
    var x :| x in s;
    var rest := s - {x};
    k := x;
    if rest != {} {
      var m := LeastSize(rest);
      if SizeBefore(m, x) {
        k := m;
      }
      forall j | j in s && j != k ensures SizeBefore(k, j) {
        assert j == x || j in rest;
      }
    }
  }

  lemma LeastDirtyExists(s: set<DirtyKey>)
    requires s != {}
    ensures exists k :: k in s && forall j :: j in s && j != k ==> DirtyBefore(k, j)
  {
    var k := LeastDirty(s);
  }

  lemma LeastSizeExists(s: set<SizeKey>)
    requires s != {}
    ensures exists k :: k in s && forall j :: j in s && j != k ==> SizeBefore(k, j)
  {
    var k := LeastSize(s);
  }

  function DirtyRest(l: Ledger, after: Option<DirtyKey>): set<DirtyKey> {
    set k | k in l.dirty && DirtyPast(after, k)
  }

  function SizeRest(l: Ledger, after: Option<SizeKey>): set<SizeKey> {
    set k | k in l.sizes && SizePast(after, k)
  }

  /** Native cursors visit rows in key order. */
  function FirstDirty(s: set<DirtyKey>): (k: DirtyKey)
    requires s != {}
    ensures k in s && forall j :: j in s && j != k ==> DirtyBefore(k, j)
  {
    LeastDirtyExists(s);
    var k :| k in s && forall j :: j in s && j != k ==> DirtyBefore(k, j);
    k
  }

  function FirstSize(s: set<SizeKey>): (k: SizeKey)
    requires s != {}
    ensures k in s && forall j :: j in s && j != k ==> SizeBefore(k, j)
  {
    LeastSizeExists(s);
    var k :| k in s && forall j :: j in s && j != k ==> SizeBefore(k, j);
    k
  }

  function DropMarker(l: Ledger, k: DirtyKey): Ledger
    requires k in l.dirty
  {
    var m := l.dirty[k];
    var c := if k.epoch == l.control.trackingEpoch
             then l.control.(dirtyCount := AtLeastZero(l.control.dirtyCount - 1), dirtyBytes := AtLeastZero(l.control.dirtyBytes - m.bytes))
             else l.control;
    Ledger(c, l.dirty - {k}, l.generations - {GenKeyOf(k.epoch, m)}, l.sizes)
  }

  function VisitMarker(l: Ledger, k: DirtyKey): Ledger
    requires k in l.dirty
  {
    if ObsoleteMarker(l.control, k, l.dirty[k]) then DropMarker(l, k) else l
  }

  function VisitSize(l: Ledger, k: SizeKey, idb: bool, existing: set<StoreName>): Ledger {
    if ObsoleteSize(l.control, k, idb, existing) then l.(sizes := l.sizes - {k}) else l
  }

  function SweepDirty(l: Ledger, after: Option<DirtyKey>, budget: nat): Sweep<DirtyKey>
    decreases budget
  {
    var rest := DirtyRest(l, after);
    if rest == {} then Sweep(l, None, true, 0, 0)
    else if budget == 0 then Sweep(l, after, false, 0, 0)
    else
      var k := FirstDirty(rest);
      var s := SweepDirty(VisitMarker(l, k), Some(k), budget - 1);
      s.(visited := s.visited + 1, removed := s.removed + if ObsoleteMarker(l.control, k, l.dirty[k]) then 1 else 0)
  }

  function SweepSizes(l: Ledger, after: Option<SizeKey>, budget: nat, idb: bool, existing: set<StoreName>): Sweep<SizeKey>
    decreases budget
  {
    var rest := SizeRest(l, after);
    if rest == {} then Sweep(l, None, true, 0, 0)
    else if budget == 0 then Sweep(l, after, false, 0, 0)
    else
      var k := FirstSize(rest);
      var s := SweepSizes(VisitSize(l, k, idb, existing), Some(k), budget - 1, idb, existing);
      s.(visited := s.visited + 1, removed := s.removed + if ObsoleteSize(l.control, k, idb, existing) then 1 else 0)
  }

  /** Continues the saved pass, or aims it at the current goal and remembers that earlier rows need another look. */
  function Aim(c: Control, p: Progress): Progress {
    if p.goal == Some(GoalOf(c)) then p
    else p.(goal := Some(GoalOf(c)), rescan := p.goal.Some?, dirtyDone := false, sizeDone := false)
  }

  function DirtyBudget(maxRows: nat): nat { if maxRows / 2 < 1 then 1 else maxRows / 2 }

  function DirtyStage(l: Ledger, p: Progress, maxRows: nat): Sweep<DirtyKey> {
    if p.dirtyDone then Sweep(l, p.dirtyAfter, true, 0, 0) else SweepDirty(l, p.dirtyAfter, DirtyBudget(maxRows))
  }

  function SizeStage(l: Ledger, p: Progress, budget: nat, idb: bool, existing: set<StoreName>): Sweep<SizeKey> {
    if p.sizeDone then Sweep(l, p.sizeAfter, true, 0, 0) else SweepSizes(l, p.sizeAfter, budget, idb, existing)
  }

  function Forget(l: Ledger, existing: set<StoreName>): Ledger {
    l.(control := l.control.(storeEpochs := map s | s in l.control.storeEpochs && s in existing :: l.control.storeEpochs[s]))
  }

  /** One maintenance transaction. */
  function Collect(l: Ledger, saved: Progress, maxRows: nat, idb: bool, existing: set<StoreName>): Collected {
    var p := Aim(l.control, saved);
    var d := DirtyStage(l, p, maxRows);
    var s := SizeStage(d.ledger, p, AtLeastZero(maxRows - d.visited), idb, existing);
    var finished := d.done && s.done;
    var complete := finished && !p.rescan;
    Collected(
      if complete && idb then Forget(s.ledger, existing) else s.ledger,
      if finished && p.rescan then p.(dirtyDone := false, sizeDone := false, dirtyAfter := None, sizeAfter := None, rescan := false)
      else p.(dirtyDone := d.done, sizeDone := s.done, dirtyAfter := d.after, sizeAfter := s.after),
      d.visited + s.visited, d.removed + s.removed, complete)
  }

  // ---------------------------------------------------------------- a sweep removes only obsolete rows, in order

  /** `l'` is `l` without some obsolete rows; its counters and nothing else of the control row moved. */
  ghost predicate Thinned(l: Ledger, l': Ledger) {
    && l'.control == l.control.(dirtyCount := l'.control.dirtyCount, dirtyBytes := l'.control.dirtyBytes)
    && (forall k :: k in l'.dirty ==> k in l.dirty && l'.dirty[k] == l.dirty[k])
    && (forall k :: k in l.dirty && !ObsoleteMarker(l.control, k, l.dirty[k]) ==> k in l'.dirty)
  }

  lemma VisitMarkerThins(l: Ledger, k: DirtyKey)
    requires k in l.dirty
    ensures Thinned(l, VisitMarker(l, k)) && VisitMarker(l, k).sizes == l.sizes
    ensures |VisitMarker(l, k).dirty| + (if ObsoleteMarker(l.control, k, l.dirty[k]) then 1 else 0) == |l.dirty|
  {
    Shrinks(l.dirty, k);
  }

  lemma ThinnedTransitive(l: Ledger, l1: Ledger, l2: Ledger)
    requires Thinned(l, l1) && Thinned(l1, l2)
    ensures Thinned(l, l2)
  {
    forall k | k in l.dirty && !ObsoleteMarker(l.control, k, l.dirty[k]) ensures k in l2.dirty {
      assert k in l1.dirty && !ObsoleteMarker(l1.control, k, l1.dirty[k]);
    }
  }

  lemma {:induction false} SweepDirtyThins(l: Ledger, after: Option<DirtyKey>, budget: nat)
    ensures var s := SweepDirty(l, after, budget);
            Thinned(l, s.ledger) && s.ledger.sizes == l.sizes && |s.ledger.dirty| + s.removed == |l.dirty|
    decreases budget
  {
    var rest := DirtyRest(l, after);
    if rest != {} && budget > 0 {
      var k := FirstDirty(rest);
      var l1 := VisitMarker(l, k);
      VisitMarkerThins(l, k);
      SweepDirtyThins(l1, Some(k), budget - 1);
      ThinnedTransitive(l, l1, SweepDirty(l1, Some(k), budget - 1).ledger);
    }
  }

  lemma {:induction false} SweepDirtyCounts(l: Ledger, after: Option<DirtyKey>, budget: nat)
    ensures var s := SweepDirty(l, after, budget);
            && s.visited <= budget && (budget > 0 ==> s.done || s.visited > 0)
            && (s.done ==> s.after == None)
            && (!s.done ==> |DirtyRest(s.ledger, s.after)| + s.visited <= |DirtyRest(l, after)|)
    decreases budget
  {
    var rest := DirtyRest(l, after);
    if rest != {} && budget > 0 {
      var k := FirstDirty(rest);
      var l1 := VisitMarker(l, k);
      SweepDirtyCounts(l1, Some(k), budget - 1);
      assert DirtyRest(l1, Some(k)) <= rest - {k};
      SubsetSize(DirtyRest(l1, Some(k)), rest - {k});
    }
  }

  lemma {:induction false} SweepDirtyCleans(l: Ledger, after: Option<DirtyKey>, budget: nat)
    ensures var s := SweepDirty(l, after, budget);
            forall k :: k in s.ledger.dirty && k in l.dirty && DirtyPast(after, k) && (s.done || !DirtyPast(s.after, k)) ==>
              !ObsoleteMarker(l.control, k, l.dirty[k])
    decreases budget
  {
    var rest := DirtyRest(l, after);
    if rest == {} {
      forall k | k in l.dirty ensures !DirtyPast(after, k) {
        assert k !in rest;
      }
    } else if budget > 0 {
      var k := FirstDirty(rest);
      var l1 := VisitMarker(l, k);
      SweepDirtyThins(l1, Some(k), budget - 1);
      SweepDirtyCleans(l1, Some(k), budget - 1);
      var t := SweepDirty(l1, Some(k), budget - 1);
      forall j | j in t.ledger.dirty && j in l.dirty && DirtyPast(after, j) && (t.done || !DirtyPast(t.after, j))
        ensures !ObsoleteMarker(l.control, j, l.dirty[j])
      {
        assert j in l1.dirty && l1.dirty[j] == l.dirty[j];
        if j != k {
          assert j in rest && DirtyPast(Some(k), j);
        }
      }
    }
  }

  lemma VisitSizeThins(l: Ledger, k: SizeKey, idb: bool, existing: set<StoreName>)
    requires k in l.sizes
    ensures var v := VisitSize(l, k, idb, existing);
            v == l.(sizes := v.sizes) && v.sizes.Keys <= l.sizes.Keys
            && |v.sizes| + (if ObsoleteSize(l.control, k, idb, existing) then 1 else 0) == |l.sizes|
  {
    Shrinks(l.sizes, k);
  }

  lemma {:induction false} SweepSizesThins(l: Ledger, after: Option<SizeKey>, budget: nat, idb: bool, existing: set<StoreName>)
    ensures var s := SweepSizes(l, after, budget, idb, existing);
            s.ledger == l.(sizes := s.ledger.sizes) && s.ledger.sizes.Keys <= l.sizes.Keys
            && |s.ledger.sizes| + s.removed == |l.sizes|
    decreases budget
  {
    var rest := SizeRest(l, after);
    if rest != {} && budget > 0 {
      var k := FirstSize(rest);
      VisitSizeThins(l, k, idb, existing);
      SweepSizesThins(VisitSize(l, k, idb, existing), Some(k), budget - 1, idb, existing);
    }
  }

  lemma {:induction false} SweepSizesCounts(l: Ledger, after: Option<SizeKey>, budget: nat, idb: bool, existing: set<StoreName>)
    ensures var s := SweepSizes(l, after, budget, idb, existing);
            && s.visited <= budget && (budget > 0 ==> s.done || s.visited > 0)
            && (s.done ==> s.after == None)
            && (!s.done ==> |SizeRest(s.ledger, s.after)| + s.visited <= |SizeRest(l, after)|)
    decreases budget
  {
    var rest := SizeRest(l, after);
    if rest != {} && budget > 0 {
      var k := FirstSize(rest);
      var l1 := VisitSize(l, k, idb, existing);
      SweepSizesCounts(l1, Some(k), budget - 1, idb, existing);
      assert SizeRest(l1, Some(k)) <= rest - {k};
      SubsetSize(SizeRest(l1, Some(k)), rest - {k});
    }
  }

  lemma {:induction false} SweepSizesCleans(l: Ledger, after: Option<SizeKey>, budget: nat, idb: bool, existing: set<StoreName>)
    ensures var s := SweepSizes(l, after, budget, idb, existing);
            forall k :: k in s.ledger.sizes && SizePast(after, k) && (s.done || !SizePast(s.after, k)) ==>
              !ObsoleteSize(l.control, k, idb, existing)
    decreases budget
  {
    var rest := SizeRest(l, after);
    if rest == {} {
      forall k | k in l.sizes ensures !SizePast(after, k) {
        assert k !in rest;
      }
    } else if budget > 0 {
      var k := FirstSize(rest);
      var l1 := VisitSize(l, k, idb, existing);
      SweepSizesThins(l1, Some(k), budget - 1, idb, existing);
      SweepSizesCleans(l1, Some(k), budget - 1, idb, existing);
      var t := SweepSizes(l1, Some(k), budget - 1, idb, existing);
      forall j | j in t.ledger.sizes && SizePast(after, j) && (t.done || !SizePast(t.after, j))
        ensures !ObsoleteSize(l.control, j, idb, existing)
      {
        assert j in l1.sizes && j in l.sizes;
        if j != k {
          assert j in rest && SizePast(Some(k), j);
        }
      }
    }
  }

  /** Both stages of one call, described without their recursion. */
  lemma Stages(l: Ledger, p: Progress, maxRows: nat, idb: bool, existing: set<StoreName>)
    returns (d: Sweep<DirtyKey>, s: Sweep<SizeKey>)
    requires maxRows >= 1
    ensures d == DirtyStage(l, p, maxRows)
    ensures s == SizeStage(d.ledger, p, AtLeastZero(maxRows - d.visited), idb, existing)
    ensures Thinned(l, d.ledger) && d.ledger.sizes == l.sizes && d.visited <= DirtyBudget(maxRows) <= maxRows
    ensures |d.ledger.dirty| + d.removed == |l.dirty|
    ensures p.dirtyDone ==> d.ledger == l && d.done && d.visited == 0 && d.after == p.dirtyAfter
    ensures !p.dirtyDone ==>
              && (d.done ==> d.after == None)
              && (!d.done ==> |DirtyRest(d.ledger, d.after)| + d.visited <= |DirtyRest(l, p.dirtyAfter)| && d.visited > 0)
              && (forall k :: k in d.ledger.dirty && DirtyPast(p.dirtyAfter, k) && (d.done || !DirtyPast(d.after, k)) ==>
                    !ObsoleteMarker(l.control, k, l.dirty[k]))
    ensures s.ledger == d.ledger.(sizes := s.ledger.sizes) && s.ledger.sizes.Keys <= l.sizes.Keys
    ensures s.visited <= maxRows - d.visited && |s.ledger.sizes| + s.removed == |l.sizes|
    ensures p.sizeDone ==> s.ledger == d.ledger && s.done && s.visited == 0 && s.after == p.sizeAfter
    ensures !p.sizeDone ==>
              && (s.done ==> s.after == None)
              && (!s.done ==> |SizeRest(s.ledger, s.after)| + s.visited <= |SizeRest(l, p.sizeAfter)|)
              && (!s.done && d.visited == 0 ==> s.visited > 0)
              && (forall k :: k in s.ledger.sizes && SizePast(p.sizeAfter, k) && (s.done || !SizePast(s.after, k)) ==>
                    !ObsoleteSize(l.control, k, idb, existing))
  {
    hide SweepDirty, SweepSizes;
    d := DirtyStage(l, p, maxRows);
    s := SizeStage(d.ledger, p, AtLeastZero(maxRows - d.visited), idb, existing);
    var budget := AtLeastZero(maxRows - d.visited);
    SweepDirtyThins(l, p.dirtyAfter, DirtyBudget(maxRows));
    SweepDirtyCounts(l, p.dirtyAfter, DirtyBudget(maxRows));
    SweepDirtyCleans(l, p.dirtyAfter, DirtyBudget(maxRows));
    SweepSizesThins(d.ledger, p.sizeAfter, budget, idb, existing);
    SweepSizesCounts(d.ledger, p.sizeAfter, budget, idb, existing);
    SweepSizesCleans(d.ledger, p.sizeAfter, budget, idb, existing);
    assert SizeRest(d.ledger, p.sizeAfter) == SizeRest(l, p.sizeAfter);
    assert forall k :: StoreEpoch(d.ledger.control, k) == StoreEpoch(l.control, k);
  }

  /** Safety: a maintenance transaction never removes an unacknowledged marker of the current tracking epoch
      and adds no row. */
  lemma CollectThins(l: Ledger, p: Progress, maxRows: nat, idb: bool, existing: set<StoreName>)
    requires maxRows >= 1
    ensures var r := Collect(l, p, maxRows, idb, existing).ledger;
            && (forall k :: k in l.dirty && k.epoch >= l.control.trackingEpoch && l.dirty[k].generation > l.control.acknowledged ==>
                  k in r.dirty && r.dirty[k] == l.dirty[k])
            && (forall k :: k in r.dirty ==> k in l.dirty && r.dirty[k] == l.dirty[k])
            && r.sizes.Keys <= l.sizes.Keys
  {
    hide SweepDirty, SweepSizes;
    var d, s := Stages(l, Aim(l.control, p), maxRows, idb, existing);
  }

  lemma {:induction false} SweepSizesKeeps(l: Ledger, after: Option<SizeKey>, budget: nat, idb: bool, existing: set<StoreName>,
                                           k: SizeKey)
    requires k in l.sizes && !ObsoleteSize(l.control, k, idb, existing)
    ensures var r := SweepSizes(l, after, budget, idb, existing).ledger; k in r.sizes && r.sizes[k] == l.sizes[k]
    decreases budget
  {
    var rest := SizeRest(l, after);
    if rest != {} && budget > 0 {
      var first := FirstSize(rest);
      SweepSizesKeeps(VisitSize(l, first, idb, existing), Some(first), budget - 1, idb, existing, k);
    }
  }

  /** The size rows of existing stores, of their current epochs, stay as long as the database does. */
  lemma CollectKeepsSizes(l: Ledger, p: Progress, maxRows: nat, idb: bool, existing: set<StoreName>, k: SizeKey)
    requires maxRows >= 1 && k in l.sizes && !l.control.deleted && k.epoch >= StoreEpoch(l.control, k.store)
    requires idb ==> k.store in existing
    ensures var r := Collect(l, p, maxRows, idb, existing).ledger; k in r.sizes && r.sizes[k] == l.sizes[k]
  {
    hide SweepDirty, SweepSizes;
    var q := Aim(l.control, p);
    var d, s := Stages(l, q, maxRows, idb, existing);
    if !q.sizeDone { SweepSizesKeeps(d.ledger, q.sizeAfter, AtLeastZero(maxRows - d.visited), idb, existing, k); }
  }

  /** The row budget bounds the visit, `removed` counts exactly the rows that went, and the goal stays in place
      unless the pass finished. */
  lemma CollectCounts(l: Ledger, p: Progress, maxRows: nat, idb: bool, existing: set<StoreName>)
    requires maxRows >= 1
    ensures var r := Collect(l, p, maxRows, idb, existing);
            && r.visited <= maxRows
            && |r.ledger.dirty| + |r.ledger.sizes| + r.removed == |l.dirty| + |l.sizes|
            && (!r.complete ==> GoalOf(r.ledger.control) == GoalOf(l.control))
  {
    hide SweepDirty, SweepSizes;
    var d, s := Stages(l, Aim(l.control, p), maxRows, idb, existing);
  }

  // ---------------------------------------------------------------- the ledger invariants survive collection

  lemma DropMarkerConserves(l: Ledger, k: DirtyKey, lim: Limits)
    requires Conserved(l, lim) && k in l.dirty
    ensures Conserved(DropMarker(l, k), lim)
  {
    var l' := DropMarker(l, k);
    if k.epoch == l.control.trackingEpoch {
      assert CurrentRows(l') == CurrentRows(l) - {k};
      TotalRemove(CurrentRows(l), MarkerBytes, k);
      Shrinks(CurrentRows(l), k);
    } else {
      assert CurrentRows(l') == CurrentRows(l);
    }
  }

  lemma DropMarkerIssued(l: Ledger, k: DirtyKey, names: set<StoreName>)
    requires Issued(l, names) && k in l.dirty
    ensures Issued(DropMarker(l, k), names)
  {
  }

  lemma DropMarkerKeeps(l: Ledger, k: DirtyKey, names: set<StoreName>, lim: Limits)
    requires LedgerInv(l, names, lim) && k in l.dirty
    ensures LedgerInv(DropMarker(l, k), names, lim)
  {
    DropMarkerConserves(l, k, lim);
    DropMarkerIssued(l, k, names);
    DropMarkerPairs(l, k);
  }

  lemma DropMarkerPairs(l: Ledger, k: DirtyKey)
    requires Paired(l) && k in l.dirty
    ensures Paired(DropMarker(l, k))
  {
    var l' := DropMarker(l, k);
    forall h | h in l'.generations
      ensures DirtyKey(h.epoch, h.storeEpoch, h.loc) in l'.dirty
      ensures l'.dirty[DirtyKey(h.epoch, h.storeEpoch, h.loc)].generation == h.generation
    {
      assert h in l.generations;
      assert DirtyKey(h.epoch, h.storeEpoch, h.loc) in l.dirty;
    }
  }

  lemma DropMarkerCovers(l: Ledger, k: DirtyKey, last: map<Loc, nat>, present: set<Loc>, floor: nat)
    requires Covered(l, last, present, floor) && k in l.dirty && ObsoleteMarker(l.control, k, l.dirty[k])
    ensures Covered(DropMarker(l, k), last, present, floor)
  {
    forall loc | LastChange(last, loc) > floor && LastChange(last, loc) > l.control.acknowledged
      ensures MarkedAt(DropMarker(l, k), loc, LastChange(last, loc), loc in present)
    {
      assert MarkedAt(l, loc, LastChange(last, loc), loc in present);
    }
  }

  lemma {:induction false} SweepDirtyKeepsLedger(l: Ledger, after: Option<DirtyKey>, budget: nat, names: set<StoreName>, lim: Limits)
    requires LedgerInv(l, names, lim)
    ensures LedgerInv(SweepDirty(l, after, budget).ledger, names, lim)
    decreases budget
  {
    hide LedgerInv;
    var rest := DirtyRest(l, after);
    if rest != {} && budget > 0 {
      var k := FirstDirty(rest);
      if ObsoleteMarker(l.control, k, l.dirty[k]) {
        DropMarkerKeeps(l, k, names, lim);
      }
      SweepDirtyKeepsLedger(VisitMarker(l, k), Some(k), budget - 1, names, lim);
    }
  }

  lemma {:induction false} SweepDirtyKeepsCoverage(
    l: Ledger, after: Option<DirtyKey>, budget: nat, last: map<Loc, nat>, present: set<Loc>, floor: nat)
    requires Covered(l, last, present, floor)
    ensures Covered(SweepDirty(l, after, budget).ledger, last, present, floor)
    decreases budget
  {
    hide Covered;
    var rest := DirtyRest(l, after);
    if rest != {} && budget > 0 {
      var k := FirstDirty(rest);
      if ObsoleteMarker(l.control, k, l.dirty[k]) {
        DropMarkerCovers(l, k, last, present, floor);
      }
      SweepDirtyKeepsCoverage(VisitMarker(l, k), Some(k), budget - 1, last, present, floor);
    }
  }

  lemma SizesDoNotMatter(l: Ledger, sizes: map<SizeKey, Size>, last: map<Loc, nat>, present: set<Loc>, floor: nat)
    requires Covered(l, last, present, floor)
    ensures Covered(l.(sizes := sizes), last, present, floor)
  {
    forall loc | LastChange(last, loc) > floor && LastChange(last, loc) > l.control.acknowledged
      ensures MarkedAt(l.(sizes := sizes), loc, LastChange(last, loc), loc in present)
    {
      assert MarkedAt(l, loc, LastChange(last, loc), loc in present);
    }
  }

  lemma ForgetKeepsLedger(l: Ledger, names: set<StoreName>, lim: Limits)
    requires LedgerInv(l, names, lim)
    ensures LedgerInv(Forget(l, names), names, lim)
  {
    assert CurrentRows(Forget(l, names)) == CurrentRows(l);
  }

  lemma ForgetKeepsCoverage(l: Ledger, names: set<StoreName>, last: map<Loc, nat>, present: set<Loc>, floor: nat)
    requires Issued(l, names) && Covered(l, last, present, floor)
    ensures Covered(Forget(l, names), last, present, floor)
  {
    forall loc | LastChange(last, loc) > floor && LastChange(last, loc) > l.control.acknowledged
      ensures MarkedAt(Forget(l, names), loc, LastChange(last, loc), loc in present)
    {
      assert MarkedAt(l, loc, LastChange(last, loc), loc in present);
      assert DirtyKeyOf(l.control, loc).loc.store in names;
    }
  }

  lemma SizesKeepLedger(l: Ledger, sizes: map<SizeKey, Size>, names: set<StoreName>, lim: Limits)
    requires LedgerInv(l, names, lim)
    ensures LedgerInv(l.(sizes := sizes), names, lim)
  {
    assert CurrentRows(l.(sizes := sizes)) == CurrentRows(l);
  }

  /** The ledger one call leaves is the dirty stage's, with other size rows and perhaps fewer store epochs. */
  lemma CollectShape(l: Ledger, p: Progress, maxRows: nat, idb: bool, names: set<StoreName>) returns (d: Ledger, sizes: map<SizeKey, Size>)
    requires maxRows >= 1
    ensures var p1 := Aim(l.control, p);
            d == (if p1.dirtyDone then l else SweepDirty(l, p1.dirtyAfter, DirtyBudget(maxRows)).ledger)
    ensures var r := Collect(l, p, maxRows, idb, names).ledger;
            r == d.(sizes := sizes) || r == Forget(d.(sizes := sizes), names)
  {
    hide SweepDirty, SweepSizes;
    var sd, ss := Stages(l, Aim(l.control, p), maxRows, idb, names);
    d, sizes := sd.ledger, ss.ledger.sizes;
  }

  /** Collection keeps the rows paired and the counters exact. */
  lemma CollectKeepsLedger(l: Ledger, p: Progress, maxRows: nat, idb: bool, names: set<StoreName>, lim: Limits)
    requires maxRows >= 1 && LedgerInv(l, names, lim)
    ensures LedgerInv(Collect(l, p, maxRows, idb, names).ledger, names, lim)
  {
    hide SweepDirty, SweepSizes, LedgerInv;
    var d, sizes := CollectShape(l, p, maxRows, idb, names);
    SweepDirtyKeepsLedger(l, Aim(l.control, p).dirtyAfter, DirtyBudget(maxRows), names, lim);
    SizesKeepLedger(d, sizes, names, lim);
    ForgetKeepsLedger(d.(sizes := sizes), names, lim);
  }

  /** Collection keeps every unacknowledged change covered. */
  lemma CollectKeepsCoverage(
    l: Ledger, p: Progress, maxRows: nat, idb: bool, names: set<StoreName>, lim: Limits,
    last: map<Loc, nat>, present: set<Loc>, floor: nat)
    requires maxRows >= 1 && LedgerInv(l, names, lim) && Covered(l, last, present, floor)
    ensures Covered(Collect(l, p, maxRows, idb, names).ledger, last, present, floor)
  {
    hide SweepDirty, SweepSizes, Covered;
    var d, sizes := CollectShape(l, p, maxRows, idb, names);
    SweepDirtyKeepsLedger(l, Aim(l.control, p).dirtyAfter, DirtyBudget(maxRows), names, lim);
    SweepDirtyKeepsCoverage(l, Aim(l.control, p).dirtyAfter, DirtyBudget(maxRows), last, present, floor);
    SizesDoNotMatter(d, sizes, last, present, floor);
    SizesKeepLedger(d, sizes, names, lim);
    ForgetKeepsCoverage(d.(sizes := sizes), names, last, present, floor);
  }

  // ---------------------------------------------------------------- completeness

  function EpochIn(g: Goal, s: StoreName): nat {
    if s in g.storeEpochs then g.storeEpochs[s] else 1
  }

  predicate DirtyVisited(p: Progress, k: DirtyKey) {
    p.dirtyDone || (p.dirtyAfter.Some? && !DirtyPast(p.dirtyAfter, k))
  }

  predicate SizeVisited(p: Progress, k: SizeKey) {
    p.sizeDone || (p.sizeAfter.Some? && !SizePast(p.sizeAfter, k))
  }

  ghost predicate EpochsKept(c: Control, g: Goal, idb: bool, existing: set<StoreName>) {
    forall s :: s in existing || !idb ==> StoreEpoch(c, s) >= EpochIn(g, s)
  }

  /** What a pass may rely on: outside a rescan, no visited row is obsolete under the pass's goal. Size rows are
      claimed only while neither the tracking epoch nor a deleted database moved on. */
  ghost predicate Swept(l: Ledger, p: Progress, idb: bool, existing: set<StoreName>) {
    && (p.goal.None? ==> p.dirtyAfter.None? && p.sizeAfter.None? && !p.dirtyDone && !p.sizeDone)
    && (p.goal.Some? && !p.rescan ==>
          var g := p.goal.value;
          && g.trackingEpoch <= l.control.trackingEpoch && g.acknowledged <= l.control.acknowledged
          && (forall k :: k in l.dirty && DirtyVisited(p, k) ==>
                k.epoch >= g.trackingEpoch && l.dirty[k].generation > g.acknowledged)
          && (g.trackingEpoch == l.control.trackingEpoch && (g.deleted ==> l.control.deleted) ==>
                && EpochsKept(l.control, g, idb, existing)
                && (forall k :: k in l.sizes && SizeVisited(p, k) ==>
                      !g.deleted && k.epoch >= EpochIn(g, k.store) && (idb ==> k.store in existing))))
  }

  lemma AppendKeepsSwept(l: Ledger, i: Input, lim: Limits, p: Progress, idb: bool, names: set<StoreName>, names': set<StoreName>)
    requires Swept(l, p, idb, names) && l.control.acknowledged < l.control.generation
    requires i.operation in {Upsert, Delete} ==> i.loc.store in names
    requires i.operation == Schema || names' == names
    ensures Swept(Append(l, i, lim), p, idb, names')
  {
  }

  lemma AcknowledgeKeepsSwept(l: Ledger, cut: nat, epoch: nat, p: Progress, idb: bool, names: set<StoreName>)
    requires Swept(l, p, idb, names)
    ensures Swept(Acknowledge(l, cut, epoch), p, idb, names)
  {
  }

  /** Under its own goal a pass may claim the plain criteria. */
  ghost predicate SweptHere(l: Ledger, p: Progress, idb: bool, existing: set<StoreName>) {
    && p.goal == Some(GoalOf(l.control))
    && (!p.rescan ==>
          && (forall k :: k in l.dirty && DirtyVisited(p, k) ==> !ObsoleteMarker(l.control, k, l.dirty[k]))
          && (forall k :: k in l.sizes && SizeVisited(p, k) ==> !ObsoleteSize(l.control, k, idb, existing)))
  }

  lemma AimSweeps(l: Ledger, p: Progress, idb: bool, names: set<StoreName>)
    requires Swept(l, p, idb, names)
    ensures SweptHere(l, Aim(l.control, p), idb, names)
  {
  }

  lemma SweptHereSuffices(l: Ledger, p: Progress, idb: bool, names: set<StoreName>)
    requires SweptHere(l, p, idb, names)
    ensures Swept(l, p, idb, names)
    ensures idb ==> Swept(Forget(l, names), p, idb, names)
  {
  }

  lemma StagesSweep(l: Ledger, p: Progress, maxRows: nat, idb: bool, names: set<StoreName>)
    requires maxRows >= 1 && SweptHere(l, p, idb, names)
    ensures var d := DirtyStage(l, p, maxRows);
            var s := SizeStage(d.ledger, p, AtLeastZero(maxRows - d.visited), idb, names);
            SweptHere(s.ledger, p.(dirtyDone := d.done, sizeDone := s.done, dirtyAfter := d.after, sizeAfter := s.after), idb, names)
  {
    hide SweepDirty, SweepSizes;
    var d, s := Stages(l, p, maxRows, idb, names);
    var q := p.(dirtyDone := d.done, sizeDone := s.done, dirtyAfter := d.after, sizeAfter := s.after);
    assert forall k :: StoreEpoch(s.ledger.control, k) == StoreEpoch(l.control, k);
    if !p.rescan {
      forall k | k in s.ledger.dirty && DirtyVisited(q, k)
        ensures !ObsoleteMarker(s.ledger.control, k, s.ledger.dirty[k])
      {
        if !DirtyVisited(p, k) {
          assert DirtyPast(p.dirtyAfter, k) && !p.dirtyDone;
        }
      }
      forall k | k in s.ledger.sizes && SizeVisited(q, k)
        ensures !ObsoleteSize(s.ledger.control, k, idb, names)
      {
        if !SizeVisited(p, k) {
          assert SizePast(p.sizeAfter, k) && !p.sizeDone;
        }
      }
    }
  }

  lemma CollectKeepsSwept(l: Ledger, p: Progress, maxRows: nat, idb: bool, names: set<StoreName>)
    requires maxRows >= 1 && Swept(l, p, idb, names)
    ensures var r := Collect(l, p, maxRows, idb, names); Swept(r.ledger, r.progress, idb, names)
  {
    hide SweepDirty, SweepSizes;
    AimSweeps(l, p, idb, names);
    var p1 := Aim(l.control, p);
    StagesSweep(l, p1, maxRows, idb, names);
    var d := DirtyStage(l, p1, maxRows);
    var s := SizeStage(d.ledger, p1, AtLeastZero(maxRows - d.visited), idb, names);
    var q := p1.(dirtyDone := d.done, sizeDone := s.done, dirtyAfter := d.after, sizeAfter := s.after);
    SweptHereSuffices(s.ledger, q, idb, names);
    if d.done && s.done && p1.rescan {
      SweptHereSuffices(s.ledger, Collect(l, p, maxRows, idb, names).progress, idb, names);
    }
  }

  /** A completed pass leaves no marker and no size row that is obsolete under the pass's goal. */
  lemma CompletedPassIsClean(l: Ledger, p: Progress, maxRows: nat, idb: bool, names: set<StoreName>)
    requires maxRows >= 1 && Swept(l, p, idb, names)
    requires Collect(l, p, maxRows, idb, names).complete
    ensures var r := Collect(l, p, maxRows, idb, names).ledger;
            && (forall k :: k in r.dirty ==> !ObsoleteMarker(l.control, k, r.dirty[k]))
            && (forall k :: k in r.sizes ==> !ObsoleteSize(l.control, k, idb, names))
  {
    hide SweepDirty, SweepSizes;
    AimSweeps(l, p, idb, names);
    var p1 := Aim(l.control, p);
    StagesSweep(l, p1, maxRows, idb, names);
    var d, s := Stages(l, p1, maxRows, idb, names);
    assert forall k :: StoreEpoch(s.ledger.control, k) == StoreEpoch(l.control, k);
  }

  /** The work left: unvisited rows of both stages, plus a whole further pass while a rescan is owed. */
  function Work(l: Ledger, p: Progress): nat {
    (if p.rescan then |l.dirty| + |l.sizes| + 3 else 0)
    + (if p.dirtyDone then 0 else 1 + |DirtyRest(l, p.dirtyAfter)|)
    + (if p.sizeDone then 0 else 1 + |SizeRest(l, p.sizeAfter)|)
  }

  lemma WholeRest(l: Ledger)
    ensures |DirtyRest(l, None)| == |l.dirty| && |SizeRest(l, None)| == |l.sizes|
  {
    assert DirtyRest(l, None) == l.dirty.Keys;
    assert SizeRest(l, None) == l.sizes.Keys;
  }

  /** Termination: with the control row unchanged, every call that is not the last leaves less work. */
  lemma CollectProgresses(l: Ledger, p: Progress, maxRows: nat, idb: bool, names: set<StoreName>)
    requires maxRows >= 1 && p.goal == Some(GoalOf(l.control))
    requires !(p.dirtyDone && p.sizeDone)
    ensures var r := Collect(l, p, maxRows, idb, names);
            r.complete || (Work(r.ledger, r.progress) < Work(l, p) && r.progress.goal == Some(GoalOf(r.ledger.control))
                           && !(r.progress.dirtyDone && r.progress.sizeDone))
  {
    hide SweepDirty, SweepSizes, ObsoleteMarker, ObsoleteSize;
    var d, s := Stages(l, p, maxRows, idb, names);
    WholeRest(s.ledger);
    assert DirtyRest(s.ledger, d.after) == DirtyRest(d.ledger, d.after);
  }

  /** Rows and progress after so many maintenance transactions with nothing in between. */
  function Repeated(l: Ledger, p: Progress, maxRows: nat, idb: bool, names: set<StoreName>, calls: nat)
    : (Ledger, Progress)
    decreases calls
  {
    if calls == 0 then (l, p)
    else
      var r := Collect(l, p, maxRows, idb, names);
      Repeated(r.ledger, r.progress, maxRows, idb, names, calls - 1)
  }

  /** The next maintenance transaction completes the pass, and leaves nothing obsolete under the control row `c`. */
  ghost predicate CleansNext(at: (Ledger, Progress), maxRows: nat, idb: bool, names: set<StoreName>, c: Control) {
    var r := Collect(at.0, at.1, maxRows, idb, names);
    r.complete && (forall k :: k in r.ledger.dirty ==> !ObsoleteMarker(c, k, r.ledger.dirty[k]))
    && forall k :: k in r.ledger.sizes ==> !ObsoleteSize(c, k, idb, names)
  }

  lemma RepeatedMore(l: Ledger, p: Progress, maxRows: nat, idb: bool, names: set<StoreName>, more: nat)
    ensures Repeated(l, p, maxRows, idb, names, 0) == (l, p)
    ensures var r := Collect(l, p, maxRows, idb, names);
      Repeated(l, p, maxRows, idb, names, more + 1) == Repeated(r.ledger, r.progress, maxRows, idb, names, more)
  {
    hide Collect;
  }

  lemma CleansAtOnce(l: Ledger, p: Progress, maxRows: nat, idb: bool, names: set<StoreName>)
    requires maxRows >= 1 && Swept(l, p, idb, names) && Collect(l, p, maxRows, idb, names).complete
    ensures CleansNext((l, p), maxRows, idb, names, l.control)
  {
    hide Collect, Swept, ObsoleteMarker, ObsoleteSize;
    CompletedPassIsClean(l, p, maxRows, idb, names);
  }

  /** Once the pass is under way, repeating the maintenance transaction alone completes it within the work left. */
  lemma {:induction false} RepeatedCollectionCompletes(l: Ledger, p: Progress, maxRows: nat, idb: bool, names: set<StoreName>)
    returns (calls: nat)
    requires maxRows >= 1 && Swept(l, p, idb, names)
    requires p.goal == Some(GoalOf(l.control)) && !(p.dirtyDone && p.sizeDone)
    ensures calls <= Work(l, p) && CleansNext(Repeated(l, p, maxRows, idb, names, calls), maxRows, idb, names, l.control)
    decreases Work(l, p)
  {
    hide *;
    var r := Collect(l, p, maxRows, idb, names);
    CollectProgresses(l, p, maxRows, idb, names);
    if r.complete {
      CleansAtOnce(l, p, maxRows, idb, names);
      RepeatedMore(l, p, maxRows, idb, names, 0);
      calls := 0;
    } else {
      CollectKeepsSwept(l, p, maxRows, idb, names);
      CollectCounts(l, p, maxRows, idb, names);
      var more := RepeatedCollectionCompletes(r.ledger, r.progress, maxRows, idb, names);
      SameObsolete(r.ledger.control, l.control, Repeated(r.ledger, r.progress, maxRows, idb, names, more), maxRows, idb, names);
      RepeatedMore(l, p, maxRows, idb, names, more);
      calls := more + 1;
    }
  }

  /** What is obsolete depends on the goal only. */
  lemma SameObsolete(c: Control, c': Control, at: (Ledger, Progress), maxRows: nat, idb: bool, names: set<StoreName>)
    requires GoalOf(c) == GoalOf(c') && CleansNext(at, maxRows, idb, names, c)
    ensures CleansNext(at, maxRows, idb, names, c')
  {
    hide Collect;
  }

  /** Whatever pass was under way before, repeating the maintenance transaction alone completes one that is clean. */
  lemma MaintenanceCompletes(l: Ledger, p: Progress, maxRows: nat, idb: bool, names: set<StoreName>) returns (calls: nat)
    requires maxRows >= 1 && Swept(l, p, idb, names)
    ensures CleansNext(Repeated(l, p, maxRows, idb, names, calls), maxRows, idb, names, l.control)
  {
    hide *;
    var r := Collect(l, p, maxRows, idb, names);
    if r.complete {
      CleansAtOnce(l, p, maxRows, idb, names);
      RepeatedMore(l, p, maxRows, idb, names, 0);
      calls := 0;
    } else {
      CollectKeepsSwept(l, p, maxRows, idb, names);
      CollectCounts(l, p, maxRows, idb, names);
      UnderWay(l, p, maxRows, idb, names);
      var more := RepeatedCollectionCompletes(r.ledger, r.progress, maxRows, idb, names);
      SameObsolete(r.ledger.control, l.control, Repeated(r.ledger, r.progress, maxRows, idb, names, more), maxRows, idb, names);
      RepeatedMore(l, p, maxRows, idb, names, more);
      calls := more + 1;
    }
  }

  lemma UnderWay(l: Ledger, p: Progress, maxRows: nat, idb: bool, names: set<StoreName>)
    requires maxRows >= 1 && !Collect(l, p, maxRows, idb, names).complete
    ensures var r := Collect(l, p, maxRows, idb, names);
      r.progress.goal == Some(GoalOf(r.ledger.control)) && !(r.progress.dirtyDone && r.progress.sizeDone)
  {
    CollectCounts(l, p, maxRows, idb, names);
    hide SweepDirty, SweepSizes;
  }
}
