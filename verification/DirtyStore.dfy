/** The mutable metadata store: the pump, acknowledgement and collection of runtime/local-dirty-v2.ts as they
    update their rows in place, each tied to its specification over whole ledgers. */
module DirtyStore {
  import opened Collections
  import opened DirtyLedger
  import opened DirtyGarbage

  class LocalDirtyStore {
    var control: Control
    var dirty: map<DirtyKey, Marker>
    var generations: map<GenKey, Marker>
    var sizes: map<SizeKey, Size>
    var saved: Progress

    function State(): Ledger
      reads this
    {
      Ledger(control, dirty, generations, sizes)
    }

    constructor (incarnation: nat)
      ensures State() == EmptyLedger(incarnation) && saved == NoProgress
    {
      control := EmptyControl(incarnation);
      dirty, generations, sizes := map[], map[], map[];
      saved := NoProgress;
    }

    /** The first append of a transaction allocates its generation, or aborts when none is left. */
    method BeginTransaction() returns (ok: bool)
      modifies this
      ensures saved == old(saved)
      ensures ok == (old(control).generation < MAX_SAFE_INTEGER)
      ensures State() == if ok then Begin(old(State())) else old(State())
    {
      ok := control.generation < MAX_SAFE_INTEGER;
      if ok {
        control := control.(generation := control.generation + 1);
      }
    }

    method GiveUpMarkers()
      modifies this`control
      ensures control == Baseline(old(control))
    {
      control := control.(baselineRequired := true);
      control := control.(trackingEpoch := control.trackingEpoch + 1);
      control := control.(dirtyCount := 0);
      control := control.(dirtyBytes := 0);
    }

    /** Pumps the pending inputs of one transaction, first come first served. */
    method AppendLocalDirty(inputs: seq<Input>, limits: Limits)
      modifies this
      ensures State() == AppendAll(old(State()), inputs, limits) && saved == old(saved)
    {
      var pending := inputs;
      while pending != []
        invariant AppendAll(State(), pending, limits) == AppendAll(old(State()), inputs, limits)
        invariant saved == old(saved)
        decreases |pending|
      {
        var item := pending[0];
        pending := pending[1..];
        if item.operation == Schema {
          control := control.(schemaEpoch := control.schemaEpoch + 1);
          GiveUpMarkers();
        } else if item.operation == Clear {
          control := control.(storeEpochs := control.storeEpochs[item.loc.store := StoreEpoch(control, item.loc.store) + 1]);
          GiveUpMarkers();
        } else if item.operation == DatabaseDelete {
          control := control.(deleted := true);
          GiveUpMarkers();
        } else {
          PumpRecord(item, limits);
        }
      }
    }

    method PumpRecord(item: Input, limits: Limits)
      requires item.operation in {Upsert, Delete}
      modifies this
      ensures State() == Append(old(State()), item, limits) && saved == old(saved)
    {
      var epoch := StoreEpoch(control, item.loc.store);
      control := control.(deleted := false, storeEpochs := control.storeEpochs[item.loc.store := epoch]);
      var sizeKey := SizeKey(item.loc.store, epoch, item.loc.key);
      if item.operation == Delete {
        sizes := sizes - {sizeKey};
      } else if item.size.Some? {
        sizes := sizes[sizeKey := Size(epoch, item.size.value, item.eligible)];
      } else {
        sizes := sizes - {sizeKey};
      }
      assert State() == Touch(old(State()), item);
      if item.charge > limits.maxBytes {
        GiveUpMarkers();
        return;
      }
      var key := DirtyKeyOf(control, item.loc);
      var known := key in dirty;
      var nextBytes := control.dirtyBytes - (if known then dirty[key].bytes else 0) + item.charge;
      var nextCount := control.dirtyCount + (if known then 0 else 1);
      if nextBytes > limits.maxBytes || nextCount > limits.maxKeys {
        GiveUpMarkers();
        return;
      }
      if known {
        generations := generations - {GenKeyOf(key.epoch, dirty[key])};
      }
      var marker := MarkerOf(control, item, epoch);
      dirty := dirty[key := marker];
      generations := generations[GenKeyOf(key.epoch, marker) := marker];
      control := control.(dirtyBytes := nextBytes, dirtyCount := nextCount);
    }

    method AcknowledgeLocalDirty(cut: nat, expectedTrackingEpoch: nat) returns (adopted: bool)
      modifies this`control
      ensures adopted == (cut <= old(control).generation)
      ensures State() == Acknowledge(old(State()), cut, expectedTrackingEpoch)
    {
      if cut > control.generation {
        return false;
      }
      if cut > control.acknowledged {
        control := control.(acknowledged := cut);
      }
      if control.trackingEpoch == expectedTrackingEpoch && cut == control.generation {
        control := control.(baselineRequired := false);
      }
      adopted := true;
    }

    method SweepMarkers(after: Option<DirtyKey>, budget: nat) returns (cursor: Option<DirtyKey>, done: bool, visited: nat, removed: nat)
      modifies this
      ensures saved == old(saved)
      ensures Sweep(State(), cursor, done, visited, removed) == SweepDirty(old(State()), after, budget)
    {
      cursor, visited, removed := after, 0, 0;
      ghost var whole := SweepDirty(State(), after, budget);
      while true
        invariant visited <= budget && saved == old(saved)
        invariant var s := SweepDirty(State(), cursor, budget - visited);
                  s.(visited := s.visited + visited, removed := s.removed + removed) == whole
        decreases budget - visited
      {
        var rest := DirtyRest(State(), cursor);
        if rest == {} {
          return None, true, visited, removed;
        }
        if visited >= budget {
          return cursor, false, visited, removed;
        }
        var key := FirstDirty(rest);
        var marker := dirty[key];
        visited := visited + 1;
        cursor := Some(key);
        if key.epoch < control.trackingEpoch || marker.generation <= control.acknowledged {
          dirty := dirty - {key};
          removed := removed + 1;
          generations := generations - {GenKeyOf(key.epoch, marker)};
          if key.epoch == control.trackingEpoch {
            control := control.(dirtyCount := AtLeastZero(control.dirtyCount - 1), dirtyBytes := AtLeastZero(control.dirtyBytes - marker.bytes));
          }
        }
      }
    }

    method SweepSizeRows(after: Option<SizeKey>, budget: nat, idb: bool, existing: set<StoreName>)
      returns (cursor: Option<SizeKey>, done: bool, visited: nat, removed: nat)
      modifies this
      ensures saved == old(saved)
      ensures Sweep(State(), cursor, done, visited, removed) == SweepSizes(old(State()), after, budget, idb, existing)
    {
      cursor, visited, removed := after, 0, 0;
      ghost var whole := SweepSizes(State(), after, budget, idb, existing);
      while true
        invariant visited <= budget && saved == old(saved)
        invariant var s := SweepSizes(State(), cursor, budget - visited, idb, existing);
                  s.(visited := s.visited + visited, removed := s.removed + removed) == whole
        decreases budget - visited
      {
        var rest := SizeRest(State(), cursor);
        if rest == {} {
          return None, true, visited, removed;
        }
        if visited >= budget {
          return cursor, false, visited, removed;
        }
        var key := FirstSize(rest);
        visited := visited + 1;
        cursor := Some(key);
        if control.deleted || key.epoch < StoreEpoch(control, key.store) || (idb && key.store !in existing) {
          sizes := sizes - {key};
          removed := removed + 1;
        }
      }
    }

    method RunMarkerStage(maxRows: nat) returns (cursor: Option<DirtyKey>, done: bool, visited: nat, removed: nat)
      modifies this
      ensures saved == old(saved)
      ensures Sweep(State(), cursor, done, visited, removed) == DirtyStage(old(State()), old(saved), maxRows)
    {
      if saved.dirtyDone {
        return saved.dirtyAfter, true, 0, 0;
      }
      cursor, done, visited, removed := SweepMarkers(saved.dirtyAfter, DirtyBudget(maxRows));
    }

    method RunSizeStage(budget: nat, idb: bool, existing: set<StoreName>)
      returns (cursor: Option<SizeKey>, done: bool, visited: nat, removed: nat)
      modifies this
      ensures saved == old(saved)
      ensures Sweep(State(), cursor, done, visited, removed) == SizeStage(old(State()), old(saved), budget, idb, existing)
    {
      if saved.sizeDone {
        return saved.sizeAfter, true, 0, 0;
      }
      cursor, done, visited, removed := SweepSizeRows(saved.sizeAfter, budget, idb, existing);
    }

    /** One maintenance transaction of at most maxRows rows. */
    method CollectLocalDirtyGarbage(maxRows: nat, idb: bool, existing: set<StoreName>)
      returns (visited: nat, removed: nat, complete: bool)
      requires 1 <= maxRows <= 64
      modifies this
      ensures Collected(State(), saved, visited, removed, complete) == Collect(old(State()), old(saved), maxRows, idb, existing)
    {
      var goal := GoalOf(control);
      if saved.goal != Some(goal) {
        saved := saved.(goal := Some(goal), rescan := saved.goal.Some?, dirtyDone := false, sizeDone := false);
      }
      assert saved == Aim(old(control), old(saved));
      ghost var p := saved;
      var dirtyAfter, dirtyDone;
      dirtyAfter, dirtyDone, visited, removed := RunMarkerStage(maxRows);
      ghost var d := Sweep(State(), dirtyAfter, dirtyDone, visited, removed);
      var sizeAfter, sizeDone, sizesVisited, sizesRemoved := RunSizeStage(AtLeastZero(maxRows - visited), idb, existing);
      ghost var s := Sweep(State(), sizeAfter, sizeDone, sizesVisited, sizesRemoved);
      assert d == DirtyStage(old(State()), p, maxRows);
      assert s == SizeStage(d.ledger, p, AtLeastZero(maxRows - d.visited), idb, existing);
      visited, removed := visited + sizesVisited, removed + sizesRemoved;
      complete := dirtyDone && sizeDone;
      if complete && saved.rescan {
        saved := saved.(dirtyDone := false, sizeDone := false, dirtyAfter := None, sizeAfter := None, rescan := false);
        complete := false;
      } else {
        saved := saved.(dirtyDone := dirtyDone, sizeDone := sizeDone, dirtyAfter := dirtyAfter, sizeAfter := sizeAfter);
      }
      if complete && idb {
        control := control.(storeEpochs := map s | s in control.storeEpochs && s in existing :: control.storeEpochs[s]);
      }
    }

    /** The maintenance job re-arms itself until a pass completes; left alone it terminates with nothing obsolete. */
    method Maintain(idb: bool, names: set<StoreName>)
      requires Swept(State(), saved, idb, names)
      modifies this
      ensures Swept(State(), saved, idb, names)
      ensures forall k :: k in dirty ==> !ObsoleteMarker(old(control), k, dirty[k])
      ensures forall k :: k in sizes ==> !ObsoleteSize(old(control), k, idb, names)
    {
      var complete := false;
      ghost var first := true;
      while !complete
        invariant Swept(State(), saved, idb, names)
        invariant !complete ==> GoalOf(control) == GoalOf(old(control))
        invariant !first && !complete ==> saved.goal == Some(GoalOf(control)) && !(saved.dirtyDone && saved.sizeDone)
        invariant complete ==> forall k :: k in dirty ==> !ObsoleteMarker(old(control), k, dirty[k])
        invariant complete ==> forall k :: k in sizes ==> !ObsoleteSize(old(control), k, idb, names)
        decreases first, !complete, Work(State(), saved)
      {
        ghost var l, p := State(), saved;
        CollectKeepsSwept(l, p, 8, idb, names);
        CollectCounts(l, p, 8, idb, names);
        if !first {
          CollectProgresses(l, p, 8, idb, names);
        }
        if Collect(l, p, 8, idb, names).complete {
          CompletedPassIsClean(l, p, 8, idb, names);
        }
        var visited, removed;
        visited, removed, complete := CollectLocalDirtyGarbage(8, idb, names);
        first := false;
      }
    }
  }
}
