/** The transactions that move sources through the schedule. */
module FairQueue {
  import opened Collections
  import opened FairSchedule

  class Scheduler {
    var rows: map<string, Entry>
    var fairTurn: nat
    var baselineEpoch: nat

    ghost function State(): Schedule reads this { Schedule(rows, fairTurn, baselineEpoch) }

    constructor ()
      ensures State() == Schedule(map[], 0, 0)
    {
      rows, fairTurn, baselineEpoch := map[], 0, 0;
    }

    /** markServed: the patch is pruned field by field before the row is written. */
    method MarkServed(id: string, patch: Patch)
      modifies this
      ensures State() == After(old(State()), Serve(id, patch))
    {
      var was := if id in rows then rows[id] else NewEntry(id);
      fairTurn := fairTurn + 1;
      var safe := patch;
      if patch.expectedHintVersion.Some? && patch.expectedHintVersion.value != was.hintVersion {
        safe := safe.(priority := None, tier := None, dirtySinceTurn := None, nextEligibleAt := Some(0));
      }
      if safe.priority == Some(1) {
        var acknowledged := if safe.acknowledgedEpoch.Some? then safe.acknowledgedEpoch.value else was.acknowledgedEpoch;
        if was.baselineEpoch > acknowledged {
          safe := safe.(priority := Some(0), tier := Some(0), dirtySinceTurn := None);
        }
      }
      if safe.priority == Some(1) {
        safe := safe.(tier := Some(2));
      } else if safe.priority == Some(0) && safe.observedGeneration.Some? {
        safe := safe.(tier := Some(0));
      }
      var row := was.(dirtySinceTurn := Some(Or(was.dirtySinceTurn, fairTurn)), lastServedTurn := fairTurn,
                       nextEligibleAt := 0);
      row := row.(dirtySinceTurn := Or(safe.dirtySinceTurn, row.dirtySinceTurn), priority := Or(safe.priority, row.priority),
                  tier := Or(safe.tier, row.tier), nextEligibleAt := Or(safe.nextEligibleAt, 0),
                  observedGeneration := if safe.observedGeneration.Some? then safe.observedGeneration else row.observedGeneration,
                  reason := Or(safe.reason, row.reason),
                  acknowledgedEpoch := Or(safe.acknowledgedEpoch, row.acknowledgedEpoch));
      rows := rows[id := row];
    }

    /** hintSources: every id once, however often it is named. */
    method HintSources(ids: seq<string>)
      modifies this`rows
      ensures State() == After(old(State()), Hint(set x | x in ids))
    {
      var hinted: set<string> := {};
      var i := 0;
      while i < |ids|
        invariant i <= |ids| && hinted == set x | x in ids[..i]
        invariant rows.Keys == old(rows).Keys + hinted
        invariant forall x :: x in rows ==>
          rows[x] == if x in hinted then HintedRow(RowOf(old(State()), x), fairTurn) else old(rows)[x]
      {
        var id := ids[i];
        if id !in hinted {
          var was := if id in rows then rows[id] else NewEntry(id);
          assert was == RowOf(old(State()), id);
          rows := rows[id := HintedRow(was, fairTurn)];
          hinted := hinted + {id};
        }
        assert ids[..i + 1] == ids[..i] + [id];
        i := i + 1;
      }
      assert ids[..i] == ids;
    }
  }
}
