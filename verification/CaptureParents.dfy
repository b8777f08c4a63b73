/** Why a delta needs a parent of its own incarnation. The capture itself never compares the two: whoever visits a source
    passes a parent only if its incarnation is the present one (web/src/backup-v2-service.ts). */
module CaptureParents {
  import opened Collections
  import opened DirtyLedger
  import opened DirtyGarbage
  import opened CaptureModel
  import opened CaptureProof

  /** What a delta restores to is right exactly when its parent's image agrees with the data wherever the delta is
      silent. */
  lemma DeltaIsRightIff(base: Data, r: Records, d: Data)
    requires forall loc :: loc in r ==> OverlayAt(base, r, loc) == Lookup(d, loc)
    ensures Overlay(base, r) == d <==> forall loc :: loc !in r ==> Lookup(base, loc) == Lookup(d, loc)
  {
    forall loc ensures Lookup(Overlay(base, r), loc) == OverlayAt(base, r, loc) {
    }
    if forall loc :: loc !in r ==> Lookup(base, loc) == Lookup(d, loc) {
      OverlaySettled(base, r, d);
    }
    if Overlay(base, r) == d {
      forall loc | loc !in r ensures Lookup(base, loc) == Lookup(d, loc) {
        assert Lookup(Overlay(base, r), loc) == OverlayAt(base, r, loc);
      }
    }
  }

  ghost predicate Reachable(from: World, lim: Limits, w: World) { exists steps :: Reaches(from, steps, lim, w) }

  lemma {:induction false} ReachesMore(from: World, steps: seq<Step>, lim: Limits, w: World, s: Step)
    requires Reaches(from, steps, lim, w) && Enabled(w, s, lim)
    ensures Reaches(from, steps + [s], lim, Next(w, s, lim))
    decreases |steps|
  {
    hide Enabled, Next;
    if steps == [] {
      assert [s][1..] == [];
      assert Reaches(Next(w, s, lim), [], lim, Next(w, s, lim));
    } else {
      ReachesMore(Next(from, steps[0], lim), steps[1..], lim, w, s);
      assert (steps + [s])[1..] == steps[1..] + [s];
    }
  }

  lemma Take(from: World, lim: Limits, w: World, s: Step)
    requires Reachable(from, lim, w) && Enabled(w, s, lim)
    ensures Reachable(from, lim, Next(w, s, lim))
  {
    hide Reaches, Enabled, Next;
    var steps :| Reaches(from, steps, lim, w);
    ReachesMore(from, steps, lim, w, s);
  }

  lemma Begins(w: World, lim: Limits)
    ensures Reachable(w, lim, w)
  {
    assert Reaches(w, [], lim, w);
  }

  /** A page read and committed. */
  lemma ReadsPage(from: World, lim: Limits, w: World, j: Job, page: Page)
    requires Reachable(from, lim, w) && w.job == Some(j) && j.phase == Scan && w.actor == Working(Nothing)
    requires IsPage(w.source, j, page)
    ensures Reachable(from, lim, w.(job := Some(AfterPage(j, page)), records := w.records + page.records))
  {
    hide Reachable, IsPage;
    Take(from, lim, w, ReadPage(page));
    Take(from, lim, w.(actor := Working(Read(page))), CommitPage);
  }

  /** A catch-up that finds nothing new. */
  lemma FindsSteady(from: World, lim: Limits, w: World, j: Job)
    requires Reachable(from, lim, w) && w.job == Some(j) && j.phase == CatchUpPhase && w.actor == Working(Nothing)
    requires Proof(j.initial, Current(w)) && Current(w).generation == j.target
    ensures Reachable(from, lim, w.(job := Some(j.(final := Current(w), phase := SealPhase))))
  {
    hide Reachable;
    Take(from, lim, w, Observe);
    Take(from, lim, w.(actor := Working(Observed(Current(w)))), CatchUp);
  }

  /** A seal that still matches. */
  lemma SealsJob(from: World, lim: Limits, w: World, j: Job)
    requires Reachable(from, lim, w) && w.job == Some(j) && j.phase == SealPhase && w.actor == Working(Nothing)
    requires SealMatches(j, Current(w))
    ensures Reachable(from, lim, AfterSealCommit(w, j, true, Current(w).acknowledged))
  {
    hide Reachable, Image;
    Take(from, lim, w, Probe);
    var probed := w.(actor := Working(Probed(true, Current(w).acknowledged)));
    Take(from, lim, probed, CommitSeal);
    SealsAlike(w, probed, j);
  }

  lemma SealsAlike(w: World, probed: World, j: Job)
    requires probed == w.(actor := probed.actor)
    ensures AfterSealCommit(probed, j, true, Current(w).acknowledged) == AfterSealCommit(w, j, true, Current(w).acknowledged)
  {
    hide Overlay;
  }

  // ---------------------------------------------------------------- the run

  const STORE: StoreName := 0
  const OLD_KEY := Loc(STORE, 1)
  const NEW_KEY := Loc(STORE, 2)
  const BLANK := InitialWorld(map[], [STORE], false)

  /** An empty database is captured as a baseline, published, and becomes the head. */
  function Published(): World {
    var c := EmptyControl(0);
    var job := Job(0, None, true, c, DonePhase, false, 0, 0, Start, 0, 0, c, false);
    BLANK.(job := Some(job), versions := map[0 := Version(0, 0, 1, true, false, 0, map[], map[])], nextVersion := 1,
           published := {0}, head := Some(0))
  }

  /** A capture under way over some world: its job in one phase, the actor between two transactions. */
  function With(w: World, j: Job, phase: Phase): World { w.(job := Some(j.(phase := phase)), actor := Working(Nothing)) }

  const FIRST := Job(0, None, true, EmptyControl(0), SchemaPhase, false, 0, 0, Start, 0, 0, EmptyControl(0), false)
  const FIRST_VERSION := Version(0, 0, 1, true, false, 0, map[], map[])

  lemma Scans(lim: Limits)
    ensures Reachable(BLANK, lim, With(BLANK.(nextVersion := 1), FIRST, Scan))
  {
    hide Reachable;
    var w := BLANK;
    Begins(w, lim);
    Take(BLANK, lim, w, Visit(None));
    w := w.(actor := Checking(None, Nothing));
    Take(BLANK, lim, w, ReadInitial);
    w := w.(actor := Checking(None, Initial(EmptyControl(0))));
    Take(BLANK, lim, w, StartJob);
    w := With(BLANK.(nextVersion := 1), FIRST, SchemaPhase);
    Take(BLANK, lim, w, CommitSchema);
  }

  lemma CatchesUp(lim: Limits)
    ensures Reachable(BLANK, lim, With(BLANK.(nextVersion := 1), FIRST, SealPhase))
  {
    Scans(lim);
    hide Reachable, Enabled, Next;
    var w := With(BLANK.(nextVersion := 1), FIRST, Scan);
    var page := Page(map[], true, AtStore(1, None));
    assert IsBaselinePage(w.source, Start, page);
    assert w.records + page.records == map[];
    ReadsPage(BLANK, lim, w, w.job.value, page);
    w := With(BLANK.(nextVersion := 1), FIRST, CatchUpPhase);
    FindsSteady(BLANK, lim, w, w.job.value);
  }

  lemma Publishes(lim: Limits)
    ensures Reachable(BLANK, lim, Published())
  {
    CatchesUp(lim);
    hide Reachable, Enabled, Next;
    var w := With(BLANK.(nextVersion := 1), FIRST, SealPhase);
    assert Overlay(map[], map[]) == map[];
    SealsJob(BLANK, lim, w, w.job.value);
    w := With(BLANK.(nextVersion := 1), FIRST, PartsPhase).(versions := map[0 := FIRST_VERSION]);
    PublishesSealed(lim, w);
  }

  lemma PublishesSealed(lim: Limits, sealed: World)
    requires Reachable(BLANK, lim, sealed) && sealed.prepared.None? && sealed.published == {}
    requires sealed.job.Some? && sealed.job.value.phase == PartsPhase && sealed.actor == Working(Nothing)
    requires sealed == Published().(job := Some(Published().job.value.(phase := PartsPhase)), actor := Working(Nothing),
                                    published := {}, head := None)
    ensures Reachable(BLANK, lim, Published())
  {
    hide Reachable;
    var w := sealed;
    Take(BLANK, lim, w, Pack);
    w := w.(job := Some(w.job.value.(phase := DonePhase)));
    Take(BLANK, lim, w, Return);
    w := w.(actor := Idle);
    Take(BLANK, lim, w, Prepare);
    w := w.(prepared := Some(Prepared(0, false)));
    Take(BLANK, lim, w, Publish);
    assert {} + {0} == {0};
    w := w.(prepared := Some(Prepared(0, true)), published := {0});
    Take(BLANK, lim, w, FinishPublication);
    assert w.(head := Some(0), prepared := None) == Published();
  }

  const PUT := Input(Upsert, NEW_KEY, None, true, 1)
  const MARKER := Marker(NEW_KEY, 1, Upsert, 1, None, true, 1)
  const MARKED := EmptyControl(1).(generation := 1, dirtyCount := 1, dirtyBytes := 1, storeEpochs := map[STORE := 1])
  const LEDGER := Ledger(MARKED, map[DirtyKey(1, 1, NEW_KEY) := MARKER], map[GenKey(1, 1, 1, NEW_KEY) := MARKER], map[])

  /** The database is replaced by one that holds a value already, and the website writes another. */
  function Replaced(): World {
    var data := map[OLD_KEY := 2, NEW_KEY := 3];
    Published().(source := Source(LEDGER, NoProgress, data, [STORE], false),
                 chronicle := Chronicle(map[0 := [map[]], 1 := [map[OLD_KEY := 2], data]], map[NEW_KEY := 1], 0),
                 nextIncarnation := 2)
  }

  lemma Replaces(lim: Limits)
    requires lim.maxBytes >= 1 && lim.maxKeys >= 1
    ensures Reachable(BLANK, lim, Replaced())
  {
    Publishes(lim);
    hide Reachable;
    var w := Published();
    assert STORE in [STORE];
    Take(BLANK, lim, w, Replace(map[OLD_KEY := 2], [STORE]));
    var w1 := Next(w, Replace(map[OLD_KEY := 2], [STORE]), lim);
    assert w1.chronicle.histories == map[0 := [map[]], 1 := [map[OLD_KEY := 2]]];
    var write := Write(PUT, 3, map[], []);
    WritesOne(lim);
    assert ValidWrites(Opened(w1), [write], lim) by { assert [write][1..] == []; }
    Take(BLANK, lim, w1, Website([write]));
    hide ApplyWrite;
    assert ApplyWrites(Opened(w1), [write], lim) == ApplyWrite(Opened(w1), write, lim) by { assert [write][1..] == []; }
    assert [map[OLD_KEY := 2]] + [map[OLD_KEY := 2, NEW_KEY := 3]] == [map[OLD_KEY := 2], map[OLD_KEY := 2, NEW_KEY := 3]];
    assert Next(w1, Website([write]), lim) == Replaced();
  }

  lemma WritesOne(lim: Limits)
    requires lim.maxBytes >= 1 && lim.maxKeys >= 1
    ensures ApplyWrite(Txn(Begin(EmptyLedger(1)), map[OLD_KEY := 2], [STORE], map[], 0), Write(PUT, 3, map[], []), lim)
      == Txn(LEDGER, map[OLD_KEY := 2, NEW_KEY := 3], [STORE], map[NEW_KEY := 1], 0)
  {
    var l := Begin(EmptyLedger(1));
    var t := Touch(l, PUT);
    assert t.control == l.control.(storeEpochs := map[STORE := 1]) && t.sizes == map[];
    assert !Overflows(t, PUT, lim);
    assert Mark(t, PUT) == LEDGER;
    assert Append(l, PUT, lim) == LEDGER;
    assert map[OLD_KEY := 2][NEW_KEY := 3] == map[OLD_KEY := 2, NEW_KEY := 3];
  }

  /** The present head, of the incarnation before, is passed as the parent: nobody asks for a baseline, the delta holds
      the new value alone, and the version sealed lacks the one that was there. */
  lemma ForeignParentIsWrong(lim: Limits) returns (w: World, sealed: World)
    requires lim.maxBytes >= 1 && lim.maxKeys >= 1
    ensures Reachable(BLANK, lim, w) && w.actor.Idle? && w.head == Some(0) && 0 in w.versions
    ensures w.versions[0].incarnation != Current(w).incarnation && !Current(w).baselineRequired
    ensures Reachable(w.(actor := Checking(w.head, Nothing)), lim, sealed) && 1 in sealed.versions
    ensures var v := sealed.versions[1];
      !v.baseline && v.cut == 1 && v.incarnation == Current(w).incarnation
      && v.image != StateAt(sealed, v.incarnation, v.cut)
  {
    Replaces(lim);
    w := Replaced();
    var from := w.(actor := Checking(w.head, Nothing));
    sealed := SealsForeign(lim, from);
    assert OLD_KEY in StateAt(sealed, 1, 1) && OLD_KEY !in map[NEW_KEY := 3];
  }

  const SECOND := Job(1, Some(0), false, MARKED, SchemaPhase, true, 0, 1, Start, 1, 0, MARKED, false)

  lemma ScansForeign(lim: Limits, from: World)
    requires from == Replaced().(actor := Checking(Some(0), Nothing))
    ensures Reachable(from, lim, With(Replaced().(nextVersion := 2), SECOND, Scan))
  {
    hide Reachable;
    var w := from;
    Begins(w, lim);
    Take(from, lim, w, Reject);
    w := w.(job := None, records := map[]);
    Take(from, lim, w, ReadInitial);
    w := w.(actor := Checking(Some(0), Initial(MARKED)));
    Take(from, lim, w, StartJob);
    w := With(Replaced().(nextVersion := 2), SECOND, SchemaPhase);
    Take(from, lim, w, CommitSchema);
  }

  const CHANGES := Page(map[NEW_KEY := Put(3)], true, Start)

  lemma ChangesAre()
    ensures IsChangePage(Replaced().source, 0, 1, Start, CHANGES)
  {
    assert GenKey(1, 1, 1, NEW_KEY) in Replaced().source.ledger.generations;
  }

  lemma ReadsForeign(lim: Limits, from: World)
    requires from == Replaced().(actor := Checking(Some(0), Nothing))
    ensures Reachable(from, lim,
                      With(Replaced().(nextVersion := 2, records := map[NEW_KEY := Put(3)]), SECOND, CatchUpPhase))
  {
    ScansForeign(lim, from);
    ChangesAre();
    hide Reachable, IsChangePage, Enabled, Next;
    var w := With(Replaced().(nextVersion := 2), SECOND, Scan);
    assert w.records + CHANGES.records == CHANGES.records;
    ReadsPage(from, lim, w, w.job.value, CHANGES);
  }

  lemma CatchesUpForeign(lim: Limits, from: World)
    requires from == Replaced().(actor := Checking(Some(0), Nothing))
    ensures Reachable(from, lim, With(Replaced().(nextVersion := 2, records := map[NEW_KEY := Put(3)]), SECOND, SealPhase))
  {
    ReadsForeign(lim, from);
    hide Reachable, Enabled, Next;
    var w := With(Replaced().(nextVersion := 2, records := map[NEW_KEY := Put(3)]), SECOND, CatchUpPhase);
    FindsSteady(from, lim, w, w.job.value);
  }

  lemma SealsForeign(lim: Limits, from: World) returns (sealed: World)
    requires from == Replaced().(actor := Checking(Some(0), Nothing))
    ensures Reachable(from, lim, sealed) && 1 in sealed.versions && sealed.chronicle == from.chronicle
    ensures var v := sealed.versions[1];
      !v.baseline && v.cut == 1 && v.incarnation == 1 && v.image == map[NEW_KEY := 3]
  {
    CatchesUpForeign(lim, from);
    hide Reachable, Enabled, Next;
    var w := With(Replaced().(nextVersion := 2, records := map[NEW_KEY := Put(3)]), SECOND, SealPhase);
    SealsJob(from, lim, w, w.job.value);
    sealed := AfterSealCommit(w, w.job.value, true, 0);
    assert Overlay(map[], map[NEW_KEY := Put(3)]) == map[NEW_KEY := 3];
  }
}
