/** What a published backup is for: once its cut has been acknowledged, and nothing was written since, the source has
    nothing to back up, and after the next write its backup is of that write alone. */
module CaptureAdoption {
  import opened Collections
  import opened DirtyLedger
  import opened DirtyGarbage
  import opened CaptureModel
  import opened CaptureProof
  import opened CaptureProgress

  // ---------------------------------------------------------------- versions of the present generation

  /** A version cut at the present generation was cut in the present tracking epoch, and so will be one about to be
      sealed. */
  ghost predicate EpochsAgree(w: World) {
    (forall v :: v in w.versions && IsPresent(w, w.versions[v]) ==> w.versions[v].trackingEpoch == Current(w).trackingEpoch)
    && (AboutToSeal(w) ==> w.job.value.final.trackingEpoch == Current(w).trackingEpoch)
  }

  predicate IsPresent(w: World, v: Version) {
    v.incarnation == Current(w).incarnation && v.cut == Current(w).generation
  }

  predicate AboutToSeal(w: World) {
    w.actor.Working? && w.actor.pending.Probed? && w.actor.pending.steady && w.job.Some?
    && w.job.value.target == Current(w).generation
  }

  lemma InitialAgrees(data: Data, names: seq<StoreName>, idb: bool)
    ensures EpochsAgree(InitialWorld(data, names, idb))
  {
  }

  lemma CutsWereTaken(w: World, v: VersionId)
    requires VersionsInv(w) && v in w.versions
    ensures w.versions[v].incarnation in w.chronicle.histories
    ensures w.versions[v].cut < |w.chronicle.histories[w.versions[v].incarnation]|
  {
    assert VersionOk(w, w.versions[v]);
  }

  lemma {:induction false} WritesKeepGeneration(t: Txn, ws: seq<Write>, lim: Limits)
    ensures var t' := ApplyWrites(t, ws, lim);
      t'.ledger.control.generation == t.ledger.control.generation && t'.ledger.control.incarnation == t.ledger.control.incarnation
    decreases |ws|
  {
    if ws != [] { WritesKeepGeneration(ApplyWrite(t, ws[0], lim), ws[1..], lim); }
  }

  lemma WebsiteAgrees(w: World, ws: seq<Write>, lim: Limits)
    requires Inv(w, lim) && EpochsAgree(w)
    ensures EpochsAgree(AfterWebsite(w, ws, lim))
  {
    var w' := AfterWebsite(w, ws, lim);
    WritesKeepGeneration(Opened(w), ws, lim);
    assert Current(w').generation == Current(w).generation + 1 && Current(w').incarnation == Current(w).incarnation;
    forall v | v in w'.versions && w'.versions[v].incarnation == Current(w').incarnation
      ensures w'.versions[v].cut < Current(w').generation
    {
      CutsWereTaken(w, v);
    }
    if w.job.Some? && w.actor.Working? { assert JobShape(w, w.job.value); }
    hide Inv, ApplyWrites, VersionsInv;
  }

  lemma SourceAgrees(w: World, s: Step, lim: Limits)
    requires Inv(w, lim) && EpochsAgree(w) && Enabled(w, s, lim) && SourceStep(s)
    ensures EpochsAgree(Next(w, s, lim))
  {
    match s
    case Website(ws) => WebsiteAgrees(w, ws, lim);
    case Maintenance(n) => MaintenanceControl(w.source.ledger, w.source.saved, n, w.source.idb, Names(w.source));
    case Replace(data, names) =>
      forall v | v in w.versions ensures w.versions[v].incarnation != w.nextIncarnation { CutsWereTaken(w, v); }
    case Adopt(v) => AcknowledgeMeans(w.source.ledger, w.versions[v].cut, w.versions[v].trackingEpoch);
  }

  lemma ActorAgrees(w: World, s: Step, lim: Limits)
    requires Inv(w, lim) && EpochsAgree(w) && Enabled(w, s, lim) && !SourceStep(s)
    ensures EpochsAgree(Next(w, s, lim))
  {
    hide Inv, Proof, IsPage, StillValid, Image, Collect;
  }

  lemma {:induction false} RunAgrees(w: World, steps: seq<Step>, lim: Limits, w': World)
    requires Inv(w, lim) && EpochsAgree(w) && Reaches(w, steps, lim, w')
    ensures EpochsAgree(w') && Inv(w', lim)
    decreases |steps|
  {
    hide Inv, EpochsAgree, Next, Enabled;
    if steps != [] {
      StepKeeps(w, steps[0], lim);
      if SourceStep(steps[0]) { SourceAgrees(w, steps[0], lim); } else { ActorAgrees(w, steps[0], lim); }
      RunAgrees(Next(w, steps[0], lim), steps[1..], lim, w');
    }
  }

  // ---------------------------------------------------------------- adopting the present

  /** Nothing has changed since the last acknowledgement, and no baseline is required. */
  predicate UpToNow(w: World) { Current(w).acknowledged == Current(w).generation && !Current(w).baselineRequired }

  /** A published version of the present generation, adopted in any reachable world, leaves nothing to back up. */
  lemma AdoptedIsUpToNow(data: Data, names: seq<StoreName>, idb: bool, lim: Limits, run: seq<Step>, w: World, v: VersionId)
    requires StoresExist(data, names) && Reaches(InitialWorld(data, names, idb), run, lim, w)
    requires Enabled(w, Adopt(v), lim) && w.versions[v].cut == Current(w).generation
    ensures UpToNow(Next(w, Adopt(v), lim))
  {
    hide *;
    AdoptIs(w, v, lim);
    InitialInv(data, names, idb, lim);
    InitialAgrees(data, names, idb);
    RunAgrees(InitialWorld(data, names, idb), run, lim, w);
    PresentIsUpToNow(w, v, lim);
  }

  lemma AdoptIs(w: World, v: VersionId, lim: Limits)
    requires Enabled(w, Adopt(v), lim)
    ensures v in w.versions && w.versions[v].incarnation == Current(w).incarnation
    ensures Next(w, Adopt(v), lim) == w.(source := w.source.(
              ledger := Acknowledge(w.source.ledger, w.versions[v].cut, w.versions[v].trackingEpoch)))
  {
    hide Acknowledge;
  }

  lemma AcknowledgedBefore(w: World, lim: Limits)
    requires Inv(w, lim)
    ensures Current(w).acknowledged <= Current(w).generation
  {
    assert Issued(w.source.ledger, Names(w.source));
  }

  lemma EpochOf(w: World, v: VersionId)
    requires EpochsAgree(w) && v in w.versions && IsPresent(w, w.versions[v])
    ensures w.versions[v].trackingEpoch == Current(w).trackingEpoch
  {
  }

  lemma PresentIsUpToNow(w: World, v: VersionId, lim: Limits)
    requires Inv(w, lim) && EpochsAgree(w) && Enabled(w, Adopt(v), lim)
    requires v in w.versions && w.versions[v].cut == Current(w).generation
    ensures UpToNow(Next(w, Adopt(v), lim))
  {
    hide Inv, EpochsAgree, Enabled, Next, Acknowledge;
    AdoptIs(w, v, lim);
    AcknowledgedBefore(w, lim);
    EpochOf(w, v);
    AcknowledgeMeans(w.source.ledger, w.versions[v].cut, w.versions[v].trackingEpoch);
  }

  /** The next visit with a parent finds nothing to do. */
  lemma AdoptedIsLeftAlone(data: Data, names: seq<StoreName>, idb: bool, lim: Limits, run: seq<Step>, w: World, v: VersionId,
                           parent: Option<VersionId>)
    requires StoresExist(data, names) && Reaches(InitialWorld(data, names, idb), run, lim, w)
    requires Enabled(w, Adopt(v), lim) && w.versions[v].cut == Current(w).generation
    requires w.job.None? && parent.Some? && Enabled(w, Visit(parent), lim)
    ensures var w' := Next(w, Adopt(v), lim); Reaches(w', [Visit(parent), ReadInitial, StartJob], lim, w')
  {
    AdoptedIsUpToNow(data, names, idb, lim, run, w, v);
    var w' := Next(w, Adopt(v), lim);
    AcknowledgeMeans(w.source.ledger, w.versions[v].cut, w.versions[v].trackingEpoch);
    assert Current(w').incarnation == Current(w).incarnation;
    assert Enabled(w', Visit(parent), lim);
    NothingToBackUp(w', parent, lim);
  }

  // ---------------------------------------------------------------- the delta of one put

  /** A transaction of one put whose marker fits. */
  ghost predicate OnePut(w: World, put: Write, lim: Limits) {
    put.input.operation == Upsert && Enabled(w, Website([put]), lim) && Fits(Begin(w.source.ledger), put.input, lim)
  }

  lemma OnePutMarks(w: World, put: Write, lim: Limits)
    requires Inv(w, lim) && OnePut(w, put, lim)
    ensures var (w', loc, g) := (Next(w, Website([put]), lim), put.input.loc, Current(w).generation + 1);
      Current(w').generation == g && Current(w').acknowledged == Current(w).acknowledged
      && Current(w').baselineRequired == Current(w).baselineRequired && Current(w').incarnation == Current(w).incarnation
      && w'.source.data == w.source.data[loc := put.value] && w'.chronicle.last == w.chronicle.last[loc := g]
      && w' == w.(source := w'.source, chronicle := w'.chronicle)
  {
    var t := Opened(w);
    var t1 := ApplyWrite(t, put, lim);
    assert [put][1..] == [];
    assert ApplyWrites(t1, [], lim) == t1;
    assert ApplyWrites(t, [put], lim) == t1;
    assert CurrentRows(Begin(w.source.ledger)) == CurrentRows(w.source.ledger);
    BaselineDemandedIff(Begin(w.source.ledger), put.input, lim);
    AppendKeepsClock(Begin(w.source.ledger), put.input, lim);
    hide Inv, Append, Fits, Conserved, Overflows;
  }

  lemma AppendKeepsClock(l: Ledger, i: Input, lim: Limits)
    ensures var (c, c') := (l.control, Append(l, i, lim).control);
      c'.generation == c.generation && c'.acknowledged == c.acknowledged && c'.incarnation == c.incarnation
  {
    hide Overflows;
  }

  /** A version that is a delta of at most one key. */
  ghost predicate DeltaOf(v: Version, loc: Loc) { !v.baseline && v.records.Keys <= {loc} }

  /** The world in which that capture has begun. */
  lemma DeltaBegins(w: World, put: Write, parent: Option<VersionId>, lim: Limits)
    requires Inv(w, lim) && UpToNow(w) && OnePut(w, put, lim) && !Pinned(w)
    requires parent.Some? && Enabled(w, Visit(parent), lim) && (w.job.Some? ==> parent == Some(w.job.value.version))
    ensures var w1 := Next(w, Website([put]), lim);
      var w2 := Begun(w1, parent);
      Inv(w1, lim) && Enabled(w1, Visit(parent), lim) && Reaches(w1, Opening(w1, parent), lim, w2)
      && w1.chronicle.last == w.chronicle.last[put.input.loc := Current(w).generation + 1]
      && w1.nextVersion == w.nextVersion && Current(w1).generation > Current(w1).acknowledged
      && !Current(w1).baselineRequired && Current(w1).acknowledged == Current(w).generation
  {
    var w1 := Next(w, Website([put]), lim);
    OnePutMarks(w, put, lim);
    StepKeeps(w, Website([put]), lim);
    assert Enabled(w1, Visit(parent), lim) && !Pinned(w1);
    assert w1.job.Some? ==> !StillValid(w1.job.value, parent, Current(w1));
    hide Inv, Enabled, Next, StillValid, Begun, Opening, Reaches;
    CaptureBegins(w1, parent, lim);
  }

  /** A new capture of changes that is lean completes as a delta of the one key changed. */
  lemma DeltaCompletes(w2: World, a: nat, loc: Loc, lim: Limits) returns (steps: seq<Step>, w': World)
    requires Under(w2, lim) && Inv(w2, lim) && Affords(w2, w2.job.value) && Lean(w2, a) && !w2.job.value.baseline
    requires forall l :: LastChange(w2.chronicle.last, l) > a ==> l == loc
    ensures Reaches(w2, steps, lim, w') && w'.actor == Idle && w'.source == w2.source
    ensures ShowsPresent(w', w2.job.value.version) && DeltaOf(w'.versions[w2.job.value.version], loc)
  {
    hide Inv, ShowsPresent, Reaches, Under, Lean, Affords, QuietRun;
    var quiet, w3 := QuietRunExists(w2, lim);
    QuietReaches(w2, quiet, lim, w3);
    RunKeeps(w2, quiet, lim, w3);
    QuietRunStaysLean(w2, quiet, a, lim, w3);
    QuietKeepsChronicle(w2, quiet, lim, w3);
    SealedShows(w3, lim);
    SealedReturns(w3, lim);
    LeanIsDelta(w3, a, loc);
    w' := w3.(job := Some(w3.job.value.(phase := DonePhase)), actor := Idle);
    ReachesJoin(w2, quiet, lim, w3, [Pack, Return], w');
    steps := quiet + [Pack, Return];
    ShowsAsWell(w3, w', w2.job.value.version);
  }

  lemma BegunUnder(w1: World, parent: Option<VersionId>, lim: Limits)
    requires Inv(Begun(w1, parent), lim) && Current(w1).generation > Current(w1).acknowledged && parent.Some?
    requires !Current(w1).baselineRequired
    ensures var w2 := Begun(w1, parent);
      Under(w2, lim) && Affords(w2, w2.job.value) && w2.source == w1.source && w2.chronicle == w1.chronicle
      && w2.job.value.version == w1.nextVersion && !w2.job.value.baseline && Lean(w2, Current(w1).acknowledged)
  {
    var w2 := Begun(w1, parent);
    assert w2.job == Some(NewJob(w1.nextVersion, parent, Current(w1))) && w2.records == map[];
    hide Inv;
  }

  /** After one put to a source that has nothing to back up, its next capture completes as a delta of that key alone,
      and shows what the source then holds. */
  lemma NextBackupIsADelta(w: World, put: Write, parent: Option<VersionId>, lim: Limits)
    returns (steps: seq<Step>, w': World)
    requires Inv(w, lim) && UpToNow(w) && OnePut(w, put, lim) && !Pinned(w)
    requires parent.Some? && Enabled(w, Visit(parent), lim)
    requires w.job.Some? ==> parent == Some(w.job.value.version)
    ensures var w1 := Next(w, Website([put]), lim);
      Reaches(w1, steps, lim, w') && w'.actor == Idle && w'.source == w1.source
      && ShowsPresent(w', w.nextVersion) && DeltaOf(w'.versions[w.nextVersion], put.input.loc)
  {
    var w1 := Next(w, Website([put]), lim);
    DeltaBegins(w, put, parent, lim);
    var w2 := Begun(w1, parent);
    RunKeeps(w1, Opening(w1, parent), lim, w2);
    BegunUnder(w1, parent, lim);
    OnlyThePut(w, w1, put.input.loc, lim);
    hide Inv, Enabled, Next, ShowsPresent, Reaches, Under, Lean, Begun, Opening, Affords, OnePut, Pinned, UpToNow;
    var more;
    more, w' := DeltaCompletes(w2, Current(w).generation, put.input.loc, lim);
    steps := Opening(w1, parent) + more;
    ReachesJoin(w1, Opening(w1, parent), lim, w2, more, w');
  }

  lemma ShowsAsWell(w: World, w': World, v: VersionId)
    requires ShowsPresent(w, v) && w'.source == w.source && w'.versions == w.versions
    ensures ShowsPresent(w', v)
  {
  }

  /** Only the key put has changed since. */
  lemma OnlyThePut(w: World, w1: World, loc: Loc, lim: Limits)
    requires Inv(w, lim) && w1.chronicle.last == w.chronicle.last[loc := Current(w).generation + 1]
    ensures forall l :: LastChange(w1.chronicle.last, l) > Current(w).generation ==> l == loc
  {
    forall l | l != loc ensures LastChange(w1.chronicle.last, l) <= Current(w).generation {
      assert LastChange(w1.chronicle.last, l) == LastChange(w.chronicle.last, l);
    }
  }

  lemma {:induction false} QuietKeepsChronicle(w: World, steps: seq<Step>, lim: Limits, w': World)
    requires QuietRun(w, steps, lim, w')
    ensures w'.chronicle == w.chronicle
    decreases |steps|
  {
    if steps != [] {
      assert Next(w, steps[0], lim).chronicle == w.chronicle;
      QuietKeepsChronicle(Next(w, steps[0], lim), steps[1..], lim, w');
    }
  }

  lemma LeanIsDelta(w: World, a: nat, loc: Loc)
    requires SealedNow(w) && Lean(w, a) && !w.job.value.baseline
    requires forall l :: LastChange(w.chronicle.last, l) > a ==> l == loc
    ensures DeltaOf(w.versions[w.job.value.version], loc)
  {
  }

  /** So, in every reachable world: a published version of the present generation is adopted, one put follows, and the
      next capture is a delta of that put. */
  lemma AdoptedThenPut(data: Data, names: seq<StoreName>, idb: bool, lim: Limits, run: seq<Step>, w: World, v: VersionId,
                       put: Write, parent: Option<VersionId>) returns (steps: seq<Step>, w': World)
    requires StoresExist(data, names) && Reaches(InitialWorld(data, names, idb), run, lim, w)
    requires Enabled(w, Adopt(v), lim) && w.versions[v].cut == Current(w).generation
    requires var u := Next(w, Adopt(v), lim); OnePut(u, put, lim) && !Pinned(u) && Enabled(u, Visit(parent), lim)
    requires parent.Some? && (w.job.Some? ==> parent == Some(w.job.value.version))
    ensures var u := Next(Next(w, Adopt(v), lim), Website([put]), lim);
      Reaches(u, steps, lim, w') && w'.actor == Idle && w'.source == u.source
      && ShowsPresent(w', w.nextVersion) && DeltaOf(w'.versions[w.nextVersion], put.input.loc)
  {
    hide *;
    InitialInv(data, names, idb, lim);
    AdoptedIsUpToNow(data, names, idb, lim, run, w, v);
    var u := Next(w, Adopt(v), lim);
    AdoptIs(w, v, lim);
    RunKeeps(InitialWorld(data, names, idb), run, lim, w);
    StepKeeps(w, Adopt(v), lim);
    steps, w' := NextBackupIsADelta(u, put, parent, lim);
  }
}
