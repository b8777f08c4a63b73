/** Which sources are looked at next (runtime/backup-v2-spool.ts): a queue by the turn a source was last served, in two
    tiers that hints, probes and new baselines move sources between. */
module FairSchedule {
  import opened Collections

  /** A row of the schedule. Priority 0 is queued, in tier 0 when known to have changed and in tier 1 to be probed;
      priority 1 is caught up and is written together with tier 2. */
  datatype Entry = Entry(
    sourceId: string, described: bool, dirtySinceTurn: Option<nat>, priority: nat, tier: nat, hintVersion: nat,
    lastServedTurn: nat, nextEligibleAt: int, observedGeneration: Option<nat>, reason: string,
    baselineEpoch: nat, acknowledgedEpoch: nat)

  datatype Schedule = Schedule(rows: map<string, Entry>, fairTurn: nat, baselineEpoch: nat)

  /** What the one who served a source writes back. */
  datatype Patch = Patch(
    priority: Option<nat>, tier: Option<nat>, dirtySinceTurn: Option<Option<nat>>, nextEligibleAt: Option<int>,
    observedGeneration: Option<nat>, reason: Option<string>, acknowledgedEpoch: Option<nat>,
    expectedHintVersion: Option<nat>)

  datatype Step =
    | Serve(id: string, patch: Patch)
    | Hint(ids: set<string>)
    | Touch(ids: set<string>)
    | Probe(ids: set<string>)
    | Rebase(ids: set<string>)
    | NewBaselines

  const HELD_BACK := {"BACKUP_CATALOG_FULL", "BACKUP_SPOOL_EVICTED"}

  function Or<T>(o: Option<T>, otherwise: T): T { if o.Some? then o.value else otherwise }

  /** The patch that is left when the source has been hinted in the meantime. */
  function Guarded(patch: Patch, hintVersion: nat): Patch {
    if patch.expectedHintVersion.Some? && patch.expectedHintVersion.value != hintVersion then
      patch.(priority := None, tier := None, dirtySinceTurn := None, nextEligibleAt := Some(0))
    else patch
  }

  /** A source whose new baseline has not been acknowledged stays queued. */
  function Requeued(patch: Patch, baselineEpoch: nat, acknowledgedEpoch: nat): Patch {
    if patch.priority == Some(1) && baselineEpoch > Or(patch.acknowledgedEpoch, acknowledgedEpoch) then
      patch.(priority := Some(0), tier := Some(0), dirtySinceTurn := None)
    else patch
  }

  function Tiered(patch: Patch): Patch {
    if patch.priority == Some(1) then patch.(tier := Some(2))
    else if patch.priority == Some(0) && patch.observedGeneration.Some? then patch.(tier := Some(0))
    else patch
  }

  function NewEntry(id: string): Entry { Entry(id, false, None, 0, 1, 0, 0, 0, None, "", 0, 0) }

  function RowOf(s: Schedule, id: string): Entry { if id in s.rows then s.rows[id] else NewEntry(id) }

  /** markServed's row, at turn `turn`. */
  function ServedRow(was: Entry, patch: Patch, turn: nat): Entry {
    var safe := Tiered(Requeued(Guarded(patch, was.hintVersion), was.baselineEpoch, was.acknowledgedEpoch));
    Entry(was.sourceId, was.described,
          Or(safe.dirtySinceTurn, Some(Or(was.dirtySinceTurn, turn))), Or(safe.priority, was.priority),
          Or(safe.tier, was.tier), was.hintVersion, turn, Or(safe.nextEligibleAt, 0),
          if safe.observedGeneration.Some? then safe.observedGeneration else was.observedGeneration,
          Or(safe.reason, was.reason), was.baselineEpoch, Or(safe.acknowledgedEpoch, was.acknowledgedEpoch))
  }

  function HintedRow(was: Entry, turn: nat): Entry {
    was.(priority := 0, tier := 0, hintVersion := was.hintVersion + 1,
         dirtySinceTurn := Some(Or(was.dirtySinceTurn, turn)),
         nextEligibleAt := if was.reason in HELD_BACK then was.nextEligibleAt else 0)
  }

  function TouchedRow(s: Schedule, id: string): Entry {
    if id !in s.rows then
      Entry(id, true, Some(s.fairTurn), 0, if s.baselineEpoch > 0 then 0 else 1, 0, 0, 0, None, "", s.baselineEpoch, 0)
    else if s.rows[id].baselineEpoch < s.baselineEpoch then
      s.rows[id].(described := true, baselineEpoch := s.baselineEpoch, priority := 0, nextEligibleAt := 0)
    else s.rows[id].(described := true)
  }

  function ProbedRow(was: Entry): Entry {
    was.(priority := 0, tier := if was.priority == 0 && was.tier == 0 then 0 else 1,
         nextEligibleAt := if was.reason in HELD_BACK then was.nextEligibleAt else 0)
  }

  function RebasedRow(was: Entry, epoch: nat): Entry {
    if was.baselineEpoch < epoch then
      was.(baselineEpoch := epoch, priority := 0, tier := 0, nextEligibleAt := 0, reason := "")
    else was
  }

  /** One transaction on the schedule. Probing and rebasing go through the rows page by page, so that `ids` is a page. */
  function After(s: Schedule, step: Step): Schedule {
    match step
    case Serve(id, patch) =>
      s.(fairTurn := s.fairTurn + 1, rows := s.rows[id := ServedRow(RowOf(s, id), patch, s.fairTurn + 1)])
    case Hint(ids) =>
      s.(rows := map x | x in s.rows.Keys + ids :: if x in ids then HintedRow(RowOf(s, x), s.fairTurn) else s.rows[x])
    case Touch(ids) =>
      s.(rows := map x | x in s.rows.Keys + ids :: if x in ids then TouchedRow(s, x) else s.rows[x])
    case Probe(ids) => s.(rows := map x | x in s.rows :: if x in ids then ProbedRow(s.rows[x]) else s.rows[x])
    case Rebase(ids) =>
      s.(rows := map x | x in s.rows :: if x in ids then RebasedRow(s.rows[x], s.baselineEpoch) else s.rows[x])
    case NewBaselines => s.(baselineEpoch := s.baselineEpoch + 1)
  }

  // ---------------------------------------------------------------- who stands before whom

  /** The order within a tier: by the turn last served, then by name. */
  predicate Ahead(a: Entry, b: Entry) {
    a.lastServedTurn < b.lastServedTurn || (a.lastServedTurn == b.lastServedTurn && StringBefore(a.sourceId, b.sourceId))
  }

  ghost predicate Inv(s: Schedule) {
    forall x :: x in s.rows ==> s.rows[x].sourceId == x && s.rows[x].lastServedTurn <= s.fairTurn
  }

  /** Everyone who stands before `w`, in whatever tier. */
  ghost function AheadOf(s: Schedule, w: string): set<string>
    requires w in s.rows
  {
    set x | x in s.rows && Ahead(s.rows[x], s.rows[w])
  }

  /** The step adds no source. */
  predicate KnownOnly(s: Schedule, step: Step) {
    match step
    case Serve(id, _) => id in s.rows
    case Hint(ids) => ids <= s.rows.Keys
    case Touch(ids) => ids <= s.rows.Keys
    case _ => true
  }

  /** The step serves `id` from ahead of `w`. */
  ghost predicate Bypasses(s: Schedule, step: Step, w: string)
    requires w in s.rows
  {
    step.Serve? && step.id in AheadOf(s, w)
  }

  lemma StepKeepsInv(s: Schedule, step: Step)
    requires Inv(s)
    ensures Inv(After(s, step))
  {
  }

  /** Only being served moves a source, and it moves behind everyone. */
  lemma OnlyServingMoves(s: Schedule, step: Step, x: string)
    requires x in s.rows && Inv(s)
    ensures var t := After(s, step);
      x in t.rows && t.rows[x].lastServedTurn
        == if step.Serve? && step.id == x then s.fairTurn + 1 else s.rows[x].lastServedTurn
  {
  }

  /** Whoever is served leaves the set of those ahead, and nobody enters it. */
  lemma StepShrinksAhead(s: Schedule, step: Step, w: string)
    requires Inv(s) && w in s.rows && KnownOnly(s, step) && !(step.Serve? && step.id == w)
    ensures var t := After(s, step);
      w in t.rows && t.rows.Keys == s.rows.Keys
      && AheadOf(t, w) == AheadOf(s, w) - (if step.Serve? then {step.id} else {})
  {
    var t := After(s, step);
    assert t.rows.Keys == s.rows.Keys;
    StepKeepsInv(s, step);
    OnlyServingMoves(s, step, w);
    hide After;
    forall x | x in s.rows
      ensures Ahead(t.rows[x], t.rows[w]) <==> Ahead(s.rows[x], s.rows[w]) && !(step.Serve? && step.id == x)
    {
      OnlyServingMoves(s, step, x);
    }
  }

  /** A run over a fixed set of sources in which `w` is not served. */
  ghost predicate Waits(s: Schedule, steps: seq<Step>, w: string)
    decreases |steps|
  {
    steps == []
    || (KnownOnly(s, steps[0]) && !(steps[0].Serve? && steps[0].id == w) && Waits(After(s, steps[0]), steps[1..], w))
  }

  function Play(s: Schedule, steps: seq<Step>): Schedule
    decreases |steps|
  {
    if steps == [] then s else Play(After(s, steps[0]), steps[1..])
  }

  /** How often the run serves `a` from ahead of `w`. */
  ghost function Bypassed(s: Schedule, steps: seq<Step>, w: string, a: string): nat
    requires w in s.rows && Inv(s) && Waits(s, steps, w)
    decreases |steps|
  {
    if steps == [] then 0
    else
      StepKeepsInv(s, steps[0]);
      StepShrinksAhead(s, steps[0], w);
      (if Bypasses(s, steps[0], w) && steps[0].id == a then 1 else 0) + Bypassed(After(s, steps[0]), steps[1..], w, a)
  }

  /** However hints, probes and new baselines move sources between the tiers, every other source is served from ahead of
      a waiting one at most once, and only if it stood ahead to begin with; and it is not ahead any more after that. */
  lemma {:induction false} BypassedAtMostOnce(s: Schedule, steps: seq<Step>, w: string, a: string)
    requires w in s.rows && Inv(s) && Waits(s, steps, w)
    ensures var t := Play(s, steps);
      w in t.rows && Inv(t) && t.rows.Keys == s.rows.Keys && AheadOf(t, w) <= AheadOf(s, w)
      && Bypassed(s, steps, w, a) + (if a in AheadOf(t, w) then 1 else 0) <= (if a in AheadOf(s, w) then 1 else 0)
    decreases |steps|
  {
    if steps != [] {
      StepKeepsInv(s, steps[0]);
      StepShrinksAhead(s, steps[0], w);
      hide After, AheadOf, Inv, KnownOnly;
      BypassedAtMostOnce(After(s, steps[0]), steps[1..], w, a);
    }
  }

  /** How often the run serves anyone from ahead of `w`. */
  ghost function AllBypasses(s: Schedule, steps: seq<Step>, w: string): nat
    requires w in s.rows && Inv(s) && Waits(s, steps, w)
    decreases |steps|
  {
    if steps == [] then 0
    else
      StepKeepsInv(s, steps[0]);
      StepShrinksAhead(s, steps[0], w);
      (if Bypasses(s, steps[0], w) then 1 else 0) + AllBypasses(After(s, steps[0]), steps[1..], w)
  }

  /** Every bypass leaves one source less ahead: a source waits for at most as many as stood before it. */
  lemma {:induction false} BypassesCountDown(s: Schedule, steps: seq<Step>, w: string)
    requires w in s.rows && Inv(s) && Waits(s, steps, w)
    ensures var t := Play(s, steps);
      w in t.rows && Inv(t) && AllBypasses(s, steps, w) + |AheadOf(t, w)| == |AheadOf(s, w)|
    decreases |steps|
  {
    if steps != [] {
      StepKeepsInv(s, steps[0]);
      StepShrinksAhead(s, steps[0], w);
      hide After, AheadOf, Inv, KnownOnly;
      var next := After(s, steps[0]);
      if steps[0].Serve? && steps[0].id !in AheadOf(s, w) { assert AheadOf(next, w) == AheadOf(s, w); }
      BypassesCountDown(next, steps[1..], w);
    }
  }

  /** A hint that arrives while a source is being served is not lost: the source stays queued and can be looked at at
      once, whatever the one who served it reports. */
  lemma HintDuringServiceSurvives(s: Schedule, id: string, patch: Patch)
    requires id in s.rows && s.rows[id].priority == 0
    requires patch.expectedHintVersion.Some? && patch.expectedHintVersion.value < s.rows[id].hintVersion
    ensures var row := After(s, Serve(id, patch)).rows[id];
      row.priority == 0 && row.nextEligibleAt == 0 && row.hintVersion == s.rows[id].hintVersion
  {
  }

  /** Whoever served a queued source and found it caught up takes it off the queue if and only if its latest baseline has
      been acknowledged and no hint has come in between; then it is in the tier of those caught up. */
  lemma LeavesQueueAcknowledged(s: Schedule, id: string, patch: Patch)
    requires id in s.rows && s.rows[id].priority == 0
    ensures var (was, row) := (s.rows[id], After(s, Serve(id, patch)).rows[id]);
      (row.priority == 1 <==>
         patch.priority == Some(1)
         && (patch.expectedHintVersion.Some? ==> patch.expectedHintVersion.value == was.hintVersion)
         && was.baselineEpoch <= if patch.acknowledgedEpoch.Some? then patch.acknowledgedEpoch.value else was.acknowledgedEpoch)
      && (row.priority == 1 ==> row.tier == 2 && row.acknowledgedEpoch >= row.baselineEpoch)
  {
  }

  /** Whoever served a source and found more to do, at a generation of it, leaves it queued among those known to have
      changed; what was seen and acknowledged is in the row, and what was not seen stays. */
  lemma ServedKnown(s: Schedule, id: string, patch: Patch)
    requires id in s.rows && patch.priority == Some(0)
    requires patch.expectedHintVersion.Some? ==> patch.expectedHintVersion.value == s.rows[id].hintVersion
    ensures var (was, row) := (s.rows[id], After(s, Serve(id, patch)).rows[id]);
      row.priority == 0 && (patch.observedGeneration.Some? ==> row.tier == 0)
      && row.observedGeneration == (if patch.observedGeneration.Some? then patch.observedGeneration else was.observedGeneration)
      && row.acknowledgedEpoch == (if patch.acknowledgedEpoch.Some? then patch.acknowledgedEpoch.value else was.acknowledgedEpoch)
      && row.reason == (if patch.reason.Some? then patch.reason.value else was.reason)
      && row.hintVersion == was.hintVersion && row.baselineEpoch == was.baselineEpoch
  {
  }

  // ---------------------------------------------------------------- when to look again

  /** A step that has no reason to look at source x earlier than was written back: it does not serve x; it hints or
      probes x only while what x was told holds it back; and it brings x no baseline that x has not had. */
  predicate LeavesTime(s: Schedule, step: Step, x: string)
    requires x in s.rows
  {
    match step
    case Serve(id, _) => id != x
    case Hint(ids) => x in ids ==> s.rows[x].reason in HELD_BACK
    case Probe(ids) => x in ids ==> s.rows[x].reason in HELD_BACK
    case Touch(ids) => x in ids ==> s.rows[x].baselineEpoch >= s.baselineEpoch
    case Rebase(ids) => x in ids ==> s.rows[x].baselineEpoch >= s.baselineEpoch
    case NewBaselines => true
  }

  /** Between two services the time of a source stays as written, or the source may be looked at at once. */
  lemma TimeStaysIff(s: Schedule, step: Step, x: string)
    requires x in s.rows && !(step.Serve? && step.id == x)
    ensures var t := After(s, step);
      x in t.rows && t.rows[x].nextEligibleAt == (if LeavesTime(s, step, x) then s.rows[x].nextEligibleAt else 0)
      && (LeavesTime(s, step, x) ==> t.rows[x].reason == s.rows[x].reason)
  {
  }

  ghost predicate TimeIsLeft(s: Schedule, steps: seq<Step>, x: string)
    decreases |steps|
  {
    steps == [] || (x in s.rows && LeavesTime(s, steps[0], x) && TimeIsLeft(After(s, steps[0]), steps[1..], x))
  }

  lemma {:induction false} TimeStays(s: Schedule, steps: seq<Step>, x: string)
    requires x in s.rows && TimeIsLeft(s, steps, x)
    ensures x in Play(s, steps).rows && Play(s, steps).rows[x].nextEligibleAt == s.rows[x].nextEligibleAt
    decreases |steps|
  {
    if steps != [] {
      TimeStaysIff(s, steps[0], x);
      hide After, LeavesTime;
      TimeStays(After(s, steps[0]), steps[1..], x);
    }
  }

  /** A time to try again that is written back, with no hint since the source was looked at, is the time in its row
      until something gives reason to look earlier; without a time the source may be looked at at once. */
  lemma RetryTimeIsKept(s: Schedule, id: string, patch: Patch, steps: seq<Step>)
    requires patch.expectedHintVersion.Some? ==> patch.expectedHintVersion.value == RowOf(s, id).hintVersion
    requires TimeIsLeft(After(s, Serve(id, patch)), steps, id)
    ensures var t := Play(After(s, Serve(id, patch)), steps);
      id in t.rows
      && t.rows[id].nextEligibleAt == if patch.nextEligibleAt.Some? then patch.nextEligibleAt.value else 0
  {
    ServedTime(s, id, patch);
    hide After, Play, TimeIsLeft;
    TimeStays(After(s, Serve(id, patch)), steps, id);
  }

  lemma ServedTime(s: Schedule, id: string, patch: Patch)
    requires patch.expectedHintVersion.Some? ==> patch.expectedHintVersion.value == RowOf(s, id).hintVersion
    ensures id in After(s, Serve(id, patch)).rows
    ensures After(s, Serve(id, patch)).rows[id].nextEligibleAt
      == if patch.nextEligibleAt.Some? then patch.nextEligibleAt.value else 0
  {
  }

  // ---------------------------------------------------------------- who is queued

  /** Whoever served the source does not take an acknowledgement back, and knows two priorities. */
  predicate Honest(s: Schedule, step: Step) {
    step.Serve? ==>
      (step.patch.priority.Some? ==> step.patch.priority.value <= 1)
      && (step.patch.acknowledgedEpoch.Some? ==>
            step.patch.acknowledgedEpoch.value >= RowOf(s, step.id).acknowledgedEpoch)
  }

  /** A source with a baseline still to be acknowledged has the priority of the queue. */
  ghost predicate Queued(s: Schedule) {
    forall x :: x in s.rows && s.rows[x].baselineEpoch > s.rows[x].acknowledgedEpoch ==> s.rows[x].priority == 0
  }

  lemma StepKeepsQueued(s: Schedule, step: Step)
    requires Queued(s) && Honest(s, step)
    ensures Queued(After(s, step))
  {
  }

  ghost predicate HonestRun(s: Schedule, steps: seq<Step>)
    decreases |steps|
  {
    steps == [] || (Honest(s, steps[0]) && HonestRun(After(s, steps[0]), steps[1..]))
  }

  /** Over every run, a source with an unacknowledged baseline has the priority of the queue, whatever is served, hinted
      or probed. Whether it is also read is another matter: see ListedIff. */
  lemma {:induction false} UnacknowledgedStayQueued(s: Schedule, steps: seq<Step>)
    requires Queued(s) && HonestRun(s, steps)
    ensures Queued(Play(s, steps))
    decreases |steps|
  {
    if steps != [] {
      StepKeepsQueued(s, steps[0]);
      hide After, Queued, Honest;
      UnacknowledgedStayQueued(After(s, steps[0]), steps[1..]);
    }
  }

  // ---------------------------------------------------------------- who is read

  /** Whoever is queued is in one of the two tiers that are read. */
  ghost predicate Listed(s: Schedule) {
    forall x :: x in s.rows && s.rows[x].priority == 0 ==> s.rows[x].tier <= 1
  }

  /** What is written back queues a row in a tier that nobody reads: priority 0 for a row of tier 2, without a
      generation that would put it in tier 0. */
  predicate HidesBy(was: Entry, patch: Patch) {
    !(patch.expectedHintVersion.Some? && patch.expectedHintVersion.value != was.hintVersion)
    && ((patch.priority == Some(0) && patch.observedGeneration.None? && Or(patch.tier, was.tier) > 1)
        || (patch.priority.None? && was.priority == 0 && Or(patch.tier, 0) > 1))
  }

  /** A touch queues a caught-up row whose baseline is behind, but leaves it in its tier; and the row is then no longer
      behind, so that the new baseline passes it by. */
  ghost predicate Hides(s: Schedule, step: Step) {
    match step
    case Touch(ids) =>
      exists x :: x in ids && x in s.rows && s.rows[x].baselineEpoch < s.baselineEpoch && s.rows[x].tier > 1
    case Serve(id, patch) => HidesBy(RowOf(s, id), patch)
    case _ => false
  }

  lemma ServeListsIff(was: Entry, patch: Patch, turn: nat)
    requires was.priority == 0 ==> was.tier <= 1
    ensures (ServedRow(was, patch, turn).priority == 0 ==> ServedRow(was, patch, turn).tier <= 1) <==> !HidesBy(was, patch)
  {
  }

  lemma StepListsIff(s: Schedule, step: Step)
    requires Listed(s)
    ensures Listed(After(s, step)) <==> !Hides(s, step)
  {
    var t := After(s, step);
    match step
    case Touch(ids) =>
      if x :| x in ids && x in s.rows && s.rows[x].baselineEpoch < s.baselineEpoch && s.rows[x].tier > 1 {
        assert t.rows[x].priority == 0 && t.rows[x].tier > 1;
      }
    case Serve(id, patch) =>
      ServeListsIff(RowOf(s, id), patch, s.fairTurn + 1);
      hide ServedRow, HidesBy;
      assert t.rows[id] == ServedRow(RowOf(s, id), patch, s.fairTurn + 1);
    case _ =>
  }

  ghost predicate ListedThroughout(s: Schedule, steps: seq<Step>)
    decreases |steps|
  {
    Listed(s) && (steps == [] || ListedThroughout(After(s, steps[0]), steps[1..]))
  }

  ghost predicate HidesNothing(s: Schedule, steps: seq<Step>)
    decreases |steps|
  {
    steps == [] || (!Hides(s, steps[0]) && HidesNothing(After(s, steps[0]), steps[1..]))
  }

  /** Over every run, whoever is queued is at all times in a tier that is read, if and only if no step hides a row: no
      caught-up row is touched between a new baseline and its own rebase, or queued without a generation. */
  lemma {:induction false} ListedIff(s: Schedule, steps: seq<Step>)
    requires Listed(s)
    ensures ListedThroughout(s, steps) <==> HidesNothing(s, steps)
    decreases |steps|
  {
    hide Listed, Hides, After;
    if steps != [] {
      StepListsIff(s, steps[0]);
      if Listed(After(s, steps[0])) { ListedIff(After(s, steps[0]), steps[1..]); }
      Unlisted(After(s, steps[0]), steps[1..]);
    }
  }

  lemma Unlisted(s: Schedule, steps: seq<Step>)
    ensures ListedThroughout(s, steps) ==> Listed(s)
  {
  }

  lemma {:induction false} ListedAtTheEnd(s: Schedule, steps: seq<Step>)
    requires Listed(s) && HidesNothing(s, steps)
    ensures Listed(Play(s, steps))
    decreases |steps|
  {
    hide After, Listed, Hides;
    if steps != [] {
      StepListsIff(s, steps[0]);
      ListedAtTheEnd(After(s, steps[0]), steps[1..]);
    }
  }

  /** In such a run a source with a baseline still to be acknowledged is queued where it is read. */
  lemma UnacknowledgedAreRead(s: Schedule, steps: seq<Step>)
    requires Queued(s) && Listed(s) && HonestRun(s, steps) && HidesNothing(s, steps)
    ensures var t := Play(s, steps);
      forall x :: x in t.rows && t.rows[x].baselineEpoch > t.rows[x].acknowledgedEpoch ==>
        t.rows[x].priority == 0 && t.rows[x].tier <= 1
  {
    hide After, Hides, Play;
    UnacknowledgedStayQueued(s, steps);
    ListedAtTheEnd(s, steps);
  }

  const NO_PATCH := Patch(None, None, None, None, None, None, None, None)

  /** A source is found, served and caught up; a new baseline is asked for, the source is found again before its row is
      rebased, and then rebased. It ends queued for a baseline nobody has acknowledged, in a tier nobody reads. */
  lemma TouchedTooEarly(x: string)
    ensures var steps := [Touch({x}), Serve(x, NO_PATCH.(priority := Some(1))), NewBaselines, Touch({x}), Rebase({x})];
      var t := Play(Schedule(map[], 0, 0), steps);
      x in t.rows && t.rows[x].priority == 0 && t.rows[x].tier == 2 && t.rows[x].nextEligibleAt == 0
      && t.rows[x].baselineEpoch == t.baselineEpoch == 1 && t.rows[x].acknowledgedEpoch == 0
  {
    var s0 := Schedule(map[], 0, 0);
    var a, b, c, d := Touch({x}), Serve(x, NO_PATCH.(priority := Some(1))), NewBaselines, Rebase({x});
    var s1 := After(s0, a);
    assert x in s1.rows && s1.rows[x].priority == 0 && s1.rows[x].tier == 1 && s1.rows[x].baselineEpoch == 0;
    var s2 := After(s1, b);
    assert s2.rows[x].priority == 1 && s2.rows[x].tier == 2 && s2.rows[x].baselineEpoch == 0;
    var s3 := After(s2, c);
    var s4 := After(s3, a);
    assert s4.rows[x].priority == 0 && s4.rows[x].tier == 2 && s4.rows[x].baselineEpoch == 1;
    var s5 := After(s4, d);
    PlayFive(s0, a, b, c, a, d);
  }

  lemma PlayFive(s: Schedule, a: Step, b: Step, c: Step, d: Step, e: Step)
    ensures Play(s, [a, b, c, d, e]) == After(After(After(After(After(s, a), b), c), d), e)
  {
    hide After;
    assert [a, b, c, d, e][1..] == [b, c, d, e] && [b, c, d, e][1..] == [c, d, e];
    assert [c, d, e][1..] == [d, e] && [d, e][1..] == [e] && [e][1..] == [];
    var s3 := After(After(After(s, a), b), c);
    assert Play(s3, [d, e]) == Play(After(s3, d), [e]) == Play(After(After(s3, d), e), []);
    assert Play(s, [a, b, c, d, e]) == Play(After(s, a), [b, c, d, e]);
    assert Play(After(s, a), [b, c, d, e]) == Play(After(After(s, a), b), [c, d, e]);
  }

  /** The queued sources known to have changed. */
  ghost function Known(s: Schedule): set<string> { set x | x in s.rows && s.rows[x].priority == 0 && s.rows[x].tier == 0 }

  /** A source becomes known to have changed by a hint, by a baseline it has not had, or by being served itself; a probe
      makes nobody known and forgets nobody. */
  lemma KnownBy(s: Schedule, step: Step)
    ensures var t := After(s, step);
      (step.Hint? ==> Known(t) == Known(s) + step.ids) && (step.Probe? || step.NewBaselines? ==> Known(t) == Known(s))
      && (step.Rebase? ==> Known(t) == Known(s) + set x | x in s.rows && x in step.ids && s.rows[x].baselineEpoch < s.baselineEpoch)
      && (step.Serve? ==> Known(t) - {step.id} == Known(s) - {step.id})
      && (step.Touch? ==> Known(s) <= Known(t) <= Known(s) + step.ids)
  {
    var t := After(s, step);
    forall x
      ensures x in Known(t) <==> x in t.rows && t.rows[x].priority == 0 && t.rows[x].tier == 0
      ensures x in Known(s) <==> x in s.rows && s.rows[x].priority == 0 && s.rows[x].tier == 0
    {
    }
  }
}
