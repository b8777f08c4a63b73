/** What the optimistic capture achieves: once the website is quiet, a capture under way seals, after a bounded number
    of transactions, at the present generation, as long as it has catch-up passes left; and a new one always does. */
module CaptureProgress {
  import opened Collections
  import opened DirtyLedger
  import opened DirtyGarbage
  import opened CaptureModel
  import opened CaptureProof

  // ---------------------------------------------------------------- pages that get on

  /** The generation rows a change scan has yet to read. */
  function ChangeRest(s: Source, after: nat, target: nat, cursor: Cursor): set<GenKey> {
    set g | g in s.ledger.generations && InRange(s.ledger, after, target, g) && ChangeAhead(cursor, g)
  }

  /** The keys and the stores a baseline scan has yet to pass. */
  ghost function KeysLeft(s: Source, cursor: Cursor): set<Loc> { set l | l in s.data && !Passed(s.names, cursor, l) }

  function StoresLeft(s: Source, cursor: Cursor): nat {
    if cursor.AtStore? then (if cursor.store <= |s.names| then |s.names| - cursor.store else 0) else |s.names|
  }

  ghost function BaselineLeft(s: Source, cursor: Cursor): nat { |KeysLeft(s, cursor)| + StoresLeft(s, cursor) }

  ghost function PagesLeft(s: Source, j: Job): nat {
    if j.changes then |ChangeRest(s, j.scanAfter, j.scanTarget, j.cursor)| else BaselineLeft(s, j.cursor)
  }

  /** A page that reads at least one row, leaves at least one store behind, or is the last. */
  ghost predicate Advances(s: Source, j: Job, p: Page) {
    p.done || PagesLeft(s, j.(cursor := p.cursor)) < PagesLeft(s, j)
  }

  function Most(s: Source): nat { |s.ledger.generations| + |s.data| + |s.names| }

  lemma PagesBounded(s: Source, j: Job)
    ensures PagesLeft(s, j) <= Most(s)
  {
    SubsetSize(ChangeRest(s, j.scanAfter, j.scanTarget, j.cursor), s.ledger.generations.Keys);
    SubsetSize(KeysLeft(s, j.cursor), s.data.Keys);
  }

  // ---------------------------------------------------------------- a capture while nothing changes

  predicate Stale(w: World, j: Job) { j.target < Current(w).generation }

  /** Enough catch-up passes are left for the changes there have been. */
  predicate Affords(w: World, j: Job) {
    Stale(w, j) ==> j.pass + (if j.phase == SealPhase then 1 else 0) < CATCHUP_PASSES
  }

  /** What the actor holds is what it would read now. */
  predicate UpToDate(w: World, j: Job, pending: Pending) {
    match pending
    case Nothing => true
    case Initial(_) => false
    case Read(_) => j.phase == Scan
    case Observed(c) => j.phase == CatchUpPhase && c == Current(w)
    case Probed(steady, _) => j.phase == SealPhase && steady == SealMatches(j, Current(w))
  }

  /** A capture of the present incarnation, schema and epochs, not yet sealed. */
  ghost predicate Under(w: World, lim: Limits) {
    Inv(w, lim) && w.job.Some? && w.actor.Working? && !Sealed(w.job.value) && Proof(w.job.value.initial, Current(w))
    && UpToDate(w, w.job.value, w.actor.pending)
  }

  /** The actor's transactions on the way to a seal. */
  predicate OnTheWay(s: Step) {
    s.CommitSchema? || s.ReadPage? || s.CommitPage? || s.Observe? || s.CatchUp? || s.Probe? || s.CommitSeal?
  }

  ghost predicate Gets(w: World, s: Step) { s.ReadPage? && w.job.Some? ==> Advances(w.source, w.job.value, s.page) }

  /** An upper bound on the transactions still to come. */
  ghost function StepsLeft(w: World): nat
    requires w.job.Some? && w.actor.Working?
  {
    var j, pending, most := w.job.value, w.actor.pending, Most(w.source);
    var more := if Stale(w, j) then 2 * most + 4 else 0;
    match j.phase
    case SchemaPhase => 2 * most + 7 + more
    case Scan =>
      more + (if pending.Read? then (if pending.page.done then 5 else 2 * PagesLeft(w.source, AfterPage(j, pending.page)) + 7)
              else 2 * PagesLeft(w.source, j) + 6)
    case CatchUpPhase => more + if pending.Observed? then 3 else 4
    case SealPhase => (if Stale(w, j) then 2 * most + 8 else 0) + if pending.Probed? then 1 else 2
    case _ => 0
  }

  /** The same capture, on the same source. */
  predicate SameCapture(w: World, w': World) {
    w'.source == w.source && w.job.Some? && w'.job.Some?
    && w'.job.value.version == w.job.value.version && w'.job.value.initial == w.job.value.initial
    && w'.job.value.baseline == w.job.value.baseline && w'.job.value.parent == w.job.value.parent
  }

  /** The job is sealed at the present generation. */
  predicate SealedNow(w: World) {
    w.job.Some? && w.actor == Working(Nothing) && w.job.value.phase == PartsPhase && w.job.value.version in w.versions
    && var (j, v) := (w.job.value, w.versions[w.job.value.version]);
    v.cut == Current(w).generation && v.incarnation == Current(w).incarnation && v.trackingEpoch == Current(w).trackingEpoch
    && v.baseline == j.baseline && v.records == w.records
  }

  predicate DroppedNow(w: World) { w.job.None? && w.records == map[] && w.actor == Idle }

  /** What one transaction of a capture comes to. */
  ghost predicate Advanced(w: World, w': World, lim: Limits)
    requires w.job.Some? && w.actor.Working?
  {
    var afford := Affords(w, w.job.value);
    || (Under(w', lim) && SameCapture(w, w') && StepsLeft(w') < StepsLeft(w) && (Affords(w', w'.job.value) <==> afford))
    || (afford && SealedNow(w') && SameCapture(w, w'))
    || (!afford && DroppedNow(w') && w'.source == w.source)
  }

  lemma NotPinned(w: World, lim: Limits)
    requires Under(w, lim)
    ensures !Pinned(w) && w.job.value.target <= Current(w).generation
  {
  }

  lemma SchemaAdvances(w: World, lim: Limits)
    requires Under(w, lim) && Enabled(w, CommitSchema, lim)
    ensures Advanced(w, Next(w, CommitSchema, lim), lim)
  {
    var w' := Next(w, CommitSchema, lim);
    StepKeeps(w, CommitSchema, lim);
    PagesBounded(w.source, w'.job.value);
    hide Inv, PagesLeft, Proof;
  }

  lemma ReadAdvances(w: World, p: Page, lim: Limits)
    requires Under(w, lim) && Enabled(w, ReadPage(p), lim) && Advances(w.source, w.job.value, p)
    ensures Advanced(w, Next(w, ReadPage(p), lim), lim)
  {
    StepKeeps(w, ReadPage(p), lim);
    hide Inv, IsPage, Proof;
    SamePages(w.source, w.job.value, p.cursor);
  }

  /** Only the cursor and the range of a job tell how much is left. */
  lemma SamePages(s: Source, j: Job, cursor: Cursor)
    ensures PagesLeft(s, j.(cursor := cursor)) == PagesLeft(s, AfterPage(j, Page(map[], false, cursor)))
  {
  }

  /** The job of a world after a transaction, with nothing held in memory. */
  predicate Goes(w: World, w': World, j: Job) {
    w'.source == w.source && w'.job == Some(j) && w'.actor == Working(Nothing) && w.job.Some?
  }

  lemma GoesUnder(w: World, w': World, j: Job, lim: Limits)
    requires Under(w, lim) && Inv(w', lim) && Goes(w, w', j) && !Sealed(j)
    requires j.initial == w.job.value.initial && j.version == w.job.value.version
    requires j.baseline == w.job.value.baseline && j.parent == w.job.value.parent
    ensures Under(w', lim) && SameCapture(w, w')
  {
    hide Inv, Proof;
  }

  lemma CommitGoes(w: World, lim: Limits)
    requires Enabled(w, CommitPage, lim)
    ensures Goes(w, Next(w, CommitPage, lim), AfterPage(w.job.value, w.actor.pending.page))
  {
    hide AfterPage;
  }

  lemma CommitWork(w: World, w': World)
    requires w.job.Some? && w.job.value.phase == Scan && w.actor.Working? && w.actor.pending.Read?
    requires Goes(w, w', AfterPage(w.job.value, w.actor.pending.page))
    ensures StepsLeft(w') < StepsLeft(w) && (Affords(w', w'.job.value) <==> Affords(w, w.job.value))
  {
    hide PagesLeft;
  }

  lemma CommitAdvances(w: World, lim: Limits)
    requires Under(w, lim) && Enabled(w, CommitPage, lim)
    ensures Advanced(w, Next(w, CommitPage, lim), lim)
  {
    StepKeeps(w, CommitPage, lim);
    CommitGoes(w, lim);
    assert w.job.value.phase == Scan;
    var w' := Next(w, CommitPage, lim);
    var j := AfterPage(w.job.value, w.actor.pending.page);
    CommitWork(w, w');
    assert !Sealed(j);
    hide Inv, Next, Enabled, Goes, StepsLeft, Affords, Under;
    GoesUnder(w, w', j, lim);
  }

  lemma ObserveAdvances(w: World, lim: Limits)
    requires Under(w, lim) && Enabled(w, Observe, lim)
    ensures Advanced(w, Next(w, Observe, lim), lim)
  {
    StepKeeps(w, Observe, lim);
    hide Inv, PagesLeft, Proof;
  }

  /** What a catch-up does when the capture is of the present schema and epochs. */
  lemma CatchUpGoes(w: World, lim: Limits)
    requires Under(w, lim) && Enabled(w, CatchUp, lim)
    ensures var (w', j) := (Next(w, CatchUp, lim), w.job.value);
      if Affords(w, j) then Goes(w, w', AfterCatchUp(j, Current(w))) else w'.source == w.source && DroppedNow(w')
  {
    NotPinned(w, lim);
    hide Inv, Proof, AfterCatchUp;
  }

  lemma CatchUpWork(w: World, w': World)
    requires w.job.Some? && w.job.value.phase == CatchUpPhase && w.actor.Working? && w.actor.pending.Observed?
    requires w.job.value.target <= Current(w).generation && Goes(w, w', AfterCatchUp(w.job.value, Current(w)))
    ensures StepsLeft(w') < StepsLeft(w) && Affords(w', w'.job.value)
  {
    PagesBounded(w.source, w'.job.value);
    hide PagesLeft;
  }

  lemma CatchUpAdvances(w: World, lim: Limits)
    requires Under(w, lim) && Enabled(w, CatchUp, lim)
    ensures Advanced(w, Next(w, CatchUp, lim), lim)
  {
    StepKeeps(w, CatchUp, lim);
    NotPinned(w, lim);
    CatchUpGoes(w, lim);
    var w', j := Next(w, CatchUp, lim), AfterCatchUp(w.job.value, Current(w));
    assert w.job.value.phase == CatchUpPhase && !Sealed(j);
    if Affords(w, w.job.value) { CatchUpWork(w, w'); }
    hide Inv, Next, Enabled, Goes, StepsLeft, Affords, Under, DroppedNow;
    if Affords(w, w.job.value) { GoesUnder(w, w', j, lim); }
  }

  lemma ProbeAdvances(w: World, lim: Limits)
    requires Under(w, lim) && Enabled(w, Probe, lim)
    ensures Advanced(w, Next(w, Probe, lim), lim)
  {
    StepKeeps(w, Probe, lim);
    hide Inv, PagesLeft, Proof;
  }

  /** A capture at the present generation passes the probe. */
  lemma ProbeMatches(w: World, lim: Limits)
    requires Under(w, lim) && w.job.value.phase == SealPhase
    ensures SealMatches(w.job.value, Current(w)) <==> !Stale(w, w.job.value)
  {
    NotPinned(w, lim);
    assert JobShape(w, w.job.value);
  }

  lemma SealGoes(w: World, lim: Limits)
    requires Under(w, lim) && Enabled(w, CommitSeal, lim)
    ensures var (w', j) := (Next(w, CommitSeal, lim), w.job.value);
      if !Stale(w, j) then SealedNow(w') && SameCapture(w, w')
      else if j.pass < CATCHUP_PASSES then Goes(w, w', j.(phase := CatchUpPhase, pass := j.pass + 1))
      else w'.source == w.source && DroppedNow(w')
  {
    NotPinned(w, lim);
    ProbeMatches(w, lim);
    var j, probed := w.job.value, w.actor.pending;
    assert w.actor.Working? && probed.Probed? && j.phase == SealPhase && probed.steady == SealMatches(j, Current(w));
    assert j.initial.incarnation == Current(w).incarnation;
    assert Next(w, CommitSeal, lim) == AfterSealCommit(w, j, probed.steady, probed.acknowledged);
    hide Inv, Under, Next, Enabled, Proof;
    SealCommitGoes(w, j, probed.steady, probed.acknowledged);
  }

  lemma SealCommitGoes(w: World, j: Job, steady: bool, acknowledged: nat)
    requires w.job == Some(j) && j.phase == SealPhase && !Pinned(w) && j.target <= Current(w).generation
    requires j.initial.incarnation == Current(w).incarnation
    requires steady == SealMatches(j, Current(w)) && (steady <==> !Stale(w, j))
    ensures var w' := AfterSealCommit(w, j, steady, acknowledged);
      if !Stale(w, j) then SealedNow(w') && SameCapture(w, w')
      else if j.pass < CATCHUP_PASSES then Goes(w, w', j.(phase := CatchUpPhase, pass := j.pass + 1))
      else w'.source == w.source && DroppedNow(w')
  {
    hide Image;
  }

  lemma RetryWork(w: World, w': World)
    requires w.job.Some? && w.job.value.phase == SealPhase && w.actor.Working? && w.actor.pending.Probed?
    requires Stale(w, w.job.value) && Goes(w, w', w.job.value.(phase := CatchUpPhase, pass := w.job.value.pass + 1))
    ensures StepsLeft(w') < StepsLeft(w) && (Affords(w', w'.job.value) <==> Affords(w, w.job.value))
  {
    hide PagesLeft;
  }

  lemma AffordsAtSeal(w: World, j: Job)
    requires j.phase == SealPhase
    ensures !Stale(w, j) ==> Affords(w, j)
    ensures Stale(w, j) && j.pass >= CATCHUP_PASSES ==> !Affords(w, j)
  {
  }

  lemma SealParts(w: World, lim: Limits)
    requires Under(w, lim) && Enabled(w, CommitSeal, lim)
    ensures Inv(w, lim) && w.job.Some? && w.job.value.phase == SealPhase && w.actor.Working? && w.actor.pending.Probed?
  {
    hide Inv;
  }

  lemma SealAdvances(w: World, lim: Limits)
    requires Under(w, lim) && Enabled(w, CommitSeal, lim)
    ensures Advanced(w, Next(w, CommitSeal, lim), lim)
  {
    hide Inv, Next, Enabled, Goes, StepsLeft, Affords, Under, DroppedNow, SealedNow, Stale, Proof;
    SealParts(w, lim);
    StepKeeps(w, CommitSeal, lim);
    SealGoes(w, lim);
    AffordsAtSeal(w, w.job.value);
    var w', j := Next(w, CommitSeal, lim), w.job.value.(phase := CatchUpPhase, pass := w.job.value.pass + 1);
    if Stale(w, w.job.value) && w.job.value.pass < CATCHUP_PASSES {
      RetryWork(w, w');
      GoesUnder(w, w', j, lim);
    }
  }

  /** While nothing changes, every transaction of the actor brings the capture closer: to a seal at the present
      generation if it can afford its passes, and to being given up if it cannot. */
  lemma StepAdvances(w: World, s: Step, lim: Limits)
    requires Under(w, lim) && Enabled(w, s, lim) && OnTheWay(s) && Gets(w, s)
    ensures Advanced(w, Next(w, s, lim), lim)
  {
    hide Advanced, Under, Next;
    match s
    case CommitSchema => SchemaAdvances(w, lim);
    case ReadPage(p) => ReadAdvances(w, p, lim);
    case CommitPage => CommitAdvances(w, lim);
    case Observe => ObserveAdvances(w, lim);
    case CatchUp => CatchUpAdvances(w, lim);
    case Probe => ProbeAdvances(w, lim);
    case CommitSeal => SealAdvances(w, lim);
  }

  // ---------------------------------------------------------------- there is always a next transaction

  function Changed(rest: set<GenKey>): set<Loc> { set g | g in rest :: g.loc }

  ghost function ChangeOf(rest: set<GenKey>, loc: Loc): GenKey
    requires loc in Changed(rest)
  {
    var g :| g in rest && g.loc == loc;
    g
  }

  /** Everything the running scan has left, in one page. */
  ghost function WholePage(s: Source, j: Job): Page {
    if j.changes then
      var rest := ChangeRest(s, j.scanAfter, j.scanTarget, j.cursor);
      Page(map loc | loc in Changed(rest) :: RowOf(s.ledger.generations[ChangeOf(rest, loc)], s.data), true, j.cursor)
    else Page(map loc | loc in KeysLeft(s, j.cursor) :: Put(s.data[loc]), true, AtStore(0, None))
  }

  lemma WholePageIs(s: Source, j: Job)
    ensures IsPage(s, j, WholePage(s, j)) && Advances(s, j, WholePage(s, j))
  {
    var p := WholePage(s, j);
    if j.changes {
      var rest := ChangeRest(s, j.scanAfter, j.scanTarget, j.cursor);
      forall loc | loc in p.records
        ensures exists g :: g in s.ledger.generations && InRange(s.ledger, j.scanAfter, j.scanTarget, g) && g.loc == loc
                            && p.records[loc] == RowOf(s.ledger.generations[g], s.data)
      {
        assert ChangeOf(rest, loc) in rest;
      }
      forall g | g in s.ledger.generations && InRange(s.ledger, j.scanAfter, j.scanTarget, g)
        ensures !ChangeAhead(j.cursor, g) || g.loc in p.records
      {
        if ChangeAhead(j.cursor, g) { assert g in rest && g.loc in Changed(rest); }
      }
    }
  }

  function NextStep(w: World, page: Page): Step
    requires w.job.Some? && w.actor.Working?
  {
    match w.actor.pending
    case Read(_) => CommitPage
    case Observed(_) => CatchUp
    case Probed(_, _) => CommitSeal
    case _ =>
      match w.job.value.phase
      case SchemaPhase => CommitSchema
      case Scan => ReadPage(page)
      case CatchUpPhase => Observe
      case _ => Probe
  }

  /** The actor is never stuck before the seal, whichever page it reads. */
  lemma NotStuck(w: World, page: Page, lim: Limits)
    requires Under(w, lim) && (w.job.value.phase == Scan ==> IsPage(w.source, w.job.value, page))
    requires w.job.value.phase == Scan ==> Advances(w.source, w.job.value, page)
    ensures var s := NextStep(w, page); Enabled(w, s, lim) && OnTheWay(s) && Gets(w, s)
  {
    hide Inv, IsPage, PagesLeft, Proof;
  }

  // ---------------------------------------------------------------- runs

  /** The actor's transactions and nothing else, each page getting on. */
  ghost predicate QuietRun(w: World, steps: seq<Step>, lim: Limits, w': World)
    decreases |steps|
  {
    if steps == [] then w == w'
    else OnTheWay(steps[0]) && Enabled(w, steps[0], lim) && Gets(w, steps[0])
         && QuietRun(Next(w, steps[0], lim), steps[1..], lim, w')
  }

  /** Where a run of a capture may end. */
  ghost predicate Ends(w: World, w': World, lim: Limits)
    requires w.job.Some?
  {
    if Affords(w, w.job.value) then SealedNow(w') && SameCapture(w, w') else DroppedNow(w') && w'.source == w.source
  }

  lemma EndsStuck(w: World, s: Step, lim: Limits)
    requires SealedNow(w) || DroppedNow(w)
    ensures !(OnTheWay(s) && Enabled(w, s, lim))
  {
  }

  lemma SameTransits(a: World, b: World, c: World)
    requires SameCapture(a, b) && SameCapture(b, c)
    ensures SameCapture(a, c)
  {
  }

  /** However its pages are cut, a capture left alone makes at most as many transactions as there is work, and where it
      can go no further it has ended: sealed at the present generation if it could afford its passes, dropped if not. */
  lemma {:induction false} QuietRunsEnd(w: World, steps: seq<Step>, lim: Limits, w': World)
    requires Under(w, lim) && QuietRun(w, steps, lim, w')
    ensures |steps| <= StepsLeft(w)
    ensures Ends(w, w', lim) || (Under(w', lim) && StepsLeft(w') + |steps| <= StepsLeft(w) && SameCapture(w, w')
                                 && (Affords(w', w'.job.value) <==> Affords(w, w.job.value)))
    decreases |steps|
  {
    assert w.job.Some? && w.actor.Working?;
    if steps != [] {
      StepAdvances(w, steps[0], lim);
      var mid := Next(w, steps[0], lim);
      if SealedNow(mid) || DroppedNow(mid) {
        if |steps| > 1 { EndsStuck(mid, steps[1], lim); }
        hide Under, StepsLeft, Next, Enabled, SealedNow, DroppedNow, Affords;
        assert steps[1..] == [];
      } else {
        hide Under, StepsLeft, Next, Enabled, SealedNow, DroppedNow, Affords, SameCapture;
        QuietRunsEnd(mid, steps[1..], lim, w');
        if SameCapture(mid, w') { SameTransits(w, mid, w'); }
      }
    } else {
      hide Under, StepsLeft, Affords;
    }
  }

  lemma QuietReaches(w: World, steps: seq<Step>, lim: Limits, w': World)
    requires QuietRun(w, steps, lim, w')
    ensures Reaches(w, steps, lim, w')
    decreases |steps|
  {
    hide Enabled, Next, Gets;
    if steps != [] { QuietReaches(Next(w, steps[0], lim), steps[1..], lim, w'); }
  }

  /** And it does end, with pages of any size: here with the largest. */
  lemma {:induction false} QuietRunExists(w: World, lim: Limits) returns (steps: seq<Step>, w': World)
    requires Under(w, lim)
    ensures QuietRun(w, steps, lim, w') && Ends(w, w', lim)
    decreases StepsLeft(w)
  {
    assert w.job.Some? && w.actor.Working?;
    var page := WholePage(w.source, w.job.value);
    WholePageIs(w.source, w.job.value);
    NotStuck(w, page, lim);
    var s := NextStep(w, page);
    StepAdvances(w, s, lim);
    var mid := Next(w, s, lim);
    hide Under, StepsLeft, Next, Enabled, Affords, Gets, SealedNow, DroppedNow, SameCapture;
    if Ends(w, mid, lim) {
      steps, w' := [s], mid;
      assert [s][1..] == [];
      assert QuietRun(mid, [], lim, mid);
    } else {
      var more;
      more, w' := QuietRunExists(mid, lim);
      steps := [s] + more;
      assert steps[1..] == more;
      if SameCapture(mid, w') { SameTransits(w, mid, w'); }
      EndsFrom(w, mid, w', lim);
    }
  }

  lemma EndsFrom(w: World, mid: World, w': World, lim: Limits)
    requires SameCapture(w, mid) && Ends(mid, w', lim) && (Affords(mid, mid.job.value) <==> Affords(w, w.job.value))
    ensures Ends(w, w', lim)
  {
    hide Affords, SealedNow, DroppedNow;
  }

  // ---------------------------------------------------------------- visits

  /** Of these two control rows of one database, nothing has happened in between that a capture could not follow: it was
      not replaced, cleared, deleted, moved to another schema, and no store of it lost its history. */
  predicate Followable(a: Control, b: Control) {
    (a.incarnation, a.trackingEpoch, a.deleted, a.schemaEpoch, a.storeEpochs)
    == (b.incarnation, b.trackingEpoch, b.deleted, b.schemaEpoch, b.storeEpochs)
  }

  /** A visit to a capture that is still valid goes on with it. */
  lemma ValidJobIsResumed(w: World, parent: Option<VersionId>, lim: Limits)
    requires w.job.Some? && StillValid(w.job.value, parent, Current(w)) && Enabled(w, Visit(parent), lim)
    ensures Reaches(w, [Visit(parent), Admit], lim, w.(actor := Working(Nothing)))
  {
    var a, b := Visit(parent), Admit;
    hide StillValid;
    assert [a, b][1..] == [b] && [b][1..] == [];
    var w1 := Next(w, a, lim);
    assert Reaches(Next(w1, b, lim), [], lim, w.(actor := Working(Nothing)));
    assert Reaches(w1, [b], lim, w.(actor := Working(Nothing)));
  }

  /** The steps of a visit that finds no capture, or one that is of no more use. */
  function Opening(w: World, parent: Option<VersionId>): seq<Step> {
    [Visit(parent)] + (if w.job.Some? then [Reject] else []) + [ReadInitial, StartJob]
  }

  /** What such a visit comes to: nothing when the parent has everything already, and else a new capture. */
  function Begun(w: World, parent: Option<VersionId>): World {
    var c := Current(w);
    var bare := w.(job := None, records := if w.job.Some? then map[] else w.records);
    if c.generation <= c.acknowledged && parent.Some? then bare.(actor := Idle)
    else bare.(job := Some(NewJob(w.nextVersion, parent, c)), records := map[], nextVersion := w.nextVersion + 1,
               actor := Working(Nothing))
  }

  lemma ReachesOn(w: World, s: Step, lim: Limits, rest: seq<Step>, w': World)
    requires Enabled(w, s, lim) && Reaches(Next(w, s, lim), rest, lim, w')
    ensures Reaches(w, [s] + rest, lim, w')
  {
    hide Enabled, Next;
    assert ([s] + rest)[1..] == rest;
  }

  lemma {:induction false} ReachesJoin(w: World, first: seq<Step>, lim: Limits, mid: World, rest: seq<Step>, w': World)
    requires Reaches(w, first, lim, mid) && Reaches(mid, rest, lim, w')
    ensures Reaches(w, first + rest, lim, w')
    decreases |first|
  {
    hide Enabled, Next;
    if first == [] {
      assert first + rest == rest;
    } else {
      assert (first + rest)[1..] == first[1..] + rest;
      ReachesJoin(Next(w, first[0], lim), first[1..], lim, mid, rest, w');
    }
  }

  lemma NoJobIsBegun(w: World, parent: Option<VersionId>, lim: Limits)
    requires w.job.None? && w.actor == Checking(parent, Nothing)
    ensures Reaches(w, [ReadInitial, StartJob], lim, Begun(w, parent))
  {
    var w1 := Next(w, ReadInitial, lim);
    var w2 := Next(w1, StartJob, lim);
    assert w2 == Begun(w, parent);
    hide Begun, NewJob;
    assert Reaches(w2, [], lim, w2);
    ReachesOn(w1, StartJob, lim, [], w2);
    assert [StartJob] + [] == [StartJob];
    ReachesOn(w, ReadInitial, lim, [StartJob], w2);
    assert [ReadInitial] + [StartJob] == [ReadInitial, StartJob];
  }

  lemma CaptureBegins(w: World, parent: Option<VersionId>, lim: Limits)
    requires Enabled(w, Visit(parent), lim) && !Pinned(w)
    requires w.job.Some? ==> !StillValid(w.job.value, parent, Current(w))
    ensures Reaches(w, Opening(w, parent), lim, Begun(w, parent))
  {
    hide StillValid, NewJob;
    var w1 := Next(w, Visit(parent), lim);
    if w.job.Some? {
      var w2 := Next(w1, Reject, lim);
      NoJobIsBegun(w2, parent, lim);
      assert Begun(w2, parent) == Begun(w, parent);
      hide Begun, Next, Enabled, Reaches;
      ReachesOn(w1, Reject, lim, [ReadInitial, StartJob], Begun(w, parent));
      ReachesOn(w, Visit(parent), lim, [Reject] + [ReadInitial, StartJob], Begun(w, parent));
      assert Opening(w, parent) == [Visit(parent)] + ([Reject] + [ReadInitial, StartJob]);
    } else {
      NoJobIsBegun(w1, parent, lim);
      assert Begun(w1, parent) == Begun(w, parent);
      hide Begun, Next, Enabled, Reaches;
      ReachesOn(w, Visit(parent), lim, [ReadInitial, StartJob], Begun(w, parent));
      assert Opening(w, parent) == [Visit(parent)] + [ReadInitial, StartJob];
    }
  }

  /** After the seal the version is packed and returned. */
  lemma SealedReturns(w: World, lim: Limits)
    requires SealedNow(w)
    ensures Reaches(w, [Pack, Return], lim, w.(job := Some(w.job.value.(phase := DonePhase)), actor := Idle))
  {
    var w1 := Next(w, Pack, lim);
    var w2 := Next(w1, Return, lim);
    assert w2 == w.(job := Some(w.job.value.(phase := DonePhase)), actor := Idle);
    assert Reaches(w2, [], lim, w2);
    ReachesOn(w1, Return, lim, [], w2);
    assert [Return] + [] == [Return];
    ReachesOn(w, Pack, lim, [Return], w2);
    assert [Pack] + [Return] == [Pack, Return];
  }

  // ---------------------------------------------------------------- captures that complete

  /** The version's image is what the source holds. */
  ghost predicate ShowsPresent(w: World, v: VersionId) {
    v in w.versions && w.versions[v].cut == Current(w).generation && w.versions[v].incarnation == Current(w).incarnation
    && w.versions[v].image == w.source.data
  }

  lemma SealedShows(w: World, lim: Limits)
    requires Inv(w, lim) && SealedNow(w)
    ensures ShowsPresent(w, w.job.value.version)
  {
    HistoryEndsNow(w, lim);
    assert VersionOk(w, w.versions[w.job.value.version]);
  }

  /** From any world the website has left quiet: a capture under way that can afford its passes completes, keeping its
      job, and its version is the present data. */
  lemma QuietCaptureCompletes(w: World, lim: Limits) returns (steps: seq<Step>, w': World)
    requires Inv(w, lim) && w.actor == Working(Nothing) && w.job.Some? && !Sealed(w.job.value)
    requires Proof(w.job.value.initial, Current(w)) && Affords(w, w.job.value)
    ensures Reaches(w, steps, lim, w') && w'.actor == Idle && SameCapture(w, w') && w'.job.value.phase == DonePhase
    ensures ShowsPresent(w', w.job.value.version)
    ensures w'.versions[w.job.value.version].baseline == w.job.value.baseline
  {
    var quiet, sealed := QuietRunExists(w, lim);
    QuietReaches(w, quiet, lim, sealed);
    RunKeeps(w, quiet, lim, sealed);
    SealedShows(sealed, lim);
    SealedReturns(sealed, lim);
    steps, w' := quiet + [Pack, Return], sealed.(job := Some(sealed.job.value.(phase := DonePhase)), actor := Idle);
    hide Inv, Proof, QuietRun, Reaches, Affords;
    ReachesJoin(w, quiet, lim, sealed, [Pack, Return], w');
  }

  /** A visit to a capture over the same parent that is neither finished nor marked, once the website is quiet, goes on
      with it and completes it. */
  lemma ResumedVisitCompletes(w: World, parent: Option<VersionId>, lim: Limits) returns (steps: seq<Step>, w': World)
    requires Inv(w, lim) && Enabled(w, Visit(parent), lim) && w.job.Some? && !Sealed(w.job.value)
    requires w.job.value.parent == parent != Some(w.job.value.version) && !w.job.value.invalidated
    requires Followable(w.job.value.initial, Current(w)) && Affords(w, w.job.value)
    ensures Reaches(w, steps, lim, w') && w'.actor == Idle && SameCapture(w, w') && w'.job.value.phase == DonePhase
    ensures ShowsPresent(w', w.job.value.version)
  {
    var w1 := w.(actor := Working(Nothing));
    ValidJobIsResumed(w, parent, lim);
    RunKeeps(w, [Visit(parent), Admit], lim, w1);
    assert Affords(w1, w1.job.value) && Proof(w1.job.value.initial, Current(w1));
    hide Inv, Enabled, Reaches, Proof, Affords, StillValid, ShowsPresent;
    var more;
    more, w' := QuietCaptureCompletes(w1, lim);
    steps := [Visit(parent), Admit] + more;
    ReachesJoin(w, [Visit(parent), Admit], lim, w1, more, w');
    SameTransits(w, w1, w');
  }

  /** A source with something to back up is backed up: a visit to it, when no capture of use is under way, begins one,
      of everything if there is no parent or a baseline is required and else of the changes, and completes it. */
  lemma QuietVisitCompletes(w: World, parent: Option<VersionId>, lim: Limits) returns (steps: seq<Step>, w': World)
    requires Inv(w, lim) && Enabled(w, Visit(parent), lim) && !Pinned(w)
    requires w.job.Some? ==> !StillValid(w.job.value, parent, Current(w))
    requires Current(w).generation > Current(w).acknowledged || parent.None?
    ensures Reaches(w, steps, lim, w') && w'.source == w.source && w'.actor == Idle
    ensures w'.job.Some? && w'.job.value.version == w.nextVersion && w'.job.value.phase == DonePhase
    ensures ShowsPresent(w', w.nextVersion)
    ensures w'.versions[w.nextVersion].baseline <==> parent.None? || Current(w).baselineRequired
  {
    CaptureBegins(w, parent, lim);
    var w1 := Begun(w, parent);
    RunKeeps(w, Opening(w, parent), lim, w1);
    assert w1.job == Some(NewJob(w.nextVersion, parent, Current(w))) && w1.source == w.source;
    assert w1.actor == Working(Nothing) && Affords(w1, w1.job.value) && Proof(w1.job.value.initial, Current(w1));
    assert !Sealed(w1.job.value);
    hide Inv, Enabled, Reaches, Proof, Affords, Begun, Opening, ShowsPresent;
    var more;
    more, w' := QuietCaptureCompletes(w1, lim);
    steps := Opening(w, parent) + more;
    ReachesJoin(w, Opening(w, parent), lim, w1, more, w');
  }

  /** A source whose parent has everything is left alone. */
  lemma NothingToBackUp(w: World, parent: Option<VersionId>, lim: Limits)
    requires Enabled(w, Visit(parent), lim) && w.job.None? && parent.Some?
    requires Current(w).generation <= Current(w).acknowledged
    ensures Reaches(w, [Visit(parent), ReadInitial, StartJob], lim, w)
  {
    CaptureBegins(w, parent, lim);
    assert Begun(w, parent) == w;
    assert Opening(w, parent) == [Visit(parent), ReadInitial, StartJob];
  }

  // ---------------------------------------------------------------- after a change

  /** A capture that observes a generation past its target, of the same incarnation, schema and epochs, and with fewer
      than three passes used, goes on: it keeps its records and scans exactly the generations after the old target. */
  lemma ChangesAreScanned(w: World, lim: Limits)
    requires Inv(w, lim) && Enabled(w, CatchUp, lim)
    requires var (j, c) := (w.job.value, w.actor.pending.control);
      Followable(j.initial, c) && c.generation > j.target && j.pass < 3
    ensures var (w', j, c) := (Next(w, CatchUp, lim), w.job.value, w.actor.pending.control);
      SameCapture(w, w') && w'.records == w.records && w'.actor == Working(Nothing) && w'.versions == w.versions
      && w'.job.value.phase == Scan && w'.job.value.changes && w'.job.value.cursor == Start
      && w'.job.value.pass == j.pass + 1 && w'.job.value.target == c.generation
      && forall g :: InRange(w.source.ledger, w'.job.value.scanAfter, w'.job.value.scanTarget, g)
                     <==> g.epoch == Current(w).trackingEpoch && j.target < g.generation <= c.generation
  {
  }

  /** And if the website is quiet from there, it completes at the generation observed. */
  lemma ChangedCaptureCompletes(data: Data, names: seq<StoreName>, idb: bool, lim: Limits, run: seq<Step>, w: World)
    returns (steps: seq<Step>, w': World)
    requires StoresExist(data, names) && Reaches(InitialWorld(data, names, idb), run, lim, w)
    requires w.actor == Working(Observed(Current(w))) && w.job.Some?
    requires var j := w.job.value; Followable(j.initial, Current(w)) && Current(w).generation > j.target && j.pass < 3
    ensures Reaches(w, steps, lim, w') && w'.actor == Idle && SameCapture(w, w') && w'.job.value.phase == DonePhase
    ensures ShowsPresent(w', w.job.value.version)
  {
    InitialInv(data, names, idb, lim);
    RunKeeps(InitialWorld(data, names, idb), run, lim, w);
    ChangesAreScanned(w, lim);
    var w1 := Next(w, CatchUp, lim);
    StepKeeps(w, CatchUp, lim);
    assert !Sealed(w1.job.value) && Affords(w1, w1.job.value) && Proof(w1.job.value.initial, Current(w1));
    assert Enabled(w, CatchUp, lim);
    hide Inv, Enabled, Next, Proof, Affords, Reaches, ShowsPresent;
    var more;
    more, w' := QuietCaptureCompletes(w1, lim);
    steps := [CatchUp] + more;
    ReachesOn(w, CatchUp, lim, more, w');
    SameTransits(w, w1, w');
  }

  // ---------------------------------------------------------------- no more than has changed

  /** A scan of changes only, whose records are of keys changed after a generation. */
  ghost predicate Lean(w: World, a: nat) {
    w.job.Some? && w.job.value.changes && w.job.value.scanAfter >= a && a <= w.job.value.target
    && (forall loc :: loc in w.records ==> LastChange(w.chronicle.last, loc) > a)
    && (w.actor.Working? && w.actor.pending.Read? ==>
          forall loc :: loc in w.actor.pending.page.records ==> LastChange(w.chronicle.last, loc) > a)
  }

  lemma PageIsLean(w: World, p: Page, a: nat, lim: Limits)
    requires Inv(w, lim) && Lean(w, a) && IsPage(w.source, w.job.value, p)
    ensures forall loc :: loc in p.records ==> LastChange(w.chronicle.last, loc) > a
  {
    var l := w.source.ledger;
    forall loc | loc in p.records
      ensures LastChange(w.chronicle.last, loc) > a
    {
      var g :| g in l.generations && InRange(l, w.job.value.scanAfter, w.job.value.scanTarget, g) && g.loc == loc
               && p.records[loc] == RowOf(l.generations[g], w.source.data);
      var k := DirtyKey(g.epoch, g.storeEpoch, g.loc);
      assert k in l.dirty && l.dirty[k].generation == g.generation;
    }
  }

  lemma StepStaysLean(w: World, s: Step, a: nat, lim: Limits)
    requires Inv(w, lim) && Lean(w, a) && OnTheWay(s) && Enabled(w, s, lim)
    ensures var w' := Next(w, s, lim); DroppedNow(w') || w'.actor == Idle || Lean(w', a)
  {
    if s.ReadPage? { PageIsLean(w, s.page, a, lim); }
    hide Inv, IsPage, Proof, Image, SealMatches;
  }

  lemma {:induction false} QuietRunStaysLean(w: World, steps: seq<Step>, a: nat, lim: Limits, w': World)
    requires Inv(w, lim) && Lean(w, a) && QuietRun(w, steps, lim, w')
    ensures w'.actor == Idle || Lean(w', a)
    decreases |steps|
  {
    hide Inv, Lean, Next, Enabled, Gets;
    if steps != [] {
      StepKeeps(w, steps[0], lim);
      StepStaysLean(w, steps[0], a, lim);
      var mid := Next(w, steps[0], lim);
      if mid.actor == Idle {
        if |steps| > 1 { IdleStuck(mid, steps[1], lim); }
        assert steps[1..] == [];
      } else {
        QuietRunStaysLean(mid, steps[1..], a, lim, w');
      }
    }
  }

  lemma IdleStuck(w: World, s: Step, lim: Limits)
    requires w.actor == Idle
    ensures !(OnTheWay(s) && Enabled(w, s, lim))
  {
  }
}
