/** Every sealed version is the instantaneous state at its cut, whatever the interleaving. */
module CaptureProof {
  import opened Collections
  import opened DirtyLedger
  import opened DirtyGarbage
  import opened CaptureModel

  // ---------------------------------------------------------------- the source and its history

  ghost predicate HistoryAgrees(h: seq<Data>, last: map<Loc, nat>, d: Data) {
    forall loc, g :: LastChange(last, loc) <= g < |h| ==> Lookup(h[g], loc) == Lookup(d, loc)
  }

  ghost predicate SourceInv(w: World, lim: Limits) {
    var l, c := w.source.ledger, w.source.ledger.control;
    && LedgerInv(l, Names(w.source), lim)
    && Covered(l, w.chronicle.last, w.source.data.Keys, w.chronicle.floor)
    && StoresExist(w.source.data, w.source.names)
    && (c.deleted ==> w.source.data == map[])
    && c.incarnation in w.chronicle.histories
    && |w.chronicle.histories[c.incarnation]| == c.generation + 1
    && HistoryAgrees(w.chronicle.histories[c.incarnation], w.chronicle.last, w.source.data)
    && (forall i :: i in w.chronicle.histories ==> i < w.nextIncarnation)
  }

  function Current(w: World): Control { w.source.ledger.control }

  function History(w: World, incarnation: nat): seq<Data> {
    if incarnation in w.chronicle.histories then w.chronicle.histories[incarnation] else []
  }

  /** The committed data of one generation. */
  function StateAt(w: World, incarnation: nat, g: nat): Data {
    if g < |History(w, incarnation)| then History(w, incarnation)[g] else map[]
  }

  lemma SameLookups(a: Data, b: Data)
    requires forall loc :: Lookup(a, loc) == Lookup(b, loc)
    ensures a == b
  {
    forall loc ensures loc in a <==> loc in b {
      assert Lookup(a, loc) == Lookup(b, loc);
    }
    forall loc | loc in a ensures a[loc] == b[loc] {
      assert Lookup(a, loc) == Lookup(b, loc);
    }
  }

  /** The latest entry of the history is the present data. */
  lemma HistoryEndsNow(w: World, lim: Limits)
    requires SourceInv(w, lim)
    ensures History(w, Current(w).incarnation)[Current(w).generation] == w.source.data
  {
    var h := History(w, Current(w).incarnation);
    forall loc ensures Lookup(h[Current(w).generation], loc) == Lookup(w.source.data, loc) {
      assert LastChange(w.chronicle.last, loc) <= Current(w).generation;
    }
    SameLookups(h[Current(w).generation], w.source.data);
  }

  // ---------------------------------------------------------------- versions and publication

  /** Every published cut of an incarnation, except one version's, is at most `b`. */
  ghost predicate PublishedUpTo(w: World, incarnation: nat, b: nat, except: Option<VersionId>) {
    forall v :: v in w.published && v in w.versions && w.versions[v].incarnation == incarnation && except != Some(v) ==>
      w.versions[v].cut <= b
  }

  /** Applying the captured records to the state at any generation from `acknowledged` to the cut gives the cut. */
  ghost predicate Incremental(h: seq<Data>, acknowledged: nat, cut: nat, r: Records)
    requires cut < |h|
  {
    forall g :: acknowledged <= g <= cut ==> Overlay(h[g], r) == h[cut]
  }

  ghost predicate VersionOk(w: World, v: Version) {
    var h := History(w, v.incarnation);
    && v.cut < |h| && v.image == h[v.cut]
    && (!v.baseline && !v.deleted ==> Incremental(h, v.acknowledged, v.cut, v.records))
  }

  ghost predicate VersionsInv(w: World) {
    && (forall v :: v in w.versions ==> v < w.nextVersion && VersionOk(w, w.versions[v]))
    && w.published <= w.versions.Keys
  }

  /** Only cuts of published versions are ever acknowledged. */
  ghost predicate AckInv(w: World) {
    Current(w).acknowledged == 0 ||
    exists v :: v in w.published && v in w.versions && w.versions[v].incarnation == Current(w).incarnation
                && Current(w).acknowledged <= w.versions[v].cut
  }

  function PreparedVersion(w: World): Option<VersionId> {
    if w.prepared.Some? then Some(w.prepared.value.version) else None
  }

  ghost predicate PublicationInv(w: World) {
    && AckInv(w)
    && (w.head.Some? ==>
          && w.head.value in w.versions
          && PublishedUpTo(w, w.versions[w.head.value].incarnation, w.versions[w.head.value].cut, PreparedVersion(w)))
    && (w.prepared.Some? ==>
          w.job.Some? && w.job.value.version == w.prepared.value.version && w.job.value.phase == DonePhase)
    && (w.job.Some? && w.job.value.version in w.published ==>
          w.head == Some(w.job.value.version) || (w.prepared.Some? && w.prepared.value.published))
  }

  // ---------------------------------------------------------------- the capture job

  ghost predicate Live(w: World, j: Job) {
    j.initial.incarnation == Current(w).incarnation && j.initial.trackingEpoch == Current(w).trackingEpoch
  }

  /** The spool already says what this key holds. */
  ghost predicate Settled(w: World, j: Job, r: Records, loc: Loc) {
    if loc in r then (if r[loc].Put? then Lookup(w.source.data, loc) == Some(r[loc].value) else loc !in w.source.data)
    else if j.baseline then loc !in w.source.data
    else LastChange(w.chronicle.last, loc) <= Current(w).acknowledged
  }

  function ChangeKey(w: World, loc: Loc): GenKey {
    GenKey(Current(w).trackingEpoch, LastChange(w.chronicle.last, loc), StoreEpoch(Current(w), loc.store), loc)
  }

  /** The running scan has yet to come to this key. */
  ghost predicate Awaiting(w: World, j: Job, r: Records, loc: Loc) {
    var last := LastChange(w.chronicle.last, loc);
    && j.phase in {SchemaPhase, Scan}
    && if !j.changes then loc in w.source.data && !Passed(w.source.names, j.cursor, loc)
       else Current(w).acknowledged < last && j.scanAfter < last <= j.scanTarget && ChangeAhead(j.cursor, ChangeKey(w, loc))
            && (j.initial.generation < last || loc !in r)
  }

  /** A key is either newer than the target, settled or still awaited. */
  ghost predicate KeyOk(w: World, j: Job, r: Records, loc: Loc) {
    LastChange(w.chronicle.last, loc) > j.target || Settled(w, j, r, loc) || Awaiting(w, j, r, loc)
  }

  ghost predicate Scanning(w: World, j: Job, r: Records) {
    && w.chronicle.floor <= j.initial.generation
    && (!j.baseline ==> w.chronicle.floor <= Current(w).acknowledged)
    && (j.initial.deleted ==> StateAt(w, j.initial.incarnation, j.target) == map[])
    && (!j.initial.deleted ==> forall loc :: KeyOk(w, j, r, loc))
  }

  ghost predicate JobShape(w: World, j: Job) {
    && j.initial.generation <= j.target < |History(w, j.initial.incarnation)|
    && j.initial.incarnation < w.nextIncarnation
    && PublishedUpTo(w, j.initial.incarnation, j.initial.generation, Some(j.version))
    && (j.changes && j.baseline ==> j.initial.generation <= j.scanAfter)
    && (j.changes ==> j.scanTarget == j.target)
    && (!j.changes ==> !j.cursor.AtChange?)
    && (j.phase == SealPhase ==> j.final.trackingEpoch == j.initial.trackingEpoch
                                  && j.final.schemaEpoch == j.initial.schemaEpoch)
    && (!j.baseline ==> j.parent.Some? && ParentOk(w, j.parent.value, j))
    && (!Sealed(j) ==> j.version !in w.published && j.version !in w.versions)
    && (Sealed(j) ==> j.version in w.versions && w.versions[j.version].incarnation == j.initial.incarnation
                      && w.versions[j.version].cut == j.target)
  }

  ghost predicate ParentOk(w: World, p: VersionId, j: Job) {
    && p in w.versions && w.versions[p].incarnation == j.initial.incarnation
    && w.versions[p].cut <= j.initial.generation
    && PublishedUpTo(w, j.initial.incarnation, w.versions[p].cut, Some(j.version))
  }

  ghost predicate JobOk(w: World, j: Job, r: Records) {
    && JobShape(w, j)
    && (!Sealed(j) && j.initial.incarnation == Current(w).incarnation ==>
          && j.initial.trackingEpoch <= Current(w).trackingEpoch && j.target <= Current(w).generation
          && (Live(w, j) ==> Scanning(w, j, r)))
  }

  ghost predicate ObservedOk(w: World, c: Control) {
    && c.incarnation == Current(w).incarnation && c.generation <= Current(w).generation
    && (c.deleted ==> StateAt(w, c.incarnation, c.generation) == map[])
  }

  ghost predicate CutOk(w: World, j: Job, acknowledged: nat) {
    var h := History(w, j.initial.incarnation);
    && j.target < |h| && Image(w, j) == h[j.target]
    && (!j.baseline && !j.initial.deleted ==> Incremental(h, acknowledged, j.target, w.records))
  }

  ghost predicate PendingOk(w: World, j: Job, pending: Pending) {
    match pending
    case Nothing => true
    case Initial(_) => false
    case Read(p) => j.phase == Scan && JobOk(w, AfterPage(j, p), w.records + p.records)
    case Observed(c) => j.phase == CatchUpPhase && ObservedOk(w, c)
    case Probed(steady, acknowledged) => j.phase == SealPhase && (steady ==> CutOk(w, j, acknowledged))
  }

  ghost predicate ActorInv(w: World) {
    match w.actor
    case Idle => true
    case Checking(parent, pending) =>
      && (parent.Some? ==> parent == w.head && parent.value in w.versions
                           && w.versions[parent.value].incarnation == Current(w).incarnation)
      && (pending.Nothing? || (pending.Initial? && w.job.None? && pending.control.incarnation == Current(w).incarnation
                               && JobOk(w, NewJob(w.nextVersion, parent, pending.control), map[])))
    case Working(pending) =>
      w.job.Some? && w.job.value.initial.incarnation == Current(w).incarnation && PendingOk(w, w.job.value, pending)
  }

  ghost predicate JobInv(w: World) {
    w.job.Some? ==> w.job.value.version < w.nextVersion && JobOk(w, w.job.value, w.records)
  }

  ghost predicate Inv(w: World, lim: Limits) {
    SourceInv(w, lim) && VersionsInv(w) && PublicationInv(w) && JobInv(w) && ActorInv(w)
  }

  lemma InitialInv(data: Data, names: seq<StoreName>, idb: bool, lim: Limits)
    requires StoresExist(data, names)
    ensures Inv(InitialWorld(data, names, idb), lim)
  {
    var w := InitialWorld(data, names, idb);
    EmptyLedgerInv(0, Names(w.source), lim);
  }

  // ---------------------------------------------------------------- website transactions

  /** Since the transaction opened, every key either kept its value and stamp or carries this generation; and
      unless markers were given up, stores, epochs and the floor stand. */
  ghost predicate TxnFrom(t0: Txn, t: Txn) {
    var c0, c := t0.ledger.control, t.ledger.control;
    && c.generation == c0.generation && c.acknowledged == c0.acknowledged && c.incarnation == c0.incarnation
    && c.trackingEpoch >= c0.trackingEpoch
    && (forall loc :: LastChange(t.last, loc) == c.generation
                      || (LastChange(t.last, loc) == LastChange(t0.last, loc) && Lookup(t.data, loc) == Lookup(t0.data, loc)))
    && (c.trackingEpoch == c0.trackingEpoch ==>
          t.names == t0.names && t.floor == t0.floor && forall s :: StoreEpoch(c, s) == StoreEpoch(c0, s))
  }

  ghost predicate TxnInv(t: Txn, lim: Limits) {
    && LedgerInv(t.ledger, NamesOf(t.names), lim)
    && Covered(t.ledger, t.last, t.data.Keys, t.floor)
    && StoresExist(t.data, t.names)
    && (t.ledger.control.deleted ==> t.data == map[])
  }

  lemma RecordEffect(t: Txn, w: Write, lim: Limits)
    requires ValidWrite(t, w) && w.input.operation in {Upsert, Delete}
    ensures var t' := ApplyWrite(t, w, lim);
            ItemEffect(t.ledger, w.input, lim, t.last, t.data.Keys, t.floor, NamesOf(t.names),
                       t'.last, t'.data.Keys, t'.floor, NamesOf(t'.names))
  {
    assert w.input.loc.store in NamesOf(t.names);
    assert (t.data - {w.input.loc}).Keys == t.data.Keys - {w.input.loc};
  }

  lemma StructureEffect(t: Txn, w: Write, lim: Limits)
    requires Covered(t.ledger, t.last, t.data.Keys, t.floor) && w.input.operation !in {Upsert, Delete}
    ensures var t' := ApplyWrite(t, w, lim);
            ItemEffect(t.ledger, w.input, lim, t.last, t.data.Keys, t.floor, NamesOf(t.names),
                       t'.last, t'.data.Keys, t'.floor, NamesOf(t'.names))
  {
    var t' := ApplyWrite(t, w, lim);
    forall loc ensures LastChange(t'.last, loc) <= t.ledger.control.generation {
      assert LastChange(t.last, loc) <= t.ledger.control.generation;
    }
  }

  lemma WriteKeepsData(t: Txn, w: Write, lim: Limits)
    requires StoresExist(t.data, t.names) && (t.ledger.control.deleted ==> t.data == map[]) && ValidWrite(t, w)
    ensures var t' := ApplyWrite(t, w, lim);
            StoresExist(t'.data, t'.names) && (t'.ledger.control.deleted ==> t'.data == map[])
  {
  }

  lemma WriteKeeps(t: Txn, w: Write, lim: Limits)
    requires TxnInv(t, lim) && ValidWrite(t, w)
    ensures TxnInv(ApplyWrite(t, w, lim), lim)
  {
    var t' := ApplyWrite(t, w, lim);
    if w.input.operation in {Upsert, Delete} {
      RecordEffect(t, w, lim);
      assert w.input.loc.store in NamesOf(t.names);
    } else {
      StructureEffect(t, w, lim);
    }
    WriteKeepsData(t, w, lim);
    AppendKeepsLedger(t.ledger, w.input, NamesOf(t.names), NamesOf(t'.names), lim);
    AppendKeepsCoverage(t.ledger, w.input, lim, t.last, t.data.Keys, t.floor, NamesOf(t.names),
                        t'.last, t'.data.Keys, t'.floor, NamesOf(t'.names));
  }

  lemma WriteMoves(t: Txn, w: Write, lim: Limits)
    requires forall loc :: LastChange(t.last, loc) <= t.ledger.control.generation
    ensures TxnFrom(t, ApplyWrite(t, w, lim))
  {
  }

  lemma TxnFromTransitive(a: Txn, b: Txn, c: Txn)
    requires TxnFrom(a, b) && TxnFrom(b, c)
    ensures TxnFrom(a, c)
  {
  }

  lemma {:induction false} WritesKeep(t: Txn, ws: seq<Write>, lim: Limits)
    requires TxnInv(t, lim) && ValidWrites(t, ws, lim)
    ensures TxnInv(ApplyWrites(t, ws, lim), lim) && TxnFrom(t, ApplyWrites(t, ws, lim))
    decreases |ws|
  {
    if ws != [] {
      var t1 := ApplyWrite(t, ws[0], lim);
      WriteKeeps(t, ws[0], lim);
      WriteMoves(t, ws[0], lim);
      WritesKeep(t1, ws[1..], lim);
      TxnFromTransitive(t, t1, ApplyWrites(t1, ws[1..], lim));
    }
  }

  // ---------------------------------------------------------------- what an environment step may do to a capture

  /** Only the source moved: it grew new generations, kept its past, and unless markers were given up every key
      either kept its value and stamp or was changed after every generation that existed before. */
  ghost predicate Evolves(w: World, w': World) {
    var c, c' := Current(w), Current(w');
    && w' == w.(source := w'.source, chronicle := w'.chronicle)
    && c'.incarnation == c.incarnation && c'.generation >= c.generation && c'.acknowledged >= c.acknowledged
    && c'.trackingEpoch >= c.trackingEpoch
    && (forall i :: i in w.chronicle.histories <==> i in w'.chronicle.histories)
    && (forall i :: i in w.chronicle.histories ==> w.chronicle.histories[i] <= w'.chronicle.histories[i])
    && (forall loc :: LastChange(w'.chronicle.last, loc) > c.generation
                      || (LastChange(w'.chronicle.last, loc) == LastChange(w.chronicle.last, loc)
                          && Lookup(w'.source.data, loc) == Lookup(w.source.data, loc)))
    && (c'.trackingEpoch == c.trackingEpoch ==>
          && w'.source.names == w.source.names && w'.chronicle.floor == w.chronicle.floor
          && forall s :: s in w.source.names ==> StoreEpoch(c', s) == StoreEpoch(c, s))
  }

  lemma HistoryKept(w: World, w': World, incarnation: nat, g: nat)
    requires Evolves(w, w') && g < |History(w, incarnation)|
    ensures g < |History(w', incarnation)| && History(w', incarnation)[g] == History(w, incarnation)[g]
  {
  }

  /** An unsealed job's incarnation has never acknowledged past the job's start. */
  lemma AckBeforeJob(w: World, j: Job)
    requires AckInv(w) && JobShape(w, j) && !Sealed(j) && j.initial.incarnation == Current(w).incarnation
    ensures Current(w).acknowledged <= j.initial.generation
    ensures !j.baseline ==> Current(w).acknowledged <= w.versions[j.parent.value].cut
  {
  }

  lemma KeyEvolves(w: World, w': World, j: Job, r: Records, loc: Loc, lim: Limits)
    requires SourceInv(w, lim) && SourceInv(w', lim) && Evolves(w, w') && AckInv(w')
    requires JobShape(w, j) && JobShape(w', j) && !Sealed(j) && Live(w, j) && Live(w', j)
    requires j.target <= Current(w).generation && Scanning(w, j, r)
    requires KeyOk(w, j, r, loc)
    ensures KeyOk(w', j, r, loc)
  {
    AckBeforeJob(w', j);
    var last := LastChange(w.chronicle.last, loc);
    if LastChange(w'.chronicle.last, loc) == last && Lookup(w'.source.data, loc) == Lookup(w.source.data, loc)
       && last <= j.target && !Settled(w, j, r, loc) && j.changes {
      assert Awaiting(w, j, r, loc);
      assert MarkedAt(w.source.ledger, loc, last, loc in w.source.data);
      assert loc.store in Names(w.source);
      assert ChangeKey(w', loc) == ChangeKey(w, loc);
    }
  }

  lemma ShapeEvolves(w: World, w': World, j: Job)
    requires Evolves(w, w') && JobShape(w, j)
    ensures JobShape(w', j)
  {
    HistoryKept(w, w', j.initial.incarnation, j.target);
    if !j.baseline {
      assert ParentOk(w, j.parent.value, j);
      assert ParentOk(w', j.parent.value, j);
    }
  }

  lemma JobEvolves(w: World, w': World, j: Job, r: Records, lim: Limits)
    requires SourceInv(w, lim) && SourceInv(w', lim) && Evolves(w, w') && AckInv(w')
    requires JobOk(w, j, r)
    ensures JobOk(w', j, r)
  {
    hide LedgerInv, Covered, StoresExist, HistoryAgrees, Incremental;
    ShapeEvolves(w, w', j);
    if !Sealed(j) && Live(w', j) {
      assert Live(w, j) && Scanning(w, j, r);
      HistoryKept(w, w', j.initial.incarnation, j.target);
      if !j.initial.deleted {
        forall loc ensures KeyOk(w', j, r, loc) {
          assert KeyOk(w, j, r, loc);
          KeyEvolves(w, w', j, r, loc, lim);
        }
      }
    }
  }

  lemma VersionsEvolve(w: World, w': World)
    requires VersionsInv(w) && Evolves(w, w')
    ensures VersionsInv(w')
  {
    forall v | v in w.versions ensures VersionOk(w', w.versions[v]) {
      VersionEvolves(w, w', w.versions[v]);
    }
  }

  lemma VersionEvolves(w: World, w': World, v: Version)
    requires VersionOk(w, v) && Evolves(w, w')
    ensures VersionOk(w', v)
  {
    HistoryKept(w, w', v.incarnation, v.cut);
    if !v.baseline && !v.deleted {
      forall g | v.acknowledged <= g <= v.cut
        ensures Overlay(History(w', v.incarnation)[g], v.records) == History(w', v.incarnation)[v.cut]
      {
        HistoryKept(w, w', v.incarnation, g);
      }
    }
  }

  lemma CutEvolves(w: World, w': World, j: Job, acknowledged: nat)
    requires Evolves(w, w') && CutOk(w, j, acknowledged)
    ensures CutOk(w', j, acknowledged)
  {
    HistoryKept(w, w', j.initial.incarnation, j.target);
    if !j.baseline && !j.initial.deleted {
      var h, h' := History(w, j.initial.incarnation), History(w', j.initial.incarnation);
      forall g | acknowledged <= g <= j.target ensures Overlay(h'[g], w'.records) == h'[j.target] {
        HistoryKept(w, w', j.initial.incarnation, g);
        assert Overlay(h[g], w.records) == h[j.target];
      }
    }
  }

  /** What an evolution leaves alone. */
  lemma EvolvesSame(w: World, w': World)
    requires Evolves(w, w')
    ensures w' == w.(source := w'.source, chronicle := w'.chronicle)
    ensures Current(w').incarnation == Current(w).incarnation && Current(w').generation >= Current(w).generation
  {
  }

  lemma ActorEvolves(w: World, w': World, lim: Limits)
    requires SourceInv(w, lim) && SourceInv(w', lim) && Evolves(w, w') && AckInv(w') && ActorInv(w)
    ensures ActorInv(w')
  {
    hide LedgerInv, Covered, HistoryAgrees, StoresExist, AckInv, JobOk, CutOk;
    EvolvesSame(w, w');
    match w.actor
    case Idle =>
    case Checking(parent, pending) =>
      if pending.Initial? {
        JobEvolves(w, w', NewJob(w.nextVersion, parent, pending.control), map[], lim);
      }
    case Working(pending) =>
      var j := w.job.value;
      match pending
      case Nothing =>
      case Initial(_) =>
      case Read(p) => JobEvolves(w, w', AfterPage(j, p), w.records + p.records, lim);
      case Observed(c) =>
        if c.deleted { HistoryKept(w, w', c.incarnation, c.generation); }
      case Probed(steady, acknowledged) =>
        if steady { CutEvolves(w, w', j, acknowledged); }
  }

  lemma EvolutionKeeps(w: World, w': World, lim: Limits)
    requires Inv(w, lim) && SourceInv(w', lim) && Evolves(w, w') && AckInv(w')
    ensures Inv(w', lim)
  {
    EvolvesSame(w, w');
    hide SourceInv, AckInv, JobOk, ActorInv, VersionOk, Evolves;
    VersionsEvolve(w, w');
    if w.job.Some? {
      JobEvolves(w, w', w.job.value, w.records, lim);
    }
    ActorEvolves(w, w', lim);
  }

  lemma WebsiteOpens(w: World, lim: Limits)
    requires SourceInv(w, lim)
    ensures TxnInv(Opened(w), lim)
  {
    BeginKeeps(w.source.ledger, Names(w.source), lim, w.chronicle.last, w.source.data.Keys, w.chronicle.floor);
    assert Names(w.source) == NamesOf(w.source.names);
  }

  lemma WebsiteSource(w: World, ws: seq<Write>, lim: Limits)
    requires SourceInv(w, lim) && Enabled(w, Website(ws), lim)
    ensures SourceInv(Next(w, Website(ws), lim), lim)
  {
    var w' := Next(w, Website(ws), lim);
    var t := ApplyWrites(Opened(w), ws, lim);
    WebsiteOpens(w, lim);
    WritesKeep(Opened(w), ws, lim);
    assert Names(w'.source) == NamesOf(t.names);
    var h := w.chronicle.histories[Current(w).incarnation];
    forall loc, g | LastChange(t.last, loc) <= g < |h + [t.data]|
      ensures Lookup((h + [t.data])[g], loc) == Lookup(t.data, loc)
    {
      if g < |h| {
        assert Lookup(h[g], loc) == Lookup(w.source.data, loc);
      }
    }
  }

  lemma WebsiteEvolves(w: World, ws: seq<Write>, lim: Limits)
    requires SourceInv(w, lim) && Enabled(w, Website(ws), lim)
    ensures Evolves(w, Next(w, Website(ws), lim))
    ensures Current(Next(w, Website(ws), lim)).acknowledged == Current(w).acknowledged
  {
    hide LedgerInv, Covered, HistoryAgrees;
    WebsiteOpens(w, lim);
    WritesKeep(Opened(w), ws, lim);
  }

  /** An environment step that acknowledges nothing leaves the acknowledged cuts as they were. */
  lemma AckStays(w: World, w': World)
    requires AckInv(w) && Evolves(w, w') && Current(w').acknowledged == Current(w).acknowledged
    ensures AckInv(w')
  {
    EvolvesSame(w, w');
    hide Evolves;
  }

  lemma WebsiteKeeps(w: World, ws: seq<Write>, lim: Limits)
    requires Inv(w, lim) && Enabled(w, Website(ws), lim)
    ensures Inv(Next(w, Website(ws), lim), lim)
  {
    hide Next, SourceInv, Evolves, VersionsInv, JobInv, ActorInv, AckInv;
    WebsiteSource(w, ws, lim);
    WebsiteEvolves(w, ws, lim);
    AckStays(w, Next(w, Website(ws), lim));
    EvolutionKeeps(w, Next(w, Website(ws), lim), lim);
  }

  lemma MaintenanceSource(w: World, maxRows: nat, lim: Limits)
    requires SourceInv(w, lim) && 1 <= maxRows <= 64
    ensures SourceInv(Next(w, Maintenance(maxRows), lim), lim)
  {
    hide LedgerInv, Covered, Collect;
    var w' := Next(w, Maintenance(maxRows), lim);
    var l := w.source.ledger;
    CollectKeepsLedger(l, w.source.saved, maxRows, w.source.idb, Names(w.source), lim);
    CollectKeepsCoverage(l, w.source.saved, maxRows, w.source.idb, Names(w.source), lim, w.chronicle.last, w.source.data.Keys, w.chronicle.floor);
    MaintenanceControl(l, w.source.saved, maxRows, w.source.idb, Names(w.source));
    assert Names(w'.source) == Names(w.source);
  }

  lemma MaintenanceEvolves(w: World, maxRows: nat, lim: Limits)
    requires 1 <= maxRows <= 64
    ensures Evolves(w, Next(w, Maintenance(maxRows), lim))
  {
    MaintenanceControl(w.source.ledger, w.source.saved, maxRows, w.source.idb, Names(w.source));
    forall s | s in w.source.names ensures s in Names(w.source) {
    }
  }

  lemma MaintenanceKeeps(w: World, maxRows: nat, lim: Limits)
    requires Inv(w, lim) && Enabled(w, Maintenance(maxRows), lim)
    ensures Inv(Next(w, Maintenance(maxRows), lim), lim)
  {
    var w' := Next(w, Maintenance(maxRows), lim);
    MaintenanceControl(w.source.ledger, w.source.saved, maxRows, w.source.idb, Names(w.source));
    assert Current(w').acknowledged == Current(w).acknowledged;
    hide Next, SourceInv, Evolves, VersionsInv, JobInv, ActorInv, AckInv;
    MaintenanceSource(w, maxRows, lim);
    MaintenanceEvolves(w, maxRows, lim);
    AckStays(w, w');
    EvolutionKeeps(w, w', lim);
  }

  lemma MaintenanceControl(l: Ledger, p: Progress, maxRows: nat, idb: bool, names: set<StoreName>)
    requires maxRows >= 1
    ensures var c, c' := l.control, Collect(l, p, maxRows, idb, names).ledger.control;
            && c' == c.(dirtyCount := c'.dirtyCount, dirtyBytes := c'.dirtyBytes, storeEpochs := c'.storeEpochs)
            && (forall s :: s in names ==> StoreEpoch(c', s) == StoreEpoch(c, s))
  {
    hide SweepDirty, SweepSizes;
    var d, s := Stages(l, Aim(l.control, p), maxRows, idb, names);
  }

  lemma AdoptSource(w: World, v: VersionId, lim: Limits)
    requires SourceInv(w, lim) && Enabled(w, Adopt(v), lim)
    ensures SourceInv(Next(w, Adopt(v), lim), lim)
  {
    hide LedgerInv, Covered;
    var w' := Next(w, Adopt(v), lim);
    var l := w.source.ledger;
    AcknowledgeKeepsLedger(l, w.versions[v].cut, w.versions[v].trackingEpoch, lim, Names(w.source));
    AcknowledgeKeepsCoverage(l, w.versions[v].cut, w.versions[v].trackingEpoch, w.chronicle.last, w.source.data.Keys, w.chronicle.floor);
    assert Names(w'.source) == Names(w.source);
  }

  lemma AdoptKeeps(w: World, v: VersionId, lim: Limits)
    requires Inv(w, lim) && Enabled(w, Adopt(v), lim)
    ensures Inv(Next(w, Adopt(v), lim), lim)
  {
    hide LedgerInv, Covered, HistoryAgrees, StoresExist, JobOk, PendingOk, VersionOk, PublishedUpTo;
    AdoptSource(w, v, lim);
    var w' := Next(w, Adopt(v), lim);
    assert Evolves(w, w');
    assert AckInv(w');
    EvolutionKeeps(w, w', lim);
  }

  // ---------------------------------------------------------------- a replaced database

  lemma OtherHistories(w: World, w': World, i: nat)
    requires i != w.nextIncarnation && w'.chronicle.histories == w.chronicle.histories[w.nextIncarnation := History(w', w.nextIncarnation)]
    ensures History(w', i) == History(w, i)
  {
  }

  lemma ReplaceKeeps(w: World, data: Data, names: seq<StoreName>, lim: Limits)
    requires Inv(w, lim) && Enabled(w, Replace(data, names), lim)
    ensures Inv(Next(w, Replace(data, names), lim), lim)
  {
    var w' := Next(w, Replace(data, names), lim);
    ReplaceSource(w, data, names, lim);
    hide SourceInv, Incremental, LedgerInv, Covered;
    forall v | v in w'.versions ensures VersionOk(w', w'.versions[v]) {
      assert VersionOk(w, w.versions[v]);
      assert w.versions[v].incarnation in w.chronicle.histories;
      OtherHistories(w, w', w.versions[v].incarnation);
    }
    if w.job.Some? {
      OtherHistories(w, w', w.job.value.initial.incarnation);
      assert JobShape(w', w.job.value);
    }
  }

  lemma ReplaceSource(w: World, data: Data, names: seq<StoreName>, lim: Limits)
    requires SourceInv(w, lim) && Enabled(w, Replace(data, names), lim)
    ensures SourceInv(Next(w, Replace(data, names), lim), lim)
    ensures forall i :: i in w.chronicle.histories ==> i != w.nextIncarnation
  {
    var w' := Next(w, Replace(data, names), lim);
    EmptyLedgerInv(w.nextIncarnation, Names(w'.source), lim);
  }

  // ---------------------------------------------------------------- the actor's reads

  /** A job started from the present control row awaits every key it must capture. */
  lemma NewJobOk(w: World, lim: Limits)
    requires Inv(w, lim) && Enabled(w, ReadInitial, lim)
    ensures JobOk(w, NewJob(w.nextVersion, w.actor.parent, Current(w)), map[])
  {
    var j := NewJob(w.nextVersion, w.actor.parent, Current(w));
    HistoryEndsNow(w, lim);
    forall v | v in w.published && w.versions[v].incarnation == Current(w).incarnation
      ensures w.versions[v].cut <= Current(w).generation
    {
      assert VersionOk(w, w.versions[v]);
    }
    if !j.baseline {
      assert VersionOk(w, w.versions[j.parent.value]);
      assert ParentOk(w, j.parent.value, j);
    }
    forall loc ensures KeyOk(w, j, map[], loc) {
    }
  }

  /** A marker row read in the same transaction as its key's value records the key's present state. */
  lemma ChangeRowTrue(w: World, lim: Limits, g: GenKey)
    requires SourceInv(w, lim) && g in w.source.ledger.generations && g.epoch == Current(w).trackingEpoch
    ensures RowOf(w.source.ledger.generations[g], w.source.data) ==
            if g.loc in w.source.data then Put(w.source.data[g.loc]) else Gone
  {
    var l := w.source.ledger;
    var k := DirtyKey(g.epoch, g.storeEpoch, g.loc);
    assert k in l.dirty && GenKeyOf(k.epoch, l.dirty[k]) == g;
    assert l.generations[g] == l.dirty[k];
  }

  /** A change still awaited has its marker row ahead of the cursor. */
  lemma AwaitedMarker(w: World, j: Job, r: Records, loc: Loc, lim: Limits)
    requires SourceInv(w, lim) && JobShape(w, j) && Scanning(w, j, r) && Awaiting(w, j, r, loc) && j.changes
    ensures ChangeKey(w, loc) in w.source.ledger.generations
  {
    var last := LastChange(w.chronicle.last, loc);
    assert MarkedAt(w.source.ledger, loc, last, loc in w.source.data);
    var k := DirtyKeyOf(Current(w), loc);
    assert GenKeyOf(k.epoch, w.source.ledger.dirty[k]) == ChangeKey(w, loc);
  }

  lemma ChangePageKey(w: World, j: Job, r: Records, p: Page, loc: Loc, lim: Limits)
    requires SourceInv(w, lim) && JobShape(w, j) && Scanning(w, j, r) && j.phase == Scan && j.changes
    requires IsPage(w.source, j, p) && KeyOk(w, j, r, loc)
    ensures KeyOk(w, AfterPage(j, p), r + p.records, loc)
  {
    if loc in p.records {
      var g :| g in w.source.ledger.generations && InRange(w.source.ledger, j.scanAfter, j.scanTarget, g) && g.loc == loc
               && p.records[loc] == RowOf(w.source.ledger.generations[g], w.source.data);
      ChangeRowTrue(w, lim, g);
      assert Settled(w, AfterPage(j, p), r + p.records, loc);
    } else if Settled(w, j, r, loc) {
      assert Settled(w, AfterPage(j, p), r + p.records, loc);
    } else if Awaiting(w, j, r, loc) {
      AwaitedMarker(w, j, r, loc, lim);
      assert InRange(w.source.ledger, j.scanAfter, j.scanTarget, ChangeKey(w, loc));
      assert Awaiting(w, AfterPage(j, p), r + p.records, loc);
    }
  }

  lemma BaselinePageKey(w: World, j: Job, r: Records, p: Page, loc: Loc)
    requires j.phase == Scan && !j.changes
    requires IsPage(w.source, j, p) && KeyOk(w, j, r, loc)
    ensures KeyOk(w, AfterPage(j, p), r + p.records, loc)
  {
    if loc in p.records {
      assert Settled(w, AfterPage(j, p), r + p.records, loc);
    } else if Settled(w, j, r, loc) {
      assert Settled(w, AfterPage(j, p), r + p.records, loc);
    } else if Awaiting(w, j, r, loc) {
      assert Awaiting(w, AfterPage(j, p), r + p.records, loc);
    }
  }

  /** Reading a page moves every key the cursor passed from awaited to settled. */
  lemma PageKeeps(w: World, j: Job, r: Records, p: Page, lim: Limits)
    requires SourceInv(w, lim) && JobOk(w, j, r) && j.phase == Scan && IsPage(w.source, j, p)
    ensures JobOk(w, AfterPage(j, p), r + p.records)
  {
    var j' := AfterPage(j, p);
    if !j.baseline {
      assert ParentOk(w, j.parent.value, j');
    }
    assert JobShape(w, j');
    if Live(w, j) && !j.initial.deleted {
      forall loc ensures KeyOk(w, j', r + p.records, loc) {
        assert KeyOk(w, j, r, loc);
        if j.changes {
          ChangePageKey(w, j, r, p, loc, lim);
        } else {
          BaselinePageKey(w, j, r, p, loc);
        }
      }
    }
  }

  /** A moved generation reopens exactly the keys changed since the old target. */
  lemma CatchUpKeeps(w: World, j: Job, r: Records, c: Control, lim: Limits)
    requires SourceInv(w, lim) && AckInv(w) && JobOk(w, j, r) && j.phase == CatchUpPhase
    requires j.initial.incarnation == Current(w).incarnation
    requires ObservedOk(w, c) && Proof(j.initial, c) && c.generation >= j.target
    ensures JobOk(w, AfterCatchUp(j, c), r)
  {
    hide LedgerInv, Covered, StoresExist, HistoryAgrees, Incremental;
    var j' := AfterCatchUp(j, c);
    if !j.baseline {
      assert ParentOk(w, j.parent.value, j');
    }
    assert JobShape(w, j');
    if Live(w, j) && !j.initial.deleted {
      AckBeforeJob(w, j);
      forall loc ensures KeyOk(w, j', r, loc) {
        assert KeyOk(w, j, r, loc);
      }
    }
  }

  lemma OverlaySettled(base: Data, r: Records, d: Data)
    requires forall loc :: OverlayAt(base, r, loc) == Lookup(d, loc)
    ensures Overlay(base, r) == d
  {
    forall loc ensures Lookup(Overlay(base, r), loc) == Lookup(d, loc) {
      assert OverlayAt(base, r, loc) == Lookup(d, loc);
    }
    SameLookups(Overlay(base, r), d);
  }

  /** When the generation stands at the target every key is settled, so the records over any base that agrees up
      to the acknowledged generation are the present data. */
  lemma SettledOverlay(w: World, j: Job, base: Data, g: nat, lim: Limits)
    requires SourceInv(w, lim) && Live(w, j) && JobOk(w, j, w.records) && j.phase == SealPhase && !j.initial.deleted
    requires Current(w).generation == j.target
    requires if j.baseline then base == map[] else Current(w).acknowledged <= g <= j.target && base == History(w, j.initial.incarnation)[g]
    ensures Overlay(base, w.records) == w.source.data
  {
    forall loc ensures OverlayAt(base, w.records, loc) == Lookup(w.source.data, loc) {
      assert LastChange(w.chronicle.last, loc) <= Current(w).generation;
      assert KeyOk(w, j, w.records, loc);
      assert Settled(w, j, w.records, loc);
    }
    OverlaySettled(base, w.records, w.source.data);
  }

  lemma ProbeKeeps(w: World, j: Job, lim: Limits)
    requires SourceInv(w, lim) && VersionsInv(w) && AckInv(w) && JobOk(w, j, w.records) && j.phase == SealPhase
    requires j.initial.incarnation == Current(w).incarnation && SealMatches(j, Current(w))
    ensures CutOk(w, j, Current(w).acknowledged)
  {
    HistoryEndsNow(w, lim);
    AckBeforeJob(w, j);
    if !j.initial.deleted {
      if j.baseline {
        SettledOverlay(w, j, map[], 0, lim);
      } else {
        var p := w.versions[j.parent.value];
        assert VersionOk(w, p);
        SettledOverlay(w, j, p.image, p.cut, lim);
        forall g | Current(w).acknowledged <= g <= j.target
          ensures Overlay(History(w, j.initial.incarnation)[g], w.records) == History(w, j.initial.incarnation)[j.target]
        {
          SettledOverlay(w, j, History(w, j.initial.incarnation)[g], g, lim);
        }
      }
    }
  }

  // ---------------------------------------------------------------- the actor's commits and the service

  /** Dropping an unpinned job touches nothing that is published or prepared. */
  lemma DropKeeps(w: World, lim: Limits)
    requires SourceInv(w, lim) && VersionsInv(w) && PublicationInv(w) && JobInv(w)
    ensures Inv(Dropped(w).(actor := Idle), lim)
    ensures !Pinned(w) && (w.actor.Checking? ==> w.actor.pending.Nothing?) && !w.actor.Working? && ActorInv(w) ==> Inv(Dropped(w), lim)
  {
    hide LedgerInv, Covered, StoresExist, HistoryAgrees, Incremental, Scanning;
  }

  lemma SealVersions(w: World, w': World, j: Job, acknowledged: nat)
    requires VersionsInv(w) && CutOk(w, j, acknowledged) && j.version < w.nextVersion
    requires w'.chronicle == w.chronicle && w'.published == w.published && w'.nextVersion == w.nextVersion
    requires w'.versions == w.versions[j.version := Version(j.initial.incarnation, j.target, j.final.trackingEpoch, j.baseline,
                                                           j.initial.deleted, acknowledged, w.records, Image(w, j))]
    ensures VersionsInv(w')
  {
    forall v | v in w'.versions ensures v < w'.nextVersion && VersionOk(w', w'.versions[v]) {
      if v != j.version {
        assert VersionOk(w, w.versions[v]);
      }
    }
  }

  lemma SealShape(w: World, w': World, j: Job)
    requires JobShape(w, j) && !Sealed(j)
    requires w'.chronicle == w.chronicle && w'.published == w.published && w'.nextIncarnation == w.nextIncarnation
    requires w'.versions.Keys == w.versions.Keys + {j.version} && forall v :: v in w.versions ==> w'.versions[v] == w.versions[v]
    requires w'.versions[j.version].incarnation == j.initial.incarnation && w'.versions[j.version].cut == j.target
    ensures JobShape(w', j.(phase := PartsPhase))
  {
    if !j.baseline {
      assert ParentOk(w, j.parent.value, j);
      assert ParentOk(w', j.parent.value, j.(phase := PartsPhase));
    }
  }

  lemma SealPublication(w: World, w': World, j: Job)
    requires PublicationInv(w) && w.job == Some(j) && j.version !in w.versions && j.version !in w.published && j.phase == SealPhase
    requires w'.source == w.source && w'.published == w.published && w'.prepared == w.prepared && w'.head == w.head
    requires w'.job.Some? && w'.job.value.version == j.version
    requires w'.versions.Keys == w.versions.Keys + {j.version} && forall v :: v in w.versions ==> w'.versions[v] == w.versions[v]
    ensures PublicationInv(w')
  {
  }

  lemma SameSource(w: World, w': World, lim: Limits)
    requires SourceInv(w, lim) && w'.source == w.source && w'.chronicle == w.chronicle && w'.nextIncarnation == w.nextIncarnation
    ensures SourceInv(w', lim)
  {
  }

  lemma SealedJob(w: World, w': World, j: Job)
    requires JobShape(w', j) && Sealed(j) && w'.job == Some(j) && j.version < w'.nextVersion
    requires w'.actor == Working(Nothing) && j.initial.incarnation == Current(w').incarnation
    ensures JobInv(w') && ActorInv(w')
  {
  }

  lemma NotYetSealed(w: World, j: Job)
    requires JobShape(w, j) && j.phase == SealPhase
    ensures !Sealed(j) && j.version !in w.versions && j.version !in w.published
  {
  }

  lemma SealOutcome(w: World, w': World, j: Job, acknowledged: nat, lim: Limits)
    requires SourceInv(w, lim) && VersionsInv(w) && PublicationInv(w) && JobShape(w, j) && CutOk(w, j, acknowledged)
    requires w.job == Some(j) && j.version < w.nextVersion && j.phase == SealPhase && j.initial.incarnation == Current(w).incarnation
    requires w' == AfterSealCommit(w, j, true, acknowledged)
    ensures Inv(w', lim)
  {
    hide SourceInv, VersionsInv, PublicationInv, JobInv, ActorInv, JobShape, CutOk;
    var k := w.versions.Keys + {j.version};
    assert w'.versions.Keys == k;
    NotYetSealed(w, j);
    SealVersions(w, w', j, acknowledged);
    SealShape(w, w', j);
    SealPublication(w, w', j);
    SameSource(w, w', lim);
    SealedJob(w, w', j.(phase := PartsPhase));
  }

  lemma SealKeeps(w: World, lim: Limits)
    requires Enabled(w, CommitSeal, lim) && w.actor.pending.steady
    requires Inv(w, lim)
    ensures Inv(Next(w, CommitSeal, lim), lim)
  {
    var w' := Next(w, CommitSeal, lim);
    assert w' == AfterSealCommit(w, w.job.value, true, w.actor.pending.acknowledged);
    SealOutcome(w, w', w.job.value, w.actor.pending.acknowledged, lim);
  }

  lemma RetryKeeps(w: World, lim: Limits)
    requires Enabled(w, CommitSeal, lim) && !w.actor.pending.steady
    requires Inv(w, lim)
    ensures Inv(Next(w, CommitSeal, lim), lim)
  {
    hide LedgerInv, Covered, StoresExist, HistoryAgrees, Incremental;
    var j := w.job.value;
    if j.pass + 1 > CATCHUP_PASSES {
      DropKeeps(w, lim);
    } else {
      var w' := Next(w, CommitSeal, lim);
      var j' := w'.job.value;
      if !j.baseline {
        assert ParentOk(w', j.parent.value, j');
      }
      assert JobShape(w', j');
      if Live(w', j') && !j.initial.deleted {
        forall loc ensures KeyOk(w', j', w'.records, loc) {
          assert KeyOk(w, j, w.records, loc);
        }
      }
    }
  }

  lemma ReopenKeeps(w: World, j: Job, lim: Limits)
    requires Inv(w, lim) && w.job.Some? && JobOk(w, j, w.records)
    requires j.version == w.job.value.version && j.initial == w.job.value.initial && w.job.value.phase == CatchUpPhase
    requires w.actor.Working?
    ensures Inv(w.(job := Some(j), actor := Working(Nothing)), lim)
  {
    SameJob(w, w.(job := Some(j), actor := Working(Nothing)), j, w.records);
  }

  lemma StopKeeps(w: World, lim: Limits)
    requires Inv(w, lim)
    ensures Inv(w.(actor := Idle), lim)
  {
    if w.job.Some? {
      SameJob(w, w.(actor := Idle), w.job.value, w.records);
    }
  }

  lemma CommitCatchUpKeeps(w: World, lim: Limits)
    requires Inv(w, lim) && Enabled(w, CatchUp, lim)
    ensures Inv(Next(w, CatchUp, lim), lim)
  {
    hide LedgerInv, Covered, StoresExist, HistoryAgrees, Incremental;
    var j, c := w.job.value, w.actor.pending.control;
    if !Proof(j.initial, c) {
      DropKeeps(w, lim);
    } else if c.generation < j.target {
      StopKeeps(w, lim);
    } else if c.generation > j.target && j.pass >= CATCHUP_PASSES {
      DropKeeps(w, lim);
    } else {
      CatchUpKeeps(w, j, w.records, c, lim);
      ReopenKeeps(w, AfterCatchUp(j, c), lim);
    }
  }

  /** A job's invariant reads only the source, its history, the versions and what is published. */
  lemma SameJob(w: World, w': World, j: Job, r: Records)
    requires JobOk(w, j, r)
    requires w'.source == w.source && w'.chronicle == w.chronicle && w'.versions == w.versions
    requires w'.published == w.published && w'.nextIncarnation == w.nextIncarnation
    ensures JobOk(w', j, r)
  {
    if !j.baseline {
      assert ParentOk(w', j.parent.value, j);
    }
    assert JobShape(w', j);
    if !Sealed(j) && Live(w, j) && !j.initial.deleted {
      forall loc ensures KeyOk(w', j, r, loc) {
        assert KeyOk(w, j, r, loc);
      }
    }
  }

  lemma CommitPageKeeps(w: World, lim: Limits)
    requires Inv(w, lim) && Enabled(w, CommitPage, lim)
    ensures Inv(Next(w, CommitPage, lim), lim)
  {
    hide LedgerInv, Covered, StoresExist, HistoryAgrees, Incremental;
    var p := w.actor.pending.page;
    SameJob(w, Next(w, CommitPage, lim), AfterPage(w.job.value, p), w.records + p.records);
  }

  lemma StartJobKeeps(w: World, lim: Limits)
    requires Inv(w, lim) && Enabled(w, StartJob, lim)
    ensures Inv(Next(w, StartJob, lim), lim)
  {
    hide LedgerInv, Covered, StoresExist, HistoryAgrees, Incremental;
    SameJob(w, Next(w, StartJob, lim), NewJob(w.nextVersion, w.actor.parent, w.actor.pending.control), map[]);
  }

  lemma CommitSchemaKeeps(w: World, lim: Limits)
    requires Inv(w, lim) && Enabled(w, CommitSchema, lim)
    ensures Inv(Next(w, CommitSchema, lim), lim)
  {
    hide LedgerInv, Covered, StoresExist, HistoryAgrees, Incremental;
    var j := w.job.value;
    var w' := Next(w, CommitSchema, lim);
    var j' := w'.job.value;
    if !j.baseline {
      assert ParentOk(w', j.parent.value, j');
    }
    assert JobShape(w', j');
    if Live(w', j') && !j.initial.deleted {
      forall loc ensures KeyOk(w', j', w'.records, loc) {
        assert KeyOk(w, j, w.records, loc);
      }
    }
  }

  /** Holding something read from the source changes nothing that is stored. */
  lemma HoldKeeps(w: World, actor: Actor, lim: Limits)
    requires Inv(w, lim) && ActorInv(w.(actor := actor))
    ensures Inv(w.(actor := actor), lim)
  {
    hide LedgerInv, Covered, StoresExist, HistoryAgrees, Incremental;
    if w.job.Some? {
      SameJob(w, w.(actor := actor), w.job.value, w.records);
    }
  }

  lemma ReadInitialKeeps(w: World, lim: Limits)
    requires Inv(w, lim) && Enabled(w, ReadInitial, lim)
    ensures Inv(Next(w, ReadInitial, lim), lim)
  {
    var w' := Next(w, ReadInitial, lim);
    NewJobOk(w, lim);
    SameJob(w, w', NewJob(w.nextVersion, w.actor.parent, Current(w)), map[]);
    HoldKeeps(w, w'.actor, lim);
  }

  lemma ReadPageKeeps(w: World, p: Page, lim: Limits)
    requires Inv(w, lim) && Enabled(w, ReadPage(p), lim)
    ensures Inv(Next(w, ReadPage(p), lim), lim)
  {
    var w' := Next(w, ReadPage(p), lim);
    PageKeeps(w, w.job.value, w.records, p, lim);
    SameJob(w, w', AfterPage(w.job.value, p), w.records + p.records);
    HoldKeeps(w, w'.actor, lim);
  }

  lemma ObserveKeeps(w: World, lim: Limits)
    requires Inv(w, lim) && Enabled(w, Observe, lim)
    ensures Inv(Next(w, Observe, lim), lim)
  {
    HistoryEndsNow(w, lim);
    HoldKeeps(w, Working(Observed(Current(w))), lim);
  }

  lemma ProbeStepKeeps(w: World, lim: Limits)
    requires Inv(w, lim) && Enabled(w, Probe, lim)
    ensures Inv(Next(w, Probe, lim), lim)
  {
    var w' := Next(w, Probe, lim);
    if SealMatches(w.job.value, Current(w)) {
      ProbeKeeps(w, w.job.value, lim);
      assert CutOk(w', w.job.value, Current(w).acknowledged);
    }
    HoldKeeps(w, w'.actor, lim);
  }

  lemma RejectKeeps(w: World, lim: Limits)
    requires Inv(w, lim) && Enabled(w, Reject, lim)
    ensures Inv(Next(w, Reject, lim), lim)
  {
    if Pinned(w) {
      StopKeeps(w, lim);
    } else {
      DropKeeps(w, lim);
    }
  }

  lemma PackKeeps(w: World, lim: Limits)
    requires Inv(w, lim) && Enabled(w, Pack, lim)
    ensures Inv(Next(w, Pack, lim), lim)
  {
    hide LedgerInv, Covered, StoresExist, HistoryAgrees, Incremental;
    var w' := Next(w, Pack, lim);
    var j' := w'.job.value;
    if !j'.baseline {
      assert ParentOk(w, j'.parent.value, w.job.value);
      assert ParentOk(w', j'.parent.value, j');
    }
    assert JobShape(w', j');
  }

  /** Publication changes only what is published, prepared and head; a done job stays well formed. */
  lemma ServiceJob(w: World, w': World)
    requires JobInv(w) && w.job.Some? && w'.job.Some? && w.job.value.phase == DonePhase
    requires w'.job.value == w.job.value || w'.job.value == w.job.value.(invalidated := true)
    requires w'.source == w.source && w'.chronicle == w.chronicle && w'.versions == w.versions && w'.records == w.records
    requires w'.nextVersion == w.nextVersion && w'.nextIncarnation == w.nextIncarnation
    requires w'.published <= w.published + {w.job.value.version}
    ensures JobInv(w')
  {
    var j' := w'.job.value;
    if !j'.baseline {
      assert ParentOk(w, j'.parent.value, w.job.value);
      assert ParentOk(w', j'.parent.value, j');
    }
    assert JobShape(w', j');
  }

  /** What a service step leaves alone: the source, the spool, the actor and everything sealed. */
  lemma ServiceFrame(w: World, s: Step, lim: Limits)
    requires PublicationInv(w) && Enabled(w, s, lim) && ServiceStep(s)
    ensures var w' := Next(w, s, lim);
            && w.job.Some? && w'.job.Some? && w.job.value.phase == DonePhase
            && (w'.job.value == w.job.value || w'.job.value == w.job.value.(invalidated := true))
            && w'.published <= w.published + {w.job.value.version}
  {
    hide AckInv, PublishedUpTo;
  }

  lemma ServiceStays(w: World, s: Step, lim: Limits)
    requires PublicationInv(w) && Enabled(w, s, lim) && ServiceStep(s)
    ensures var w' := Next(w, s, lim);
            && w'.source == w.source && w'.chronicle == w.chronicle && w'.versions == w.versions
            && w'.records == w.records && w'.nextVersion == w.nextVersion
            && w'.nextIncarnation == w.nextIncarnation && w'.actor == w.actor
  {
    hide AckInv, PublishedUpTo;
  }

  lemma ServiceVersions(w: World, w': World)
    requires VersionsInv(w) && JobInv(w) && w.job.Some? && w.job.value.phase == DonePhase
    requires w'.chronicle == w.chronicle && w'.versions == w.versions && w'.nextVersion == w.nextVersion
    requires w'.published <= w.published + {w.job.value.version}
    ensures VersionsInv(w')
  {
    hide Incremental;
    forall v | v in w'.versions ensures VersionOk(w', w'.versions[v]) {
      assert VersionOk(w, w.versions[v]);
    }
    assert w.job.value.version in w.versions;
  }

  lemma ServiceIdle(w: World, s: Step, lim: Limits)
    requires Enabled(w, s, lim) && ServiceStep(s)
    ensures ActorInv(Next(w, s, lim))
  {
  }

  lemma ServiceKeeps(w: World, s: Step, lim: Limits)
    requires Inv(w, lim) && Enabled(w, s, lim)
    requires ServiceStep(s)
    ensures Inv(Next(w, s, lim), lim)
  {
    hide Next, Enabled, SourceInv, VersionsInv, PublicationInv, JobInv, ActorInv;
    var w' := Next(w, s, lim);
    ServiceFrame(w, s, lim);
    ServiceStays(w, s, lim);
    ServiceIdle(w, s, lim);
    ServiceJob(w, w');
    ServicePublication(w, s, lim);
    ServiceVersions(w, w');
    SameSource(w, w', lim);
  }

  lemma ServicePublication(w: World, s: Step, lim: Limits)
    requires PublicationInv(w) && VersionsInv(w) && JobInv(w) && Enabled(w, s, lim)
    requires ServiceStep(s)
    ensures PublicationInv(Next(w, s, lim))
  {
    var w' := Next(w, s, lim);
    match s
    case Prepare =>
    case Publish => assert AckInv(w');
    case Abandon =>
    case FinishPublication =>
      var j := w.job.value;
      assert PublishedUpTo(w, j.initial.incarnation, j.initial.generation, Some(j.version));
  }

  predicate SourceStep(s: Step) { s.Website? || s.Maintenance? || s.Replace? || s.Adopt? }

  predicate CommitStep(s: Step) {
    s.StartJob? || s.CommitSchema? || s.CommitPage? || s.CatchUp? || s.CommitSeal? || s.Pack?
  }

  predicate ServiceStep(s: Step) { s.Prepare? || s.Publish? || s.Abandon? || s.FinishPublication? }

  lemma SourceStepKeeps(w: World, s: Step, lim: Limits)
    requires SourceStep(s) && Inv(w, lim) && Enabled(w, s, lim)
    ensures Inv(Next(w, s, lim), lim)
  {
    match s
    case Website(ws) => WebsiteKeeps(w, ws, lim);
    case Maintenance(n) => MaintenanceKeeps(w, n, lim);
    case Replace(d, n) => ReplaceKeeps(w, d, n, lim);
    case Adopt(v) => AdoptKeeps(w, v, lim);
  }

  lemma CommitStepKeeps(w: World, s: Step, lim: Limits)
    requires CommitStep(s) && Inv(w, lim) && Enabled(w, s, lim)
    ensures Inv(Next(w, s, lim), lim)
  {
    match s
    case StartJob => StartJobKeeps(w, lim);
    case CommitSchema => CommitSchemaKeeps(w, lim);
    case CommitPage => CommitPageKeeps(w, lim);
    case CatchUp => CommitCatchUpKeeps(w, lim);
    case CommitSeal => if w.actor.pending.steady { SealKeeps(w, lim); } else { RetryKeeps(w, lim); }
    case Pack => PackKeeps(w, lim);
  }

  lemma VisitStepKeeps(w: World, s: Step, lim: Limits)
    requires !SourceStep(s) && !CommitStep(s) && !ServiceStep(s) && Inv(w, lim) && Enabled(w, s, lim)
    ensures Inv(Next(w, s, lim), lim)
  {
    hide LedgerInv, Covered, StoresExist, HistoryAgrees, Incremental;
    match s
    case ReadInitial => ReadInitialKeeps(w, lim);
    case ReadPage(p) => ReadPageKeeps(w, p, lim);
    case Observe => ObserveKeeps(w, lim);
    case Probe => ProbeStepKeeps(w, lim);
    case Visit(parent) => HoldKeeps(w, Checking(parent, Nothing), lim);
    case Admit => HoldKeeps(w, Working(Nothing), lim);
    case Reject => RejectKeeps(w, lim);
    case Return => StopKeeps(w, lim);
    case Crash => StopKeeps(w, lim);
    case Discard => DropKeeps(w, lim);
    case Evict => DropKeeps(w, lim);
  }

  /** Every step, in whatever order, keeps the invariant. */
  lemma StepKeeps(w: World, s: Step, lim: Limits)
    requires Inv(w, lim) && Enabled(w, s, lim)
    ensures Inv(Next(w, s, lim), lim)
  {
    if SourceStep(s) {
      SourceStepKeeps(w, s, lim);
    } else if CommitStep(s) {
      CommitStepKeeps(w, s, lim);
    } else if ServiceStep(s) {
      ServiceKeeps(w, s, lim);
    } else {
      VisitStepKeeps(w, s, lim);
    }
  }

  lemma {:induction false} RunKeeps(w: World, steps: seq<Step>, lim: Limits, w': World)
    requires Inv(w, lim) && Reaches(w, steps, lim, w')
    ensures Inv(w', lim)
    decreases |steps|
  {
    if steps != [] {
      StepKeeps(w, steps[0], lim);
      RunKeeps(Next(w, steps[0], lim), steps[1..], lim, w');
    }
  }

  /** Snapshot at the cut, and the incremental chain: in every reachable world each sealed version restores to
      exactly the source's data at its cut, through its parent when it is a delta; and a delta's records lead to
      that data from the state at any generation the source had not acknowledged past. */
  lemma SealedVersionsAreSnapshots(
    data: Data, names: seq<StoreName>, idb: bool, lim: Limits, steps: seq<Step>, w: World, v: VersionId)
    requires StoresExist(data, names)
    requires Reaches(InitialWorld(data, names, idb), steps, lim, w)
    requires v in w.versions
    ensures var s := w.versions[v];
            && s.incarnation in w.chronicle.histories && s.cut < |w.chronicle.histories[s.incarnation]|
            && s.image == w.chronicle.histories[s.incarnation][s.cut]
    ensures var s := w.versions[v];
            !s.baseline && !s.deleted ==>
              forall g :: s.acknowledged <= g <= s.cut ==>
                Overlay(w.chronicle.histories[s.incarnation][g], s.records) == w.chronicle.histories[s.incarnation][s.cut]
  {
    hide SourceInv, PublicationInv, JobInv, ActorInv, Reaches;
    InitialInv(data, names, idb, lim);
    RunKeeps(InitialWorld(data, names, idb), steps, lim, w);
    assert VersionOk(w, w.versions[v]);
  }

  /** The ledger's own promises hold in every reachable world: paired rows, exact bounded counters, and a current
      marker at exactly its last generation for every unacknowledged key while no baseline is required. */
  lemma ReachableLedgersCover(
    data: Data, names: seq<StoreName>, idb: bool, lim: Limits, steps: seq<Step>, w: World)
    requires StoresExist(data, names)
    requires Reaches(InitialWorld(data, names, idb), steps, lim, w)
    ensures LedgerInv(w.source.ledger, Names(w.source), lim)
    ensures !Current(w).baselineRequired ==>
              forall loc :: LastChange(w.chronicle.last, loc) > Current(w).acknowledged ==>
                MarkedAt(w.source.ledger, loc, LastChange(w.chronicle.last, loc), loc in w.source.data)
  {
    InitialInv(data, names, idb, lim);
    RunKeeps(InitialWorld(data, names, idb), steps, lim, w);
  }
}
