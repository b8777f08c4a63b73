/** Optimistic incremental capture as a state machine (runtime/backup-v2-resume.ts over
    runtime/backup-v2-indexeddb-source.ts): the website's transactions, the backup actor's transactions and the
    publication service interleave at every await, and the actor may die anywhere. */
module CaptureModel {
  import opened Collections
  import opened DirtyLedger
  import opened DirtyGarbage

  const CATCHUP_PASSES := 3

  type Value = int
  type Data = map<Loc, Value>
  type VersionId = nat

  /** One spooled record of a key: a captured value, or the fact that the key is gone. */
  datatype Record = Put(value: Value) | Gone
  type Records = map<Loc, Record>

  /** The source database of one logical namespace. `names` lists its stores in native order. */
  datatype Source = Source(ledger: Ledger, saved: Progress, data: Data, names: seq<StoreName>, idb: bool)

  /** What only the proof remembers: every committed state by incarnation and generation, the latest change of
      each key, and the generation that last gave up its markers. */
  datatype Chronicle = Chronicle(histories: map<nat, seq<Data>>, last: map<Loc, nat>, floor: nat)

  datatype Cursor = Start | AtStore(store: nat, key: Option<Key>) | AtChange(change: GenKey)
  datatype Phase = SchemaPhase | Scan | CatchUpPhase | SealPhase | PartsPhase | DonePhase

  datatype Job = Job(
    version: VersionId, parent: Option<VersionId>, baseline: bool, initial: Control, phase: Phase,
    changes: bool, scanAfter: nat, scanTarget: nat, cursor: Cursor, target: nat, pass: nat,
    final: Control, invalidated: bool)

  datatype Page = Page(records: Records, done: bool, cursor: Cursor)

  /** What the actor has read from the source but not yet committed to the spool. */
  datatype Pending =
    | Nothing
    | Initial(control: Control)
    | Read(page: Page)
    | Observed(control: Control)
    | Probed(steady: bool, acknowledged: nat)

  datatype Actor = Idle | Checking(parent: Option<VersionId>, pending: Pending) | Working(pending: Pending)

  /** A sealed version: its cut, the records it holds and the namespace image a restore reads back. */
  datatype Version = Version(
    incarnation: nat, cut: nat, trackingEpoch: nat, baseline: bool, deleted: bool, acknowledged: nat, records: Records, image: Data)

  datatype Prepared = Prepared(version: VersionId, published: bool)

  datatype World = World(
    source: Source, chronicle: Chronicle, nextIncarnation: nat,
    job: Option<Job>, records: Records, actor: Actor,
    versions: map<VersionId, Version>, nextVersion: VersionId,
    prepared: Option<Prepared>, published: set<VersionId>, head: Option<VersionId>)

  // ---------------------------------------------------------------- data

  function Lookup(d: Data, loc: Loc): Option<Value> {
    if loc in d then Some(d[loc]) else None
  }

  function OverlayAt(base: Data, r: Records, loc: Loc): Option<Value> {
    if loc in r then (match r[loc] case Put(v) => Some(v) case Gone => None) else Lookup(base, loc)
  }

  /** A restore applies the captured records over the parent's image. */
  function Overlay(base: Data, r: Records): Data {
    map loc | loc in base.Keys + r.Keys && OverlayAt(base, r, loc).Some? :: OverlayAt(base, r, loc).value
  }

  function Names(s: Source): set<StoreName> {
    set i | 0 <= i < |s.names| :: s.names[i]
  }

  // ---------------------------------------------------------------- website transactions

  datatype Txn = Txn(ledger: Ledger, data: Data, names: seq<StoreName>, last: map<Loc, nat>, floor: nat)

  /** One journalled mutation; a schema change may move or drop any records, but creates none in an empty database. */
  datatype Write = Write(input: Input, value: Value, data: Data, names: seq<StoreName>)

  function NamesOf(names: seq<StoreName>): set<StoreName> {
    set i | 0 <= i < |names| :: names[i]
  }

  /** A database lists each store once and keeps its records in listed stores. */
  ghost predicate StoresExist(d: Data, names: seq<StoreName>) {
    && (forall i, j :: 0 <= i < j < |names| ==> names[i] != names[j])
    && (forall loc :: loc in d ==> loc.store in names)
  }

  ghost predicate ValidWrite(t: Txn, w: Write) {
    match w.input.operation
    case Upsert => w.input.loc.store in t.names
    case Delete => w.input.loc.store in t.names
    case Schema => StoresExist(w.data, w.names) && (t.data == map[] ==> w.data == map[])
    case _ => true
  }

  function Stamp(last: map<Loc, nat>, before: Data, after: Data, g: nat): map<Loc, nat> {
    last + map loc | loc in before.Keys + after.Keys && Lookup(before, loc) != Lookup(after, loc) :: g
  }

  function WriteData(t: Txn, w: Write): Data {
    match w.input.operation
    case Upsert => t.data[w.input.loc := w.value]
    case Delete => t.data - {w.input.loc}
    case Clear => map loc | loc in t.data && loc.store != w.input.loc.store :: t.data[loc]
    case DatabaseDelete => map[]
    case Schema => w.data
  }

  function ApplyWrite(t: Txn, w: Write, lim: Limits): Txn {
    var g := t.ledger.control.generation;
    var record := w.input.operation in {Upsert, Delete};
    var d := WriteData(t, w);
    Txn(Append(t.ledger, w.input, lim), d, if w.input.operation == Schema then w.names else t.names,
        if record then t.last[w.input.loc := g] else Stamp(t.last, t.data, d, g),
        if record && !Overflows(Touch(t.ledger, w.input), w.input, lim) then t.floor else g)
  }

  function ApplyWrites(t: Txn, ws: seq<Write>, lim: Limits): Txn
    decreases |ws|
  {
    if ws == [] then t else ApplyWrites(ApplyWrite(t, ws[0], lim), ws[1..], lim)
  }

  ghost predicate ValidWrites(t: Txn, ws: seq<Write>, lim: Limits)
    decreases |ws|
  {
    ws != [] ==> ValidWrite(t, ws[0]) && ValidWrites(ApplyWrite(t, ws[0], lim), ws[1..], lim)
  }

  function Opened(w: World): Txn {
    Txn(Begin(w.source.ledger), w.source.data, w.source.names, w.chronicle.last, w.chronicle.floor)
  }

  // ---------------------------------------------------------------- pages

  function RowOf(m: Marker, d: Data): Record {
    if m.operation != Delete && m.loc in d then Put(d[m.loc]) else Gone
  }

  predicate Behind(cursor: Cursor, store: nat, key: Key)
    requires cursor.AtStore?
  {
    store < cursor.store || (store == cursor.store && cursor.key.Some? && key <= cursor.key.value)
  }

  /** The baseline cursor has gone past this key. */
  ghost predicate Passed(names: seq<StoreName>, cursor: Cursor, loc: Loc) {
    cursor.AtStore? && exists i :: 0 <= i < |names| && names[i] == loc.store && Behind(cursor, i, loc.key)
  }

  predicate GenBefore(a: GenKey, b: GenKey) {
    a.epoch < b.epoch || (a.epoch == b.epoch && (a.generation < b.generation || (a.generation == b.generation &&
      (a.storeEpoch < b.storeEpoch || (a.storeEpoch == b.storeEpoch && LocBefore(a.loc, b.loc))))))
  }

  predicate ChangeAhead(cursor: Cursor, g: GenKey) {
    cursor.AtChange? ==> GenBefore(cursor.change, g)
  }

  predicate InRange(l: Ledger, after: nat, target: nat, g: GenKey) {
    g.epoch == l.control.trackingEpoch && after < g.generation <= target
  }

  /** A baseline page: current values only, and every key the cursor moved over. */
  ghost predicate IsBaselinePage(s: Source, cursor: Cursor, p: Page) {
    && p.cursor.AtStore?
    && (forall loc :: loc in p.records ==> loc in s.data && p.records[loc] == Put(s.data[loc]))
    && (forall loc :: loc in s.data && !Passed(s.names, cursor, loc) && (p.done || Passed(s.names, p.cursor, loc)) ==>
          loc in p.records)
  }

  /** A change page: every marker the cursor moved over, with the value its key has in this very transaction. */
  ghost predicate IsChangePage(s: Source, after: nat, target: nat, cursor: Cursor, p: Page) {
    && (forall loc :: loc in p.records ==>
          exists g :: g in s.ledger.generations && InRange(s.ledger, after, target, g) && g.loc == loc
                      && p.records[loc] == RowOf(s.ledger.generations[g], s.data))
    && (forall g :: g in s.ledger.generations && InRange(s.ledger, after, target, g) ==>
          !ChangeAhead(cursor, g) || (!p.done && ChangeAhead(p.cursor, g)) || g.loc in p.records)
  }

  ghost predicate IsPage(s: Source, j: Job, p: Page) {
    if j.changes then IsChangePage(s, j.scanAfter, j.scanTarget, j.cursor, p) else IsBaselinePage(s, j.cursor, p)
  }

  // ---------------------------------------------------------------- the capture job

  predicate Proof(a: Control, b: Control) {
    && a.incarnation == b.incarnation && a.schemaEpoch == b.schemaEpoch && a.trackingEpoch == b.trackingEpoch
    && a.deleted == b.deleted && a.storeEpochs == b.storeEpochs
  }

  predicate Sealed(j: Job) { j.phase in {PartsPhase, DonePhase} }

  predicate StillValid(j: Job, parent: Option<VersionId>, current: Control) {
    && !j.invalidated && parent != Some(j.version) && j.parent == parent
    && j.initial.incarnation == current.incarnation && (Sealed(j) || Proof(j.initial, current))
  }

  function NewJob(version: VersionId, parent: Option<VersionId>, initial: Control): Job {
    var baseline := parent.None? || initial.baselineRequired;
    Job(version, parent, baseline, initial, SchemaPhase, !baseline, initial.acknowledged, initial.generation,
        Start, initial.generation, 0, initial, false)
  }

  function EnterScan(j: Job): Job {
    j.(phase := if j.initial.deleted then CatchUpPhase else Scan)
  }

  function AfterPage(j: Job, p: Page): Job {
    if p.done then j.(cursor := Start, phase := CatchUpPhase) else j.(cursor := p.cursor)
  }

  /** A generation that moved opens another change pass; a steady one goes on to seal. */
  function AfterCatchUp(j: Job, current: Control): Job {
    if current.generation > j.target then
      j.(final := current, pass := j.pass + 1, changes := true, scanAfter := j.target,
         scanTarget := current.generation, target := current.generation, cursor := Start, phase := Scan)
    else j.(final := current, phase := SealPhase)
  }

  predicate SealMatches(j: Job, c: Control) {
    c.generation == j.target && c.schemaEpoch == j.final.schemaEpoch && c.trackingEpoch == j.final.trackingEpoch
  }

  /** The image a restore of this capture reads back. */
  function Image(w: World, j: Job): Data {
    if j.initial.deleted then map[]
    else if j.baseline then Overlay(map[], w.records)
    else if j.parent.Some? && j.parent.value in w.versions then Overlay(w.versions[j.parent.value].image, w.records)
    else map[]
  }

  predicate Pinned(w: World) {
    w.job.Some? && w.prepared.Some? && w.prepared.value.version == w.job.value.version
  }

  function Dropped(w: World): World {
    if Pinned(w) then w else w.(job := None, records := map[])
  }

  // ---------------------------------------------------------------- steps

  datatype Step =
    // the website and the metadata maintenance
    | Website(writes: seq<Write>)
    | Maintenance(maxRows: nat)
    | Replace(data: Data, names: seq<StoreName>)
    // the backup actor
    | Visit(parent: Option<VersionId>)
    | Admit
    | Reject
    | ReadInitial
    | StartJob
    | CommitSchema
    | ReadPage(page: Page)
    | CommitPage
    | Observe
    | CatchUp
    | Probe
    | CommitSeal
    | Pack
    | Return
    | Discard
    | Crash
    // the publication service
    | Evict
    | Prepare
    | Publish
    | Abandon
    | Adopt(version: VersionId)
    | FinishPublication

  ghost predicate Enabled(w: World, s: Step, lim: Limits) {
    var c := w.source.ledger.control;
    match s
    case Website(ws) => ValidWrites(Opened(w), ws, lim)
    case Maintenance(maxRows) => 1 <= maxRows <= 64
    case Replace(data, names) => StoresExist(data, names)
    case Visit(parent) =>
      w.actor.Idle? && (parent.None? || (parent == w.head && parent.value in w.versions && w.versions[parent.value].incarnation == c.incarnation))
    case Admit => w.actor.Checking? && w.actor.pending.Nothing? && w.job.Some? && StillValid(w.job.value, w.actor.parent, c)
    case Reject => w.actor.Checking? && w.actor.pending.Nothing? && w.job.Some? && !StillValid(w.job.value, w.actor.parent, c)
    case ReadInitial => w.actor.Checking? && w.actor.pending.Nothing? && w.job.None?
    case StartJob => w.actor.Checking? && w.actor.pending.Initial? && w.job.None?
    case CommitSchema => w.actor == Working(Nothing) && w.job.Some? && w.job.value.phase == SchemaPhase
    case ReadPage(p) => w.actor == Working(Nothing) && w.job.Some? && w.job.value.phase == Scan && IsPage(w.source, w.job.value, p)
    case CommitPage => w.actor.Working? && w.actor.pending.Read? && w.job.Some?
    case Observe => w.actor == Working(Nothing) && w.job.Some? && w.job.value.phase == CatchUpPhase
    case CatchUp => w.actor.Working? && w.actor.pending.Observed? && w.job.Some?
    case Probe => w.actor == Working(Nothing) && w.job.Some? && w.job.value.phase == SealPhase
    case CommitSeal => w.actor.Working? && w.actor.pending.Probed? && w.job.Some?
    case Pack => w.actor == Working(Nothing) && w.job.Some? && w.job.value.phase == PartsPhase
    case Return => w.actor == Working(Nothing) && w.job.Some? && w.job.value.phase == DonePhase
    case Discard => w.actor.Working?
    case Crash => true
    case Evict => w.actor.Idle?
    case Prepare => w.actor.Idle? && w.prepared.None? && w.job.Some? && w.job.value.phase == DonePhase
    case Publish => w.actor.Idle? && w.prepared.Some?
    case Abandon => w.actor.Idle? && w.prepared.Some? && !w.prepared.value.published && w.job.Some?
    case Adopt(v) => v in w.published && v in w.versions && w.versions[v].incarnation == c.incarnation
    case FinishPublication => w.actor.Idle? && w.prepared.Some? && w.prepared.value.published
  }

  function AfterWebsite(w: World, ws: seq<Write>, lim: Limits): World {
    var t := ApplyWrites(Opened(w), ws, lim);
    var inc := w.source.ledger.control.incarnation;
    var h := if inc in w.chronicle.histories then w.chronicle.histories[inc] else [];
    w.(source := w.source.(ledger := t.ledger, data := t.data, names := t.names),
       chronicle := Chronicle(w.chronicle.histories[inc := h + [t.data]], t.last, t.floor))
  }

  function AfterCatchUpCommit(w: World, j: Job, current: Control): World {
    if !Proof(j.initial, current) then Dropped(w).(actor := Idle)
    else if current.generation < j.target then w.(actor := Idle)
    else if current.generation > j.target && j.pass >= CATCHUP_PASSES then Dropped(w).(actor := Idle)
    else w.(job := Some(AfterCatchUp(j, current)), actor := Working(Nothing))
  }

  function AfterSealCommit(w: World, j: Job, steady: bool, acknowledged: nat): World {
    if steady then
      w.(job := Some(j.(phase := PartsPhase)), actor := Working(Nothing),
         versions := w.versions[j.version := Version(j.initial.incarnation, j.target, j.final.trackingEpoch, j.baseline,
                                                     j.initial.deleted, acknowledged, w.records, Image(w, j))])
    else if j.pass + 1 > CATCHUP_PASSES then Dropped(w).(actor := Idle)
    else w.(job := Some(j.(phase := CatchUpPhase, pass := j.pass + 1)), actor := Working(Nothing))
  }

  function Next(w: World, s: Step, lim: Limits): World
    requires Enabled(w, s, lim)
  {
    var c := w.source.ledger.control;
    match s
    case Website(ws) => AfterWebsite(w, ws, lim)
    case Maintenance(maxRows) =>
      var r := Collect(w.source.ledger, w.source.saved, maxRows, w.source.idb, Names(w.source));
      w.(source := w.source.(ledger := r.ledger, saved := r.progress))
    case Replace(data, names) =>
      var inc := w.nextIncarnation;
      w.(source := Source(EmptyLedger(inc), NoProgress, data, names, w.source.idb),
         chronicle := Chronicle(w.chronicle.histories[inc := [data]], map[], 0),
         nextIncarnation := inc + 1, actor := Idle)
    case Visit(parent) => w.(actor := Checking(parent, Nothing))
    case Admit => w.(actor := Working(Nothing))
    case Reject => if Pinned(w) then w.(actor := Idle) else Dropped(w)
    case ReadInitial => w.(actor := Checking(w.actor.parent, Initial(c)))
    case StartJob =>
      var initial := w.actor.pending.control;
      if initial.generation <= initial.acknowledged && w.actor.parent.Some? then w.(actor := Idle)
      else w.(job := Some(NewJob(w.nextVersion, w.actor.parent, initial)), records := map[],
              nextVersion := w.nextVersion + 1, actor := Working(Nothing))
    case CommitSchema => w.(job := Some(EnterScan(w.job.value)))
    case ReadPage(p) => w.(actor := Working(Read(p)))
    case CommitPage =>
      w.(job := Some(AfterPage(w.job.value, w.actor.pending.page)), records := w.records + w.actor.pending.page.records,
         actor := Working(Nothing))
    case Observe => w.(actor := Working(Observed(c)))
    case CatchUp => AfterCatchUpCommit(w, w.job.value, w.actor.pending.control)
    case Probe => w.(actor := Working(Probed(SealMatches(w.job.value, c), c.acknowledged)))
    case CommitSeal => AfterSealCommit(w, w.job.value, w.actor.pending.steady, w.actor.pending.acknowledged)
    case Pack => w.(job := Some(w.job.value.(phase := DonePhase)))
    case Return => w.(actor := Idle)
    case Discard => Dropped(w).(actor := Idle)
    case Crash => w.(actor := Idle)
    case Evict => Dropped(w)
    case Prepare => w.(prepared := Some(Prepared(w.job.value.version, false)))
    case Publish => w.(prepared := Some(w.prepared.value.(published := true)), published := w.published + {w.prepared.value.version})
    case Abandon => w.(prepared := None, job := Some(w.job.value.(invalidated := true)))
    case Adopt(v) =>
      w.(source := w.source.(ledger := Acknowledge(w.source.ledger, w.versions[v].cut, w.versions[v].trackingEpoch)))
    case FinishPublication => w.(head := Some(w.prepared.value.version), prepared := None)
  }

  function InitialWorld(data: Data, names: seq<StoreName>, idb: bool): World {
    World(Source(EmptyLedger(0), NoProgress, data, names, idb), Chronicle(map[0 := [data]], map[], 0), 1,
          None, map[], Idle, map[], 0, None, {}, None)
  }

  /** Reachable by some interleaving of enabled steps. */
  ghost predicate Reaches(w: World, steps: seq<Step>, lim: Limits, w': World)
    decreases |steps|
  {
    if steps == [] then w == w'
    else Enabled(w, steps[0], lim) && Reaches(Next(w, steps[0], lim), steps[1..], lim, w')
  }
}
