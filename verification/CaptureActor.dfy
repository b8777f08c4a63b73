/** The backup actor as it runs: the two bounded page readers and the resumable phase loop. Between any two of
    its transactions the website, maintenance, a late acknowledgement or a database replacement may step in. */
module CaptureActor {
  import opened Collections
  import opened DirtyLedger
  import opened DirtyGarbage
  import opened CaptureModel
  import opened CaptureProof
  import opened CaptureProgress

  // ---------------------------------------------------------------- page readers

  lemma {:induction false} LeastKey(s: set<Loc>) returns (l: Loc)
    requires s != {}
    ensures l in s && forall m :: m in s ==> l.key <= m.key
    decreases |s|
  {
    var x :| x in s;
    var rest := s - {x};
    l := x;
    if rest != {} {
      var m := LeastKey(rest);
      if m.key < x.key {
        l := m;
      }
      forall k | k in s ensures l.key <= k.key {
        assert k == x || k in rest;
      }
    }
  }

  lemma LeastKeyExists(s: set<Loc>)
    requires s != {}
    ensures exists l :: l in s && forall m :: m in s ==> l.key <= m.key
  {
    var l := LeastKey(s);
  }

  lemma {:induction false} LeastChange(s: set<GenKey>) returns (g: GenKey)
    requires s != {}
    ensures g in s && forall m :: m in s && m != g ==> GenBefore(g, m)
    decreases |s|
  {
    var x :| x in s;
    var rest := s - {x};
    g := x;
    if rest != {} {
      var m := LeastChange(rest);
      if GenBefore(m, x) {
        g := m;
      }
      forall k | k in s && k != g ensures GenBefore(g, k) {
        assert k == x || k in rest;
      }
    }
  }

  lemma LeastChangeExists(s: set<GenKey>)
    requires s != {}
    ensures exists g :: g in s && forall m :: m in s && m != g ==> GenBefore(g, m)
  {
    var g := LeastChange(s);
  }

  function StoreRest(s: Source, name: StoreName, after: Option<Key>): set<Loc> {
    set l | l in s.data && l.store == name && (after.None? || l.key > after.value)
  }

  /** A store with nothing left may be left behind. */
  lemma StoreDone(s: Source, store: nat, key: Option<Key>, l: Loc)
    requires store < |s.names| && StoreRest(s, s.names[store], key) == {} && l in s.data
    requires Passed(s.names, AtStore(store + 1, None), l)
    ensures Passed(s.names, AtStore(store, key), l)
  {
    var i :| 0 <= i < |s.names| && s.names[i] == l.store && Behind(AtStore(store + 1, None), i, l.key);
    assert l !in StoreRest(s, s.names[store], key);
    assert Behind(AtStore(store, key), i, l.key);
  }

  /** Stepping to the least key left passes that key and no other one. */
  lemma KeyStep(s: Source, store: nat, key: Option<Key>, l: Loc, m: Loc)
    requires StoresExist(s.data, s.names) && store < |s.names|
    requires var rest := StoreRest(s, s.names[store], key); l in rest && forall n :: n in rest ==> l.key <= n.key
    requires m in s.data && Passed(s.names, AtStore(store, Some(l.key)), m)
    ensures m == l || Passed(s.names, AtStore(store, key), m)
  {
    var i :| 0 <= i < |s.names| && s.names[i] == m.store && Behind(AtStore(store, Some(l.key)), i, m.key);
    if m !in StoreRest(s, s.names[store], key) || i < store { assert Behind(AtStore(store, key), i, m.key); }
  }

  /** The rows read so far: present values, of every key passed since the cursor. */
  ghost predicate PageSoFar(s: Source, cursor: Cursor, store: nat, key: Option<Key>, rows: Records) {
    (forall l :: l in rows ==> l in s.data && rows[l] == Put(s.data[l]))
    && forall l :: l in s.data && Passed(s.names, AtStore(store, key), l) && !Passed(s.names, cursor, l) ==> l in rows
  }

  lemma PageStarts(s: Source, cursor: Cursor)
    requires !cursor.AtChange?
    ensures var (store, key) := if cursor.AtStore? then (cursor.store, cursor.key) else (0, None);
      PageSoFar(s, cursor, store, key, map[])
  {
  }

  lemma StoreRead(s: Source, cursor: Cursor, store: nat, key: Option<Key>, rows: Records)
    requires PageSoFar(s, cursor, store, key, rows) && store < |s.names| && StoreRest(s, s.names[store], key) == {}
    ensures PageSoFar(s, cursor, store + 1, None, rows)
  {
    forall l | l in s.data && Passed(s.names, AtStore(store + 1, None), l) ensures Passed(s.names, AtStore(store, key), l) {
      StoreDone(s, store, key, l);
    }
    hide Passed;
  }

  lemma KeyRead(s: Source, cursor: Cursor, store: nat, key: Option<Key>, rows: Records, l: Loc)
    requires PageSoFar(s, cursor, store, key, rows) && StoresExist(s.data, s.names) && store < |s.names|
    requires var rest := StoreRest(s, s.names[store], key); l in rest && forall n :: n in rest ==> l.key <= n.key
    ensures PageSoFar(s, cursor, store, Some(l.key), rows[l := Put(s.data[l])])
    ensures StoreRest(s, s.names[store], Some(l.key)) < StoreRest(s, s.names[store], key)
  {
    forall m | m in s.data && Passed(s.names, AtStore(store, Some(l.key)), m)
      ensures m == l || Passed(s.names, AtStore(store, key), m)
    {
      KeyStep(s, store, key, l, m);
    }
    hide Passed;
    assert l !in StoreRest(s, s.names[store], Some(l.key));
  }

  lemma PageIs(s: Source, cursor: Cursor, store: nat, key: Option<Key>, rows: Records)
    requires PageSoFar(s, cursor, store, key, rows) && StoresExist(s.data, s.names)
    ensures IsBaselinePage(s, cursor, Page(rows, store >= |s.names|, AtStore(store, key)))
    ensures IsBaselinePage(s, cursor, Page(rows, false, AtStore(store, key)))
  {
    if store >= |s.names| {
      forall l | l in s.data ensures Passed(s.names, AtStore(store, key), l) {
        var i :| 0 <= i < |s.names| && s.names[i] == l.store;
        assert Behind(AtStore(store, key), i, l.key);
      }
    }
    hide Passed, StoresExist;
  }

  lemma StartLeft(s: Source, cursor: Cursor)
    requires !cursor.AtChange?
    ensures var (store, key) := if cursor.AtStore? then (cursor.store, cursor.key) else (0, None);
      BaselineLeft(s, AtStore(store, key)) == BaselineLeft(s, cursor)
  {
    if !cursor.AtStore? { assert KeysLeft(s, AtStore(0, None)) == KeysLeft(s, cursor); }
  }

  lemma PassedFurther(s: Source, store: nat, key: Option<Key>, k: Key, l: Loc)
    requires Passed(s.names, AtStore(store, key), l) && (key.None? || key.value <= k)
    ensures Passed(s.names, AtStore(store, Some(k)), l) && Passed(s.names, AtStore(store + 1, None), l)
  {
    var i :| 0 <= i < |s.names| && s.names[i] == l.store && Behind(AtStore(store, key), i, l.key);
    assert Behind(AtStore(store, Some(k)), i, l.key) && Behind(AtStore(store + 1, None), i, l.key);
  }

  lemma NotPassedYet(s: Source, store: nat, key: Option<Key>, l: Loc)
    requires StoresExist(s.data, s.names) && store < |s.names| && l in StoreRest(s, s.names[store], key)
    ensures !Passed(s.names, AtStore(store, key), l) && Passed(s.names, AtStore(store, Some(l.key)), l)
  {
    assert Behind(AtStore(store, Some(l.key)), store, l.key);
    forall i | 0 <= i < |s.names| && s.names[i] == l.store ensures !Behind(AtStore(store, key), i, l.key) {
    }
  }

  /** Leaving a store behind, or a key, leaves less to read. */
  lemma StoreLeft(s: Source, store: nat, key: Option<Key>)
    requires store < |s.names|
    ensures BaselineLeft(s, AtStore(store + 1, None)) < BaselineLeft(s, AtStore(store, key))
  {
    forall l | Passed(s.names, AtStore(store, key), l) ensures Passed(s.names, AtStore(store + 1, None), l) {
      PassedFurther(s, store, key, if key.Some? then key.value else 0, l);
    }
    hide Passed;
    SubsetSize(KeysLeft(s, AtStore(store + 1, None)), KeysLeft(s, AtStore(store, key)));
  }

  lemma KeyLeft(s: Source, store: nat, key: Option<Key>, l: Loc)
    requires StoresExist(s.data, s.names) && store < |s.names| && l in StoreRest(s, s.names[store], key)
    ensures BaselineLeft(s, AtStore(store, Some(l.key))) < BaselineLeft(s, AtStore(store, key))
  {
    forall m | Passed(s.names, AtStore(store, key), m) ensures Passed(s.names, AtStore(store, Some(l.key)), m) {
      PassedFurther(s, store, key, l.key, m);
    }
    NotPassedYet(s, store, key, l);
    hide Passed;
    var before, after := KeysLeft(s, AtStore(store, key)), KeysLeft(s, AtStore(store, Some(l.key)));
    assert l in before && l !in after;
    StrictSubset(after, before);
  }

  /** Walks the stores in order from the saved position; every row holds its value in this transaction, and no
      key the position moves over is missed. The budget may run out after any row or store, but not before the first. */
  method ReadBaselinePage(s: Source, cursor: Cursor) returns (p: Page)
    requires StoresExist(s.data, s.names) && !cursor.AtChange?
    ensures IsBaselinePage(s, cursor, p)
    ensures p.done || BaselineLeft(s, p.cursor) < BaselineLeft(s, cursor)
  {
    hide PageSoFar, StoresExist, IsBaselinePage, BaselineLeft;
    var store, key, visited := 0, None, 0;
    if cursor.AtStore? {
      store, key := cursor.store, cursor.key;
    }
    var rows: Records := map[];
    PageStarts(s, cursor);
    StartLeft(s, cursor);
    while store < |s.names|
      invariant PageSoFar(s, cursor, store, key, rows)
      invariant BaselineLeft(s, AtStore(store, key)) <= BaselineLeft(s, cursor)
      invariant visited > 0 ==> BaselineLeft(s, AtStore(store, key)) < BaselineLeft(s, cursor)
      decreases |s.names| - store, |StoreRest(s, if store < |s.names| then s.names[store] else 0, key)|
    {
      PageIs(s, cursor, store, key, rows);
      var rest := StoreRest(s, s.names[store], key);
      if rest == {} {
        StoreRead(s, cursor, store, key, rows);
        StoreLeft(s, store, key);
        store, key := store + 1, None;
        PageIs(s, cursor, store, key, rows);
        if * {
          return Page(rows, store >= |s.names|, AtStore(store, key));
        }
      } else {
        if visited > 0 {
          if * {
            return Page(rows, false, AtStore(store, key));
          }
        }
        visited := visited + 1;
        LeastKeyExists(rest);
        var l :| l in rest && forall m :: m in rest ==> l.key <= m.key;
        KeyRead(s, cursor, store, key, rows, l);
        KeyLeft(s, store, key, l);
        rows := rows[l := Put(s.data[l])];
        key := Some(l.key);
        StrictSubset(StoreRest(s, s.names[store], key), rest);
        PageIs(s, cursor, store, key, rows);
        if * {
          return Page(rows, false, AtStore(store, key));
        }
      }
    }
    PageIs(s, cursor, store, key, rows);
    p := Page(rows, true, AtStore(store, key));
  }

  lemma StrictSubset<T>(a: set<T>, b: set<T>)
    requires a < b
    ensures |a| < |b|
  {
    var x :| x in b && x !in a;
    SubsetSize(a, b - {x});
  }

  /** The markers read so far, each with its key's value, of every one passed since the cursor. */
  ghost predicate ChangesSoFar(s: Source, after: nat, target: nat, cursor: Cursor, position: Cursor, rows: Records) {
    IsChangePage(s, after, target, cursor, Page(rows, false, position))
  }

  lemma ChangesStart(s: Source, after: nat, target: nat, cursor: Cursor)
    ensures ChangesSoFar(s, after, target, cursor, cursor, map[])
  {
  }

  lemma ChangesDone(s: Source, after: nat, target: nat, cursor: Cursor, position: Cursor, rows: Records)
    requires ChangesSoFar(s, after, target, cursor, position, rows) && ChangeRest(s, after, target, position) == {}
    ensures IsChangePage(s, after, target, cursor, Page(rows, true, position))
  {
    forall g | g in s.ledger.generations && InRange(s.ledger, after, target, g) ensures !ChangeAhead(position, g) {
      assert g !in ChangeRest(s, after, target, position);
    }
  }

  lemma ChangeRead(s: Source, after: nat, target: nat, cursor: Cursor, position: Cursor, rows: Records, g: GenKey)
    requires ChangesSoFar(s, after, target, cursor, position, rows)
    requires var rest := ChangeRest(s, after, target, position);
      g in rest && forall m :: m in rest && m != g ==> GenBefore(g, m)
    ensures ChangesSoFar(s, after, target, cursor, AtChange(g), rows[g.loc := RowOf(s.ledger.generations[g], s.data)])
    ensures |ChangeRest(s, after, target, AtChange(g))| < |ChangeRest(s, after, target, position)|
  {
    var rest := ChangeRest(s, after, target, position);
    forall h | h in s.ledger.generations && InRange(s.ledger, after, target, h) && ChangeAhead(position, h)
      ensures h == g || GenBefore(g, h)
    {
      assert h in rest;
    }
    assert !GenBefore(g, g);
    assert ChangeRest(s, after, target, AtChange(g)) <= rest - {g};
    SubsetSize(ChangeRest(s, after, target, AtChange(g)), rest - {g});
    hide GenBefore;
  }

  /** Walks the generation rows after `after` up to `target`, reading each key's value in this transaction. */
  method ReadChangePage(s: Source, after: nat, target: nat, cursor: Cursor) returns (p: Page)
    ensures IsChangePage(s, after, target, cursor, p)
    ensures p.done || |ChangeRest(s, after, target, p.cursor)| < |ChangeRest(s, after, target, cursor)|
  {
    var position, visited := cursor, 0;
    var rows: Records := map[];
    ChangesStart(s, after, target, cursor);
    hide ChangesSoFar, IsChangePage, InRange, GenBefore;
    while true
      invariant ChangesSoFar(s, after, target, cursor, position, rows)
      invariant |ChangeRest(s, after, target, position)| + visited <= |ChangeRest(s, after, target, cursor)|
      decreases |ChangeRest(s, after, target, position)|
    {
      var rest := ChangeRest(s, after, target, position);
      if rest == {} {
        ChangesDone(s, after, target, cursor, position, rows);
        return Page(rows, true, position);
      }
      if visited > 0 {
        if * {
          SoFarIs(s, after, target, cursor, position, rows);
          return Page(rows, false, position);
        }
      }
      visited := visited + 1;
      LeastChangeExists(rest);
      var g :| g in rest && forall m :: m in rest && m != g ==> GenBefore(g, m);
      ChangeRead(s, after, target, cursor, position, rows, g);
      rows := rows[g.loc := RowOf(s.ledger.generations[g], s.data)];
      position := AtChange(g);
    }
  }

  lemma SoFarIs(s: Source, after: nat, target: nat, cursor: Cursor, position: Cursor, rows: Records)
    requires ChangesSoFar(s, after, target, cursor, position, rows)
    ensures IsChangePage(s, after, target, cursor, Page(rows, false, position))
  {
  }

  // ---------------------------------------------------------------- the resumable phase loop

  /** Two transactions in a row. */
  lemma AdvancedTwice(a: World, b: World, c: World, lim: Limits)
    requires a.job.Some? && a.actor.Working? && b.job.Some? && b.actor.Working? && b.actor.pending != Nothing
    requires Advanced(a, b, lim) && Advanced(b, c, lim)
    ensures Advanced(a, c, lim)
  {
    hide Under, StepsLeft, Affords;
    if Under(c, lim) && SameCapture(b, c) { SameTransits(a, b, c); }
    if SealedNow(c) && SameCapture(b, c) { SameTransits(a, b, c); }
  }

  /** The version a visit would return: that of the capture found, or a new one. */
  function Expected(w: World, parent: Option<VersionId>): VersionId {
    if w.job.Some? && StillValid(w.job.value, parent, Current(w)) then w.job.value.version else w.nextVersion
  }

  /** A visit that has something to do and can do it: there is a capture of the present state with passes enough, or
      none that is of use and something to back up. */
  ghost predicate Promising(w: World, parent: Option<VersionId>) {
    if w.job.Some? && StillValid(w.job.value, parent, Current(w)) then !Sealed(w.job.value) && Affords(w, w.job.value)
    else !Pinned(w) && (Current(w).generation > Current(w).acknowledged || parent.None?)
  }

  /** Turns enough for any capture of this source. */
  function TurnsFor(w: World): nat { 4 * Most(w.source) + 16 }

  lemma StepsBounded(w: World)
    requires w.job.Some? && w.actor == Working(Nothing)
    ensures StepsLeft(w) + 2 <= TurnsFor(w)
  {
    PagesBounded(w.source, w.job.value);
    hide PagesLeft, Most;
  }

  /** Such a visit starts on its way to a seal. */
  lemma BeginsOnCourse(w: World, w1: World, parent: Option<VersionId>, lim: Limits)
    requires Inv(w1, lim) && Promising(w, parent)
    requires if w.job.Some? && StillValid(w.job.value, parent, Current(w)) then w1 == w.(actor := Working(Nothing))
             else if Pinned(w) then w1 == w
             else w1 == Begun(w, parent)
    ensures w1.actor == Working(Nothing) && w1.job.Some? && w1.job.value.version == Expected(w, parent)
    ensures Under(w1, lim) && Affords(w1, w1.job.value) && StepsLeft(w1) + 2 <= TurnsFor(w)
  {
    assert w1.job.Some? && w1.actor == Working(Nothing) && w1.source == w.source && !Sealed(w1.job.value);
    assert Proof(w1.job.value.initial, Current(w1)) && Affords(w1, w1.job.value);
    StepsBounded(w1);
    hide Inv, StepsLeft, Proof, Affords, Most;
  }

  class BackupActor {
    var world: World
    const limits: Limits
    /** Nothing happens at the awaits. */
    const quiet: bool

    constructor (w: World, lim: Limits, quiet: bool)
      ensures world == w && limits == lim && this.quiet == quiet
    {
      world, limits, this.quiet := w, lim, quiet;
    }

    /** One native transaction. */
    method Take(step: Step)
      requires Inv(world, limits) && Enabled(world, step, limits)
      modifies this`world
      ensures Inv(world, limits) && world == Next(old(world), step, limits)
    {
      StepKeeps(world, step, limits);
      world := Next(world, step, limits);
    }

    /** Everything that may happen while the actor awaits; a replaced database takes its connection away. */
    method Await()
      requires Inv(world, limits)
      modifies this
      ensures Inv(world, limits)
      ensures world.actor == old(world).actor || world.actor == Idle
      ensures world == old(world).(source := world.source, chronicle := world.chronicle, nextIncarnation := world.nextIncarnation, actor := world.actor)
      ensures world.actor != Idle ==> Current(world).incarnation == Current(old(world)).incarnation
      ensures quiet ==> world == old(world)
    {
    }

    /** Reads the stored job and the control row, then continues that job or starts a new one. */
    method OpenVisit(parent: Option<VersionId>)
      requires Inv(world, limits) && Enabled(world, Visit(parent), limits)
      modifies this
      ensures Inv(world, limits) && (world.actor == Idle || world.actor == Working(Nothing))
      ensures quiet ==> var w := old(world);
        if w.job.Some? && StillValid(w.job.value, parent, Current(w)) then world == w.(actor := Working(Nothing))
        else if Pinned(w) then world == w
        else world == Begun(w, parent)
    {
      hide SourceInv, VersionsInv, PublicationInv, JobInv, JobOk, ObservedOk, CutOk, StillValid;
      ghost var w := world;
      Take(Visit(parent));
      Await();
      if world.actor != Idle && world.job.Some? {
        if StillValid(world.job.value, parent, Current(world)) {
          Take(Admit);
        } else {
          Take(Reject);
        }
        Await();
      }
      if world.actor == Checking(parent, Nothing) {
        StartCapture(parent);
      }
    }

    method StartCapture(parent: Option<VersionId>)
      requires Inv(world, limits) && world.actor == Checking(parent, Nothing) && world.job.None?
      modifies this
      ensures Inv(world, limits) && (world.actor == Idle || world.actor == Working(Nothing))
      ensures quiet ==> world == Begun(old(world), parent)
    {
      hide SourceInv, VersionsInv, PublicationInv, JobInv, JobOk, ObservedOk, CutOk;
      Take(ReadInitial);
      Await();
      if world.actor != Idle {
        Take(StartJob);
        Await();
      }
    }

    /** What the two transactions of a phase come to when nothing steps in between them. */
    ghost predicate Onwards(w: World)
      reads this
    {
      w.job.Some? && w.actor.Working? && Advanced(w, world, limits)
    }

    /** One page of the running scan. */
    method ReadScan() returns (page: Page)
      requires Inv(world, limits) && world.actor == Working(Nothing) && world.job.Some? && world.job.value.phase == Scan
      ensures IsPage(world.source, world.job.value, page) && Advances(world.source, world.job.value, page)
    {
      var job := world.job.value;
      assert StoresExist(world.source.data, world.source.names) && JobShape(world, job);
      hide Inv, IsChangePage, IsBaselinePage, StoresExist;
      if job.changes {
        page := ReadChangePage(world.source, job.scanAfter, job.scanTarget, job.cursor);
      } else {
        page := ReadBaselinePage(world.source, job.cursor);
      }
    }

    method RunScan()
      requires Inv(world, limits) && world.actor == Working(Nothing) && world.job.Some? && world.job.value.phase == Scan
      modifies this
      ensures Inv(world, limits) && (world.actor == Idle || world.actor == Working(Nothing))
      ensures quiet && Under(old(world), limits) ==> Onwards(old(world))
    {
      hide SourceInv, VersionsInv, PublicationInv, JobInv, JobOk, ObservedOk, CutOk, Under, Advanced, IsPage, Advances;
      ghost var w := world;
      var page := ReadScan();
      if Under(w, limits) { StepAdvances(w, ReadPage(page), limits); }
      Take(ReadPage(page));
      ghost var mid := world;
      Await();
      if world.actor != Idle {
        if Under(mid, limits) && world == mid { StepAdvances(mid, CommitPage, limits); }
        Take(CommitPage);
        if Under(w, limits) && quiet { OnwardsTwice(w, mid, world); }
      }
    }

    lemma OnwardsTwice(w: World, mid: World, w': World)
      requires w.job.Some? && w.actor == Working(Nothing) && Advanced(w, mid, limits)
      requires mid.job.Some? && mid.actor.Working? && mid.actor.pending != Nothing
      requires Under(mid, limits) ==> Advanced(mid, w', limits)
      ensures Advanced(w, w', limits)
    {
      hide Under, StepsLeft, Affords, SameCapture;
      assert Under(mid, limits);
      AdvancedTwice(w, mid, w', limits);
    }

    method RunCatchUp()
      requires Inv(world, limits) && world.actor == Working(Nothing) && world.job.Some? && world.job.value.phase == CatchUpPhase
      modifies this
      ensures Inv(world, limits) && (world.actor == Idle || world.actor == Working(Nothing))
      ensures quiet && Under(old(world), limits) ==> Onwards(old(world))
    {
      hide SourceInv, VersionsInv, PublicationInv, JobInv, JobOk, ObservedOk, CutOk, Under, Advanced;
      ghost var w := world;
      if Under(w, limits) { StepAdvances(w, Observe, limits); }
      Take(Observe);
      ghost var mid := world;
      Await();
      if world.actor != Idle {
        if Under(mid, limits) && world == mid { StepAdvances(mid, CatchUp, limits); }
        Take(CatchUp);
        if Under(w, limits) && quiet { OnwardsTwice(w, mid, world); }
      }
    }

    method RunSeal()
      requires Inv(world, limits) && world.actor == Working(Nothing) && world.job.Some? && world.job.value.phase == SealPhase
      modifies this
      ensures Inv(world, limits) && (world.actor == Idle || world.actor == Working(Nothing))
      ensures quiet && Under(old(world), limits) ==> Onwards(old(world))
    {
      hide SourceInv, VersionsInv, PublicationInv, JobInv, JobOk, ObservedOk, CutOk, Under, Advanced;
      ghost var w := world;
      if Under(w, limits) { StepAdvances(w, Probe, limits); }
      Take(Probe);
      ghost var mid := world;
      Await();
      if world.actor != Idle {
        if Under(mid, limits) && world == mid { StepAdvances(mid, CommitSeal, limits); }
        Take(CommitSeal);
        if Under(w, limits) && quiet { OnwardsTwice(w, mid, world); }
      }
    }

    /** The transactions of one phase: what is read is committed by a later, separate transaction. */
    method RunPhase()
      requires Inv(world, limits) && world.actor == Working(Nothing) && world.job.Some? && world.job.value.phase != DonePhase
      modifies this
      ensures Inv(world, limits) && (world.actor == Idle || world.actor == Working(Nothing))
      ensures quiet && Under(old(world), limits) ==> Onwards(old(world))
      ensures quiet && SealedNow(old(world)) ==> world == old(world).(job := Some(old(world).job.value.(phase := DonePhase)))
    {
      hide SourceInv, VersionsInv, PublicationInv, JobInv, JobOk, ObservedOk, CutOk, Advanced;
      var phase := world.job.value.phase;
      ghost var w := world;
      if phase == SchemaPhase {
        if Under(w, limits) { StepAdvances(w, CommitSchema, limits); }
        Take(CommitSchema);
      } else if phase == Scan {
        RunScan();
      } else if phase == CatchUpPhase {
        RunCatchUp();
      } else if phase == SealPhase {
        RunSeal();
      } else {
        Take(Pack);
      }
    }

    /** A done job's version restores to the source's data at its cut. */
    method ReturnVersion() returns (sealed: VersionId)
      requires Inv(world, limits) && world.actor == Working(Nothing) && world.job.Some? && world.job.value.phase == DonePhase
      modifies this`world
      ensures Inv(world, limits) && world == old(world).(actor := Idle)
      ensures sealed == old(world).job.value.version && sealed in world.versions
      ensures var v := world.versions[sealed];
              v.cut < |History(world, v.incarnation)| && v.image == History(world, v.incarnation)[v.cut]
      ensures ShowsPresent(old(world), sealed) ==> ShowsPresent(world, sealed)
    {
      sealed := world.job.value.version;
      assert VersionOk(world, world.versions[sealed]);
      Take(Return);
    }

    /** A capture that can afford its passes, or that is sealed, or done, at the present generation. */
    ghost predicate OnCourse(version: VersionId, turns: nat)
      reads this
    {
      world.job.Some? && world.job.value.version == version && world.actor == Working(Nothing)
      && ((Under(world, limits) && Affords(world, world.job.value) && StepsLeft(world) + 2 <= turns)
          || (SealedNow(world) && turns >= 2)
          || (world.job.value.phase == DonePhase && ShowsPresent(world, version) && turns >= 1))
    }

    lemma DoneOnCourse(version: VersionId, turns: nat)
      requires OnCourse(version, turns) && world.job.value.phase == DonePhase
      ensures ShowsPresent(world, version) && world.job.value.version == version
    {
      hide Inv, StepsLeft, Proof;
    }

    /** One turn brings a capture on its course one turn closer. */
    method RunTurn(ghost version: VersionId, ghost turns: nat)
      requires Inv(world, limits) && world.actor == Working(Nothing) && world.job.Some? && world.job.value.phase != DonePhase
      requires turns >= 1
      modifies this
      ensures Inv(world, limits) && (world.actor == Idle || world.actor == Working(Nothing))
      ensures quiet && old(OnCourse(version, turns)) ==> OnCourse(version, turns - 1)
    {
      ghost var w := world;
      if SealedNow(w) { SealedShows(w, limits); }
      RunPhase();
      hide Inv, Under, StepsLeft, Affords, ShowsPresent;
      if quiet && Under(w, limits) && Affords(w, w.job.value) {
        assert Advanced(w, world, limits);
      }
    }

    /** One visit of a source. Whatever is interleaved, a returned version restores to the source's data at its
        cut. The visit may end at any await with its job left for the next one; but if nothing happens at the awaits, every
        record is readable and it has the turns, it does return a version, of what the source holds, unless the parent has
        that already or the capture found has used up its passes. */
    method ResumeBackupNamespace(parent: Option<VersionId>, turns: nat, readable: bool) returns (sealed: Option<VersionId>)
      requires Inv(world, limits) && Enabled(world, Visit(parent), limits)
      modifies this
      ensures Inv(world, limits) && world.actor == Idle
      ensures sealed.Some? ==>
                && sealed.value in world.versions
                && var v := world.versions[sealed.value];
                   v.cut < |History(world, v.incarnation)| && v.image == History(world, v.incarnation)[v.cut]
      ensures quiet && readable && turns >= TurnsFor(old(world)) && Promising(old(world), parent) ==>
                sealed == Some(Expected(old(world), parent)) && ShowsPresent(world, sealed.value)
    {
      hide SourceInv, VersionsInv, PublicationInv, JobInv, PendingOk;
      sealed := None;
      ghost var w, version := world, Expected(world, parent);
      hide Begun, Promising, StillValid, Under, ShowsPresent, SealedNow;
      OpenVisit(parent);
      var left := turns;
      if quiet && Promising(w, parent) {
        BeginsOnCourse(w, world, parent, limits);
      }
      ghost var on := quiet && Promising(w, parent) && turns >= TurnsFor(w);
      while left > 0 && world.actor != Idle
        invariant Inv(world, limits)
        invariant world.actor == Idle || (world.actor == Working(Nothing) && world.job.Some?)
        invariant quiet && on ==> OnCourse(version, left)
        invariant quiet && Promising(w, parent) && turns >= TurnsFor(w) ==> on
      {
        if world.job.value.phase == DonePhase {
          if quiet && on { DoneOnCourse(version, left); }
          var v := ReturnVersion();
          sealed := Some(v);
          return;
        }
        var unsupported: bool := *;
        if !readable && unsupported {
          // An unsized, oversized or unsupported record abandons the capture.
          Take(Discard);
          return;
        }
        RunTurn(version, left);
        Await();
        left := left - 1;
      }
      if world.actor != Idle {
        Take(Crash);
      }
    }
  }
}
