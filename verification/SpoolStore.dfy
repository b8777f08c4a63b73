/** The spool's transactions as they run. */
module SpoolStore {
  import opened Collections
  import opened SpoolModel
  import opened SpoolProof

  const NOTHING := Holding(map[], {}, map[])

  /** These versions have nothing left, and the others what they had. */
  ghost predicate OnlyEmptied(s: Spool, t: Spool, gone: set<Version>) {
    forall v :: HoldingOf(t, v) == if v in gone then NOTHING else HoldingOf(s, v)
  }

  class IndexedSpool {
    /** The open database, its stores by name. */
    var db: Spool
    /** The worker does not die between two transactions. */
    const calm: bool

    constructor (calm: bool)
      ensures db == EMPTY && this.calm == calm
    {
      db, this.calm := EMPTY, calm;
    }

    method IsPinned(v: Version) returns (pinned: bool)
      ensures pinned <==> Pinned(db, v)
    {
      pinned := db.prepared.Some? && v in db.prepared.value.versions;
    }

    /** The loop over the rows of a commit. */
    method WriteRows(start: Draft, v: Version, rows: seq<Row>) returns (dr: Option<Draft>)
      ensures dr == PutRows(start, v, rows)
    {
      var rs, rb, charged := start.records, start.recordBytes, start.ledger.records;
      var i := 0;
      while i < |rows|
        invariant i <= |rows|
        invariant PutRows(start, v, rows[..i])
          == Some(start.(records := rs, recordBytes := rb, ledger := start.ledger.(records := charged)))
      {
        assert rows[..i + 1][..i] == rows[..i];
        if |rows[i].bytes| > MOST_RECORD_BYTES {
          RowRefused(start, v, rows, i);
          return None;
        }
        var key := (v, rows[i].id);
        var delta := |rows[i].bytes| - if key in rs then |rs[key]| else 0;
        rb := rb + delta;
        charged := charged + delta;
        rs := rs[key := rows[i].bytes];
        i := i + 1;
      }
      assert rows[..i] == rows;
      return Some(start.(records := rs, recordBytes := rb, ledger := start.ledger.(records := charged)));
    }

    /** The loop over the parts of a commit. */
    method WriteParts(start: Draft, added: seq<Row>) returns (dr: Option<Draft>)
      ensures dr == PutParts(start, added)
    {
      var ps, hs, pb, charged := start.parts, start.hashes, start.partBytes, start.ledger.parts;
      var i := 0;
      while i < |added|
        invariant i <= |added|
        invariant PutParts(start, added[..i])
          == Some(start.(parts := ps, hashes := hs, partBytes := pb, ledger := start.ledger.(parts := charged)))
      {
        assert added[..i + 1][..i] == added[..i];
        if |added[i].bytes| > MOST_PART_BYTES {
          PartRefused(start, added, i);
          return None;
        }
        var h := added[i].id;
        var delta := |added[i].bytes| - if h in ps then |ps[h]| else 0;
        pb := pb + delta;
        charged := charged + delta;
        ps := ps[h := added[i].bytes];
        hs := hs + {h};
        i := i + 1;
      }
      assert added[..i] == added;
      return Some(start.(parts := ps, hashes := hs, partBytes := pb, ledger := start.ledger.(parts := charged)));
    }

    /** commitCapture; what is refused is rolled back. */
    method CommitCapture(job: Job, rows: seq<Row>, added: seq<Row>) returns (refusal: Option<Refusal>)
      modifies this
      ensures refusal.None? <==> Commit(old(db), job, rows, added).Ok?
      ensures refusal.Some? ==> Commit(old(db), job, rows, added) == Refused(refusal.value)
      ensures db == if refusal.None? then Commit(old(db), job, rows, added).spool else old(db)
    {
      hide PutRows, PutParts, PartialJobs, VersionFree, Pinned;
      var pinned := IsPinned(job.version);
      if pinned { return Some(PreparedPinned); }
      if job.source !in db.jobs && |PartialJobs(db.jobs)| >= MOST_PARTIAL_JOBS { return Some(Pressure); }
      if job.source in db.jobs && db.jobs[job.source].version != job.version { return Some(JobChanged); }
      var ledger := if job.version in db.ledgers then db.ledgers[job.version] else Ledger(0, 0, 0);
      var held := if job.version in db.hashes then db.hashes[job.version] else {};
      var start := Draft(db.records, db.parts, held, db.recordBytes, db.partBytes, ledger);
      var withRows := WriteRows(start, job.version, rows);
      if withRows.None? { return Some(RecordTooLarge); }
      var withParts := WriteParts(withRows.value, added);
      if withParts.None? { return Some(PartInvalid); }
      var dr := withParts.value;
      var jobBytes := db.jobBytes + job.bytes - dr.ledger.job;
      if dr.ledger.records > CYCLE_BYTES || dr.ledger.parts > CYCLE_BYTES { return Some(NamespaceBudget); }
      if dr.recordBytes + dr.partBytes + jobBytes > SPOOL_BYTES { return Some(Pressure); }
      if !VersionFree(db.jobs, job) { return Some(VersionTaken); }
      db := db.(records := dr.records, parts := dr.parts,
                recordBytes := dr.recordBytes, partBytes := dr.partBytes, jobBytes := jobBytes,
                ledgers := db.ledgers[job.version := dr.ledger.(job := job.bytes)],
                hashes := db.hashes[job.version := dr.hashes], jobs := db.jobs[job.source := job]);
      return None;
    }

    /** discardNamespace, and what an eviction, a dropped capture or a finished publication comes to. */
    method DiscardNamespace(v: Version) returns (ok: bool)
      modifies this
      ensures ok <==> !Pinned(old(db), v)
      ensures db == if ok then Discard(old(db), v).spool else old(db)
    {
      hide Others, OtherJobs;
      var pinned := IsPinned(v);
      if pinned { return false; }
      var ledger := if v in db.ledgers then db.ledgers[v] else Ledger(0, 0, 0);
      var gone := if v in db.hashes then db.hashes[v] else {};
      var pressure := db.pressureSource;
      if pressure.Some? && pressure.value in db.jobs && db.jobs[pressure.value].version == v { pressure := None; }
      db := db.(records := Others(db.records, v), parts := db.parts - gone);
      db := db.(recordBytes := AtLeastZero(db.recordBytes - ledger.records), partBytes := AtLeastZero(db.partBytes - ledger.parts),
                jobBytes := AtLeastZero(db.jobBytes - ledger.job), ledgers := db.ledgers - {v},
                invalidated := db.invalidated - {v}, hashes := db.hashes - {v});
      db := db.(jobs := OtherJobs(db.jobs, v), pressureSource := pressure);
      return true;
    }

    /** finish: the receipt lifts the pin in one transaction, then every version published is discarded in one of its
        own. A death in between leaves some of them. */
    method FinishPublication(checkpointId: string, digest: string, sequence: nat)
      returns (ok: bool, finished: bool, ghost gone: set<Version>)
      modifies this
      ensures ok <==> Finish(old(db), checkpointId, digest, sequence).Ok?
      ensures !ok ==> db == old(db)
      ensures ok ==> db.prepared.None? && gone <= old(db).prepared.value.versions
      ensures ok && (finished || calm) ==> gone == old(db).prepared.value.versions
      ensures ok && Exact(old(db)) ==> Exact(db) && OnlyEmptied(old(db), db, gone)
    {
      gone := {};
      if db.prepared.None? || db.prepared.value.checkpointId != checkpointId || db.prepared.value.digest != digest
         || db.prepared.value.sequence != sequence { return false, false, gone; }
      ok := true;
      var versions := db.prepared.value.versions;
      ghost var s := db;
      db := db.(prepared := None);
      if Exact(s) { PrepareIs(s, db); }
      assert OnlyEmptied(s, db, {}) by {
        forall v ensures HoldingOf(db, v) == HoldingOf(s, v) { SameHolding(s, db, v); }
        hide HoldingOf;
      }
      hide Exact, HoldingOf, OnlyEmptied;
      ghost var unpinned := db;
      finished, gone := DiscardEach(versions);
      if Exact(s) { EmptiedMore(s, unpinned, db, {}, gone); }
      assert {} + gone == gone;
    }

    method DiscardEach(versions: set<Version>) returns (finished: bool, ghost gone: set<Version>)
      requires db.prepared.None?
      modifies this
      ensures db.prepared.None? && gone <= versions && (finished ==> gone == versions) && (calm ==> finished)
      ensures Exact(old(db)) ==> Exact(db) && OnlyEmptied(old(db), db, gone)
    {
      ghost var s := db;
      gone := {};
      var left := versions;
      assert OnlyEmptied(s, db, gone);
      hide Exact, Discard, OnlyEmptied;
      while left != {}
        invariant left <= versions && gone == versions - left && db.prepared.None?
        invariant Exact(s) ==> Exact(db) && OnlyEmptied(s, db, gone)
        decreases |left|
      {
        var lost: bool := *;
        if !calm && lost { return false, gone; }
        var v :| v in left;
        ghost var before := db;
        DiscardUnpinned(before, v);
        var ok := DiscardNamespace(v);
        if Exact(s) {
          Emptied(before, v);
          EmptiedMore(s, before, db, gone, {v});
        }
        left, gone := left - {v}, gone + {v};
      }
      return true, gone;
    }

    method PrepareManifest(p: Prepared) returns (ok: bool)
      modifies this
      ensures ok <==> old(db).prepared.None? || old(db).prepared == Some(p)
      ensures db == if ok then Prepare(old(db), p).spool else old(db)
    {
      if db.prepared.Some? && db.prepared.value != p { return false; }
      db := db.(prepared := Some(p));
      return true;
    }
  }

  lemma DiscardUnpinned(s: Spool, v: Version)
    requires s.prepared.None?
    ensures Discard(s, v).Ok? && Discard(s, v).spool.prepared.None? && !Pinned(s, v)
  {
  }

  lemma EmptiedMore(s: Spool, t: Spool, u: Spool, gone: set<Version>, more: set<Version>)
    requires OnlyEmptied(s, t, gone) && OnlyEmptied(t, u, more)
    ensures OnlyEmptied(s, u, gone + more)
  {
    hide HoldingOf;
  }

  /** A discarded version has nothing left, and the others what they had. */
  lemma Emptied(s: Spool, v: Version)
    requires Exact(s) && s.prepared.None?
    ensures Discard(s, v).Ok? && Exact(Discard(s, v).spool)
    ensures OnlyEmptied(s, Discard(s, v).spool, {v})
  {
    DiscardStaysExact(s, v);
    DiscardIs(s, v);
    hide Exact, Discard, Of;
    var after := Discard(s, v).spool;
    forall w
      ensures HoldingOf(after, w) == if w == v then NOTHING else HoldingOf(s, w)
    {
      if w == v { OnlyNone(after.parts); } else { HoldingByParts(s, after, w); }
    }
  }

  lemma RowRefused(start: Draft, v: Version, rows: seq<Row>, i: nat)
    requires i < |rows| && |rows[i].bytes| > MOST_RECORD_BYTES
    ensures PutRows(start, v, rows).None?
    decreases |rows|
  {
    if i < |rows| - 1 { RowRefused(start, v, rows[..|rows| - 1], i); }
  }

  lemma PartRefused(start: Draft, parts: seq<Row>, i: nat)
    requires i < |parts| && |parts[i].bytes| > MOST_PART_BYTES
    ensures PutParts(start, parts).None?
    decreases |parts|
  {
    if i < |parts| - 1 { PartRefused(start, parts[..|parts| - 1], i); }
  }
}
