/** The spool's counters are what is stored, in all and for every version, and a prepared manifest keeps its versions
    as they are. */
module SpoolProof {
  import opened Collections
  import opened SpoolModel

  function Len(b: Bytes): nat { |b| }
  function JobBytes(j: Job): nat { j.bytes }

  /** The records and the parts of one version. */
  function Of(records: map<(Version, string), Bytes>, v: Version): map<(Version, string), Bytes> {
    map k | k in records && k.0 == v :: records[k]
  }

  function Only(parts: map<string, Bytes>, hs: set<string>): map<string, Bytes> {
    map h | h in parts && h in hs :: parts[h]
  }

  /** Every ledger row is that of one stored job, and tells what the job measured. */
  ghost predicate JobsPaired(jobs: map<Source, Job>, ledgers: map<Version, Ledger>) {
    (forall x :: x in jobs ==> jobs[x].source == x && jobs[x].version in ledgers
                               && ledgers[jobs[x].version].job == jobs[x].bytes)
    && (forall x, y :: x in jobs && y in jobs && jobs[x].version == jobs[y].version ==> x == y)
    && (forall v :: v in ledgers ==> exists x :: x in jobs && jobs[x].version == v)
  }

  ghost predicate JobsOk(s: Spool) {
    JobsPaired(s.jobs, s.ledgers) && s.hashes.Keys == s.ledgers.Keys && s.jobBytes == Total(s.jobs, JobBytes)
  }

  ghost predicate RecordsOk(s: Spool) {
    s.recordBytes == Total(s.records, Len)
    && (forall v :: v in s.ledgers ==> s.ledgers[v].records == Total(Of(s.records, v), Len))
    && (forall k :: k in s.records ==> k.0 in s.ledgers)
  }

  /** Every stored part belongs to one version. */
  ghost predicate Owned(parts: map<string, Bytes>, hashes: map<Version, set<string>>) {
    (forall v, h :: v in hashes && h in hashes[v] ==> h in parts)
    && (forall h :: h in parts ==> exists v :: v in hashes && h in hashes[v])
    && (forall v, w, h :: v in hashes && w in hashes && h in hashes[v] && h in hashes[w] ==> v == w)
  }

  ghost predicate PartsCharged(s: Spool) {
    forall v :: v in s.ledgers && v in s.hashes ==> s.ledgers[v].parts == Total(Only(s.parts, s.hashes[v]), Len)
  }

  ghost predicate PartsOk(s: Spool) {
    s.partBytes == Total(s.parts, Len) && PartsCharged(s) && Owned(s.parts, s.hashes)
  }

  /** Every counter is exact. */
  ghost predicate Exact(s: Spool) { JobsOk(s) && RecordsOk(s) && PartsOk(s) }

  ghost predicate Bounded(s: Spool) {
    s.recordBytes + s.partBytes + s.jobBytes <= SPOOL_BYTES && |PartialJobs(s.jobs)| <= MOST_PARTIAL_JOBS
    && forall v :: v in s.ledgers ==> s.ledgers[v].records <= CYCLE_BYTES && s.ledgers[v].parts <= CYCLE_BYTES
  }

  /** What the capture side guarantees of a commit: a finished job stays finished, and the parts are the version's own.
      A part's hash is taken over text that names its version. */
  predicate Orderly(s: Spool, step: Step) {
    step.DoCommit? ==>
      (step.job.source in s.jobs && s.jobs[step.job.source].phase == Done ==> step.job.phase == Done)
      && OwnParts(s, step.job.version, step.parts)
  }

  predicate OwnParts(s: Spool, v: Version, parts: seq<Row>) {
    forall i, w :: 0 <= i < |parts| && w in s.hashes && parts[i].id in s.hashes[w] ==> w == v
  }

  // ---------------------------------------------------------------- drafts

  ghost predicate RecordsDrafted(s: Spool, v: Version, dr: Draft) {
    dr.recordBytes == Total(dr.records, Len) && dr.ledger.records == Total(Of(dr.records, v), Len)
    && (forall k :: k in dr.records && k.0 != v ==> k in s.records && s.records[k] == dr.records[k])
    && (forall k :: k in s.records && k.0 != v ==> k in dr.records)
  }

  ghost predicate PartsDrafted(s: Spool, v: Version, dr: Draft) {
    dr.partBytes == Total(dr.parts, Len) && dr.ledger.parts == Total(Only(dr.parts, dr.hashes), Len)
    && (forall h :: h in dr.hashes ==> h in dr.parts)
    && (forall h :: h in dr.parts && h !in dr.hashes ==> h in s.parts && s.parts[h] == dr.parts[h])
    && (forall h :: h in s.parts ==> h in dr.parts)
    && HashesOf(s, v) <= dr.hashes
    && (forall w, h :: w in s.hashes && w != v && h in s.hashes[w] ==> h !in dr.hashes)
  }

  lemma PutRowDrafts(s: Spool, v: Version, dr: Draft, row: Row)
    requires RecordsDrafted(s, v, dr) && PutRow(dr, v, row).Some?
    ensures RecordsDrafted(s, v, PutRow(dr, v, row).value)
  {
    var k := (v, row.id);
    TotalPut(dr.records, Len, k, row.bytes);
    TotalPut(Of(dr.records, v), Len, k, row.bytes);
    assert Of(dr.records[k := row.bytes], v) == Of(dr.records, v)[k := row.bytes];
  }

  lemma {:induction false} PutRowsDrafts(s: Spool, v: Version, dr: Draft, rows: seq<Row>)
    requires RecordsDrafted(s, v, dr) && PutRows(dr, v, rows).Some?
    ensures var after := PutRows(dr, v, rows).value;
      RecordsDrafted(s, v, after) && after.parts == dr.parts && after.hashes == dr.hashes
      && after.partBytes == dr.partBytes && after.ledger.parts == dr.ledger.parts && after.ledger.job == dr.ledger.job
  {
    hide RecordsDrafted;
    if rows != [] {
      PutRowsDrafts(s, v, dr, rows[..|rows| - 1]);
      PutRowDrafts(s, v, PutRows(dr, v, rows[..|rows| - 1]).value, rows[|rows| - 1]);
    }
  }

  lemma PutPartDrafts(s: Spool, v: Version, dr: Draft, part: Row)
    requires PartsDrafted(s, v, dr) && PutPart(dr, part).Some? && OwnParts(s, v, [part])
    requires forall h :: h in s.parts ==> exists w :: w in s.hashes && h in s.hashes[w]
    ensures PartsDrafted(s, v, PutPart(dr, part).value)
  {
    var h := part.id;
    var after := PutPart(dr, part).value;
    assert [part][0].id == h;
    TotalPut(dr.parts, Len, h, part.bytes);
    if h in dr.hashes {
      TotalPut(Only(dr.parts, dr.hashes), Len, h, part.bytes);
      assert Only(after.parts, after.hashes) == Only(dr.parts, dr.hashes)[h := part.bytes];
    } else {
      assert h !in dr.parts;
      TotalPut(Only(dr.parts, dr.hashes), Len, h, part.bytes);
      assert Only(after.parts, after.hashes) == Only(dr.parts, dr.hashes)[h := part.bytes];
    }
  }

  lemma {:induction false} PutPartsDrafts(s: Spool, v: Version, dr: Draft, parts: seq<Row>)
    requires PartsDrafted(s, v, dr) && PutParts(dr, parts).Some? && OwnParts(s, v, parts)
    requires forall h :: h in s.parts ==> exists w :: w in s.hashes && h in s.hashes[w]
    ensures var after := PutParts(dr, parts).value;
      PartsDrafted(s, v, after) && after.records == dr.records && after.recordBytes == dr.recordBytes
      && after.ledger.records == dr.ledger.records && after.ledger.job == dr.ledger.job
  {
    hide PartsDrafted;
    if parts != [] {
      PutPartsDrafts(s, v, dr, parts[..|parts| - 1]);
      PutPartDrafts(s, v, PutParts(dr, parts[..|parts| - 1]).value, parts[|parts| - 1]);
    }
  }

  lemma RecordsStart(s: Spool, v: Version)
    requires RecordsOk(s)
    ensures RecordsDrafted(s, v, Drafted(s, v))
  {
    if v !in s.ledgers {
      assert Of(s.records, v) == map[];
      TotalEmpty<(Version, string), Bytes>(Len);
    }
  }

  lemma PartsStart(s: Spool, v: Version)
    requires PartsOk(s) && s.hashes.Keys == s.ledgers.Keys
    ensures PartsDrafted(s, v, Drafted(s, v))
    ensures forall h :: h in s.parts ==> exists w :: w in s.hashes && h in s.hashes[w]
  {
    if v !in s.ledgers {
      assert v !in s.hashes;
      assert Only(s.parts, {}) == map[];
      TotalEmpty<string, Bytes>(Len);
    } else {
      assert v in s.hashes;
    }
  }

  lemma StartsDrafted(s: Spool, v: Version)
    requires Exact(s)
    ensures RecordsDrafted(s, v, Drafted(s, v)) && PartsDrafted(s, v, Drafted(s, v))
    ensures forall h :: h in s.parts ==> exists w :: w in s.hashes && h in s.hashes[w]
  {
    hide RecordsOk, PartsOk, RecordsDrafted, PartsDrafted;
    RecordsStart(s, v);
    PartsStart(s, v);
  }

  // ---------------------------------------------------------------- commits

  /** The draft a commit writes. */
  function FinalDraft(s: Spool, job: Job, rows: seq<Row>, parts: seq<Row>): Option<Draft> {
    var withRows := PutRows(Drafted(s, job.version), job.version, rows);
    if withRows.None? then None else PutParts(withRows.value, parts)
  }

  lemma CommitIsDraft(s: Spool, job: Job, rows: seq<Row>, parts: seq<Row>)
    requires Commit(s, job, rows, parts).Ok?
    ensures FinalDraft(s, job, rows, parts).Some? && !Pinned(s, job.version) && VersionFree(s.jobs, job)
    ensures job.source in s.jobs ==> s.jobs[job.source].version == job.version
    ensures job.source !in s.jobs ==> |PartialJobs(s.jobs)| < MOST_PARTIAL_JOBS
    ensures var dr := FinalDraft(s, job, rows, parts).value;
      var jobBytes := s.jobBytes + job.bytes - dr.ledger.job;
      dr.recordBytes + dr.partBytes + jobBytes <= SPOOL_BYTES
      && dr.ledger.records <= CYCLE_BYTES && dr.ledger.parts <= CYCLE_BYTES
      && Commit(s, job, rows, parts).spool == Written(s, job, dr)
  {
    hide PutRows, PutParts, VersionFree, PartialJobs;
  }

  function Written(s: Spool, job: Job, dr: Draft): Spool {
    s.(records := dr.records, parts := dr.parts, jobs := s.jobs[job.source := job],
       ledgers := s.ledgers[job.version := dr.ledger.(job := job.bytes)],
       hashes := s.hashes[job.version := dr.hashes], recordBytes := dr.recordBytes, partBytes := dr.partBytes,
       jobBytes := s.jobBytes + job.bytes - dr.ledger.job)
  }

  lemma DraftIsExact(s: Spool, job: Job, rows: seq<Row>, parts: seq<Row>)
    requires Exact(s) && OwnParts(s, job.version, parts) && FinalDraft(s, job, rows, parts).Some?
    ensures var dr := FinalDraft(s, job, rows, parts).value;
      RecordsDrafted(s, job.version, dr) && PartsDrafted(s, job.version, dr)
      && dr.ledger.job == LedgerOf(s, job.version).job
  {
    hide RecordsOk, PartsOk, JobsOk, PutRows, PutParts;
    StartsDrafted(s, job.version);
    var start := Drafted(s, job.version);
    PutRowsDrafts(s, job.version, start, rows);
    var mid := PutRows(start, job.version, rows).value;
    assert PartsDrafted(s, job.version, mid);
    PutPartsDrafts(s, job.version, mid, parts);
    var dr := PutParts(mid, parts).value;
    assert RecordsDrafted(s, job.version, dr);
  }

  lemma WrittenRecords(s: Spool, job: Job, dr: Draft)
    requires RecordsOk(s) && RecordsDrafted(s, job.version, dr)
    ensures RecordsOk(Written(s, job, dr))
  {
    var after := Written(s, job, dr);
    assert forall k :: k in after.records ==> k.0 in after.ledgers;
    hide Total;
    forall v | v in after.ledgers && v != job.version
      ensures after.ledgers[v].records == Total(Of(after.records, v), Len)
    {
      DraftSparesRecords(s, job.version, dr, v);
    }
    hide Of;
  }

  /** The parts of the other versions are as they were. */
  lemma OthersKeepParts(s: Spool, v: Version, dr: Draft, w: Version)
    requires PartsOk(s) && PartsDrafted(s, v, dr) && w in s.hashes && w != v
    ensures Only(dr.parts, s.hashes[w]) == Only(s.parts, s.hashes[w])
    ensures forall h :: h in s.hashes[w] ==> h !in dr.hashes && h in dr.parts
  {
  }

  lemma WrittenOwned(s: Spool, v0: Version, dr: Draft)
    requires Owned(s.parts, s.hashes) && PartsDrafted(s, v0, dr)
    ensures Owned(dr.parts, s.hashes[v0 := dr.hashes])
  {
    var hashes := s.hashes[v0 := dr.hashes];
    forall h | h in dr.parts ensures exists v :: v in hashes && h in hashes[v] {
      if h in dr.hashes { assert h in hashes[v0]; } else { PartHasOwner(s, v0, dr, h, hashes); }
    }
    hide Only, Total;
    assert forall v :: v in hashes && v != v0 ==> v in s.hashes && hashes[v] == s.hashes[v];
    forall v, h | v in hashes && h in hashes[v] ensures h in dr.parts && (v != v0 ==> h !in dr.hashes) {
      if v != v0 { assert h in s.hashes[v]; }
    }
  }

  lemma WrittenParts(s: Spool, job: Job, dr: Draft)
    requires PartsOk(s) && s.hashes.Keys == s.ledgers.Keys && PartsDrafted(s, job.version, dr)
    ensures PartsOk(Written(s, job, dr))
  {
    var after := Written(s, job, dr);
    WrittenOwned(s, job.version, dr);
    forall v | v in after.ledgers && v in after.hashes
      ensures after.ledgers[v].parts == Total(Only(after.parts, after.hashes[v]), Len)
    {
      if v != job.version { OthersKeepParts(s, job.version, dr, v); }
    }
    hide Owned;
  }

  lemma PartHasOwner(s: Spool, v0: Version, dr: Draft, h: string,
                     hashes: map<Version, set<string>>)
    requires Owned(s.parts, s.hashes) && PartsDrafted(s, v0, dr) && h in dr.parts && h !in dr.hashes
    requires hashes == s.hashes[v0 := dr.hashes]
    ensures exists v :: v in hashes && h in hashes[v]
  {
    var v :| v in s.hashes && h in s.hashes[v];
    assert v != v0;
    assert v in hashes && h in hashes[v];
  }

  /** What the job was charged before. */
  lemma JobLedger(s: Spool, job: Job)
    requires JobsOk(s) && VersionFree(s.jobs, job)
    requires job.source in s.jobs ==> s.jobs[job.source].version == job.version
    ensures LedgerOf(s, job.version).job == if job.source in s.jobs then s.jobs[job.source].bytes else 0
    ensures job.version in s.ledgers <==> job.source in s.jobs
  {
  }

  lemma WrittenPaired(s: Spool, job: Job, ledger: Ledger)
    requires JobsPaired(s.jobs, s.ledgers) && VersionFree(s.jobs, job) && ledger.job == job.bytes
    requires job.source in s.jobs ==> s.jobs[job.source].version == job.version
    ensures JobsPaired(s.jobs[job.source := job], s.ledgers[job.version := ledger])
  {
    var jobs, ledgers := s.jobs[job.source := job], s.ledgers[job.version := ledger];
    forall v | v in ledgers ensures exists x :: x in jobs && jobs[x].version == v {
      if v == job.version { assert jobs[job.source].version == v; } else {
        var x :| x in s.jobs && s.jobs[x].version == v;
        assert jobs[x].version == v;
      }
    }
    forall x | x in jobs
      ensures jobs[x].source == x && jobs[x].version in ledgers && ledgers[jobs[x].version].job == jobs[x].bytes
    {
      if x != job.source { assert s.jobs[x].version != job.version; }
    }
  }

  lemma WrittenJobs(s: Spool, job: Job, dr: Draft)
    requires JobsOk(s) && VersionFree(s.jobs, job) && dr.ledger.job == LedgerOf(s, job.version).job
    requires job.source in s.jobs ==> s.jobs[job.source].version == job.version
    ensures JobsOk(Written(s, job, dr))
  {
    JobLedger(s, job);
    WrittenPaired(s, job, dr.ledger.(job := job.bytes));
    hide JobsPaired, VersionFree;
    TotalPut(s.jobs, JobBytes, job.source, job);
    var after := Written(s, job, dr);
    assert after.hashes.Keys == s.hashes.Keys + {job.version} == s.ledgers.Keys + {job.version} == after.ledgers.Keys;
  }

  /** A commit keeps every counter exact. */
  lemma CommitStaysExact(s: Spool, job: Job, rows: seq<Row>, parts: seq<Row>)
    requires Exact(s) && OwnParts(s, job.version, parts) && Commit(s, job, rows, parts).Ok?
    ensures Exact(Commit(s, job, rows, parts).spool)
  {
    hide RecordsOk, PartsOk, JobsOk, Commit, FinalDraft, RecordsDrafted, PartsDrafted, Written, OwnParts, VersionFree;
    CommitIsDraft(s, job, rows, parts);
    DraftIsExact(s, job, rows, parts);
    var dr := FinalDraft(s, job, rows, parts).value;
    WrittenRecords(s, job, dr);
    assert s.hashes.Keys == s.ledgers.Keys by { assert JobsOk(s); SameKeys(s); }
    WrittenParts(s, job, dr);
    WrittenJobs(s, job, dr);
  }

  lemma SameKeys(s: Spool)
    requires JobsOk(s)
    ensures s.hashes.Keys == s.ledgers.Keys
  {
  }

  // ---------------------------------------------------------------- discards

  lemma OthersTotal(records: map<(Version, string), Bytes>, v: Version)
    ensures Total(records, Len) == Total(Others(records, v), Len) + Total(Of(records, v), Len)
  {
    var gone := Of(records, v);
    TotalSplit(records, Len, gone.Keys);
    assert records - gone.Keys == Others(records, v);
    assert records - (records.Keys - gone.Keys) == gone;
  }

  lemma OthersOf(records: map<(Version, string), Bytes>, v: Version, w: Version)
    ensures Of(Others(records, v), w) == if w == v then map[] else Of(records, w)
  {
  }

  lemma NoneOf(s: Spool, v: Version)
    requires RecordsOk(s) && v !in s.ledgers
    ensures Of(s.records, v) == map[] && Total(Of(s.records, v), Len) == 0
  {
    TotalEmpty<(Version, string), Bytes>(Len);
  }

  /** The spool without a version, by components. */
  lemma DiscardIs(s: Spool, v: Version)
    requires !Pinned(s, v)
    ensures Discard(s, v).Ok?
    ensures var (after, ledger) := (Discard(s, v).spool, LedgerOf(s, v));
      after.records == Others(s.records, v) && after.parts == s.parts - HashesOf(s, v)
      && after.ledgers == s.ledgers - {v} && after.hashes == s.hashes - {v}
      && after.jobs == OtherJobs(s.jobs, v)
      && after.recordBytes == AtLeastZero(s.recordBytes - ledger.records)
      && after.partBytes == AtLeastZero(s.partBytes - ledger.parts) && after.jobBytes == AtLeastZero(s.jobBytes - ledger.job)
  {
  }

  lemma DiscardRecordBytes(s: Spool, v: Version, after: Spool)
    requires RecordsOk(s) && after.records == Others(s.records, v)
    requires after.recordBytes == AtLeastZero(s.recordBytes - LedgerOf(s, v).records)
    ensures after.recordBytes == Total(after.records, Len) == s.recordBytes - Total(Of(s.records, v), Len)
  {
    OthersTotal(s.records, v);
    if v !in s.ledgers { NoneOf(s, v); }
    hide Others, Of, Total;
  }

  lemma DiscardRecords(s: Spool, v: Version, after: Spool)
    requires RecordsOk(s) && after.records == Others(s.records, v) && after.ledgers == s.ledgers - {v}
    requires after.recordBytes == AtLeastZero(s.recordBytes - LedgerOf(s, v).records)
    ensures RecordsOk(after) && after.recordBytes == s.recordBytes - Total(Of(s.records, v), Len)
    ensures Of(after.records, v) == map[]
  {
    assert forall k :: k in after.records ==> k.0 in after.ledgers;
    DiscardRecordBytes(s, v, after);
    OthersOf(s.records, v, v);
    hide Others, Of, Total, LedgerOf;
    forall w | w in after.ledgers ensures after.ledgers[w].records == Total(Of(after.records, w), Len) {
      OthersOf(s.records, v, w);
    }
  }

  lemma OnlyTotal(parts: map<string, Bytes>, hs: set<string>)
    ensures Total(parts, Len) == Total(parts - hs, Len) + Total(Only(parts, hs), Len)
  {
    var gone := Only(parts, hs);
    TotalSplit(parts, Len, gone.Keys);
    assert parts - gone.Keys == parts - hs;
    assert parts - (parts.Keys - gone.Keys) == gone;
  }

  lemma NoParts(s: Spool)
    ensures Only(s.parts, {}) == map[] && Total(Only(s.parts, {}), Len) == 0
  {
    TotalEmpty<string, Bytes>(Len);
  }

  lemma DiscardParts(s: Spool, v: Version, after: Spool)
    requires PartsOk(s) && s.hashes.Keys == s.ledgers.Keys
    requires after.parts == s.parts - HashesOf(s, v) && after.ledgers == s.ledgers - {v} && after.hashes == s.hashes - {v}
    requires after.partBytes == AtLeastZero(s.partBytes - LedgerOf(s, v).parts)
    ensures PartsOk(after) && after.partBytes == s.partBytes - Total(Only(s.parts, HashesOf(s, v)), Len)
  {
    OnlyTotal(s.parts, HashesOf(s, v));
    if v !in s.ledgers {
      assert v !in s.hashes;
      NoParts(s);
    } else {
      assert v in s.hashes;
    }
    DiscardOwned(s, v);
    forall w | w in after.ledgers && w in after.hashes
      ensures after.ledgers[w].parts == Total(Only(after.parts, after.hashes[w]), Len)
    {
      DiscardKeepsParts(s, v, w);
    }
    hide Owned, Only;
  }

  lemma DiscardOwned(s: Spool, v: Version)
    requires Owned(s.parts, s.hashes)
    ensures Owned(s.parts - HashesOf(s, v), s.hashes - {v})
  {
    var parts, hashes := s.parts - HashesOf(s, v), s.hashes - {v};
    forall h | h in parts ensures exists w :: w in hashes && h in hashes[w] {
      var w :| w in s.hashes && h in s.hashes[w];
      assert w in hashes && h in hashes[w];
    }
  }

  lemma DiscardKeepsParts(s: Spool, v: Version, w: Version)
    requires Owned(s.parts, s.hashes) && w in s.hashes && w != v
    ensures Only(s.parts - HashesOf(s, v), s.hashes[w]) == Only(s.parts, s.hashes[w])
  {
  }

  lemma DiscardJobs(s: Spool, v: Version, after: Spool)
    requires JobsOk(s) && after.ledgers == s.ledgers - {v} && after.hashes == s.hashes - {v}
    requires after.jobs == OtherJobs(s.jobs, v)
    requires after.jobBytes == AtLeastZero(s.jobBytes - LedgerOf(s, v).job)
    ensures JobsOk(after)
  {
    DiscardPaired(s, v, after.jobs);
    DiscardJobBytes(s, v, after.jobs);
    assert after.hashes.Keys == s.hashes.Keys - {v} == s.ledgers.Keys - {v} == after.ledgers.Keys;
    hide JobsPaired;
  }

  lemma DiscardJobBytes(s: Spool, v: Version, jobs: map<Source, Job>)
    requires JobsOk(s) && jobs == OtherJobs(s.jobs, v)
    ensures Total(s.jobs, JobBytes) == Total(jobs, JobBytes) + LedgerOf(s, v).job
  {
    if v in s.ledgers {
      var x := JobFor(s, v);
      hide OtherJobs, JobsPaired;
      TotalRemove(s.jobs, JobBytes, x);
    } else {
      assert jobs == s.jobs;
    }
  }

  lemma JobFor(s: Spool, v: Version) returns (x: Source)
    requires JobsPaired(s.jobs, s.ledgers) && v in s.ledgers
    ensures x in s.jobs && s.jobs[x].version == v && OtherJobs(s.jobs, v) == s.jobs - {x}
    ensures s.ledgers[v].job == s.jobs[x].bytes
  {
    x :| x in s.jobs && s.jobs[x].version == v;
  }

  lemma DiscardPaired(s: Spool, v: Version, jobs: map<Source, Job>)
    requires JobsPaired(s.jobs, s.ledgers)
    requires jobs == OtherJobs(s.jobs, v)
    ensures JobsPaired(jobs, s.ledgers - {v})
  {
    forall w | w in s.ledgers - {v} ensures exists x :: x in jobs && jobs[x].version == w {
      var x :| x in s.jobs && s.jobs[x].version == w;
      assert x in jobs && jobs[x].version == w;
    }
  }

  /** A discard takes away what the version had and nothing else, and every counter stays exact. */
  lemma DiscardStaysExact(s: Spool, v: Version)
    requires Exact(s) && !Pinned(s, v)
    ensures var after := Discard(s, v).spool;
      Discard(s, v).Ok? && Exact(after)
      && after.recordBytes == s.recordBytes - Total(Of(s.records, v), Len)
      && after.partBytes == s.partBytes - Total(Only(s.parts, HashesOf(s, v)), Len)
      && Of(after.records, v) == map[] && v !in after.ledgers
      && forall w :: w != v ==> Of(after.records, w) == Of(s.records, w) && HashesOf(after, w) == HashesOf(s, w)
                                && Only(after.parts, HashesOf(after, w)) == Only(s.parts, HashesOf(s, w))
  {
    hide *;
    DiscardIs(s, v);
    var after := Discard(s, v).spool;
    ExactParts(s);
    DiscardRecords(s, v, after);
    DiscardParts(s, v, after);
    DiscardJobs(s, v, after);
    ExactWhole(after);
    forall w | w != v
      ensures Of(after.records, w) == Of(s.records, w) && HashesOf(after, w) == HashesOf(s, w)
      ensures Only(after.parts, HashesOf(after, w)) == Only(s.parts, HashesOf(s, w))
    {
      OthersOf(s.records, v, w);
      DiscardSpares(s, v, w, after);
    }
  }

  lemma ExactParts(s: Spool)
    requires Exact(s)
    ensures RecordsOk(s) && PartsOk(s) && JobsOk(s) && Owned(s.parts, s.hashes) && s.hashes.Keys == s.ledgers.Keys
  {
  }

  lemma ExactWhole(s: Spool)
    requires RecordsOk(s) && PartsOk(s) && JobsOk(s)
    ensures Exact(s)
  {
  }

  lemma DiscardSpares(s: Spool, v: Version, w: Version, after: Spool)
    requires Owned(s.parts, s.hashes) && w != v
    requires after.parts == s.parts - HashesOf(s, v) && after.hashes == s.hashes - {v}
    ensures HashesOf(after, w) == HashesOf(s, w)
    ensures Only(after.parts, HashesOf(after, w)) == Only(s.parts, HashesOf(s, w))
  {
    if w in s.hashes { DiscardKeepsParts(s, v, w); } else {
      assert Only(after.parts, {}) == map[] == Only(s.parts, {});
    }
  }

  // ---------------------------------------------------------------- the other steps

  lemma NoLedgers(s: Spool)
    requires JobsOk(s) && s.jobs == map[]
    ensures s.ledgers == map[] && s.hashes == map[] && s.jobBytes == 0
  {
    TotalEmpty<Source, Job>(JobBytes);
    assert s.hashes.Keys == s.ledgers.Keys;
  }

  lemma NothingStored(s: Spool)
    requires RecordsOk(s) && PartsOk(s) && s.ledgers == map[] && s.hashes == map[]
    ensures s.records == map[] && s.parts == map[] && s.recordBytes == 0 && s.partBytes == 0
  {
    TotalEmpty<(Version, string), Bytes>(Len);
    TotalEmpty<string, Bytes>(Len);
    forall h ensures h !in s.parts { }
    assert s.parts == map[];
    assert forall k :: k !in s.records;
    assert s.records == map[];
  }

  /** With no job left nothing is stored, so that clearing takes nothing away. */
  lemma ClearIsVacuous(s: Spool)
    requires Exact(s)
    ensures ClearAll(s) == Ok(s)
  {
    if s.jobs == map[] {
      NoLedgers(s);
      hide JobsOk;
      NothingStored(s);
      hide RecordsOk, PartsOk;
    }
  }

  lemma AbandonIs(s: Spool, checkpointId: string, digest: string)
    requires Abandon(s, checkpointId, digest).Ok?
    ensures var t := Abandon(s, checkpointId, digest).spool;
      t.records == s.records && t.parts == s.parts && t.ledgers == s.ledgers && t.hashes == s.hashes
      && t.recordBytes == s.recordBytes && t.partBytes == s.partBytes && t.jobBytes == s.jobBytes
      && t.jobs.Keys == s.jobs.Keys
      && forall x :: x in t.jobs ==> t.jobs[x] == s.jobs[x].(invalidated := t.jobs[x].invalidated)
  {
  }

  lemma AbandonStaysExact(s: Spool, checkpointId: string, digest: string)
    requires Exact(s) && Abandon(s, checkpointId, digest).Ok?
    ensures var after := Abandon(s, checkpointId, digest).spool;
      Exact(after) && PartialJobs(after.jobs) == PartialJobs(s.jobs)
  {
    hide *;
    var after := Abandon(s, checkpointId, digest).spool;
    AbandonIs(s, checkpointId, digest);
    ExactParts(s);
    SameRecords(s, after);
    SameParts(s, after);
    AbandonJobs(s, after);
    SamePhases(s.jobs, after.jobs);
    ExactWhole(after);
  }

  lemma SamePhases(jobs: map<Source, Job>, others: map<Source, Job>)
    requires others.Keys == jobs.Keys && forall x :: x in jobs ==> others[x].phase == jobs[x].phase
    ensures PartialJobs(others) == PartialJobs(jobs)
  {
  }

  lemma SameRecords(s: Spool, t: Spool)
    requires RecordsOk(s) && t.records == s.records && t.ledgers == s.ledgers && t.recordBytes == s.recordBytes
    ensures RecordsOk(t)
  {
  }

  lemma SameParts(s: Spool, t: Spool)
    requires PartsOk(s) && t.parts == s.parts && t.ledgers == s.ledgers && t.hashes == s.hashes
    requires t.partBytes == s.partBytes
    ensures PartsOk(t)
  {
  }

  lemma AbandonJobs(s: Spool, t: Spool)
    requires JobsOk(s) && t.jobs.Keys == s.jobs.Keys && t.ledgers == s.ledgers && t.hashes == s.hashes
    requires forall x :: x in t.jobs ==> t.jobs[x] == s.jobs[x].(invalidated := t.jobs[x].invalidated)
    requires t.jobBytes == s.jobBytes
    ensures JobsOk(t)
  {
    AbandonPaired(s, t.jobs);
    hide JobsPaired;
    TotalMonotone(s.jobs, JobBytes, t.jobs, JobBytes);
    TotalMonotone(t.jobs, JobBytes, s.jobs, JobBytes);
  }

  lemma AbandonPaired(s: Spool, jobs: map<Source, Job>)
    requires JobsPaired(s.jobs, s.ledgers) && jobs.Keys == s.jobs.Keys
    requires forall x :: x in jobs ==> jobs[x] == s.jobs[x].(invalidated := jobs[x].invalidated)
    ensures JobsPaired(jobs, s.ledgers)
  {
    forall v | v in s.ledgers ensures exists x :: x in jobs && jobs[x].version == v {
      var x :| x in s.jobs && s.jobs[x].version == v;
      assert jobs[x].version == v;
    }
  }

  // ---------------------------------------------------------------- every step, every run

  lemma PrepareIs(s: Spool, t: Spool)
    requires Exact(s) && t == s.(prepared := t.prepared)
    ensures Exact(t)
  {
    hide *;
    ExactParts(s);
    SameRecords(s, t);
    SameParts(s, t);
    SameJobs(s, t);
    ExactWhole(t);
  }

  lemma SameJobs(s: Spool, t: Spool)
    requires JobsOk(s) && t.jobs == s.jobs && t.ledgers == s.ledgers && t.hashes == s.hashes && t.jobBytes == s.jobBytes
    ensures JobsOk(t)
  {
  }

  /** No step of any kind makes a counter wrong. */
  lemma StepStaysExact(s: Spool, step: Step)
    requires Exact(s) && Orderly(s, step)
    ensures Exact(After(s, step))
  {
    hide Exact, Commit, Discard, ClearAll, Abandon;
    match step {
      case DoCommit(job, rows, parts) =>
        if Commit(s, job, rows, parts).Ok? { CommitStaysExact(s, job, rows, parts); }
      case DoDiscard(v) => if !Pinned(s, v) { DiscardStaysExact(s, v); } else { PinnedStays(s, v); }
      case DoClear => ClearIsVacuous(s);
      case DoPrepare(p) => PrepareIs(s, After(s, step));
      case DoAbandon(id, digest) => if Abandon(s, id, digest).Ok? { AbandonStaysExact(s, id, digest); }
      case DoFinish(_, _, _) => PrepareIs(s, After(s, step));
    }
  }

  lemma PinnedStays(s: Spool, v: Version)
    requires Pinned(s, v)
    ensures Discard(s, v) == Refused(PreparedPinned)
  {
  }

  lemma PartialAfter(jobs: map<Source, Job>, job: Job)
    ensures PartialJobs(jobs[job.source := job])
      == if job.phase == Done then PartialJobs(jobs) - {job.source} else PartialJobs(jobs) + {job.source}
  {
  }

  /** A commit leaves at most eight partial jobs, unless it takes a finished job back when there are eight already. */
  lemma PartialBoundIff(s: Spool, job: Job, rows: seq<Row>, parts: seq<Row>)
    requires |PartialJobs(s.jobs)| <= MOST_PARTIAL_JOBS && Commit(s, job, rows, parts).Ok?
    ensures |PartialJobs(Commit(s, job, rows, parts).spool.jobs)| <= MOST_PARTIAL_JOBS
      <==> !(job.source in s.jobs && s.jobs[job.source].phase == Done && job.phase != Done
             && |PartialJobs(s.jobs)| == MOST_PARTIAL_JOBS)
  {
    CommitIsDraft(s, job, rows, parts);
    hide Commit, FinalDraft;
    PartialAfter(s.jobs, job);
    var before := PartialJobs(s.jobs);
    if job.source in before { assert before + {job.source} == before; }
  }

  lemma Smaller(s: Spool, v: Version)
    requires Exact(s) && !Pinned(s, v) && Discard(s, v).Ok?
    ensures var after := Discard(s, v).spool;
      after.recordBytes <= s.recordBytes && after.partBytes <= s.partBytes && after.jobBytes <= s.jobBytes
      && |PartialJobs(after.jobs)| <= |PartialJobs(s.jobs)|
      && forall w :: w in after.ledgers ==> w in s.ledgers && after.ledgers[w] == s.ledgers[w]
  {
    var after := Discard(s, v).spool;
    DiscardStaysExact(s, v);
    DiscardIs(s, v);
    DiscardJobBytes(s, v, after.jobs);
    assert PartialJobs(after.jobs) <= PartialJobs(s.jobs);
    SubsetSize(PartialJobs(after.jobs), PartialJobs(s.jobs));
    hide Discard, Exact, PartialJobs;
  }

  lemma CommitBounded(s: Spool, job: Job, rows: seq<Row>, parts: seq<Row>)
    requires Exact(s) && Bounded(s) && Orderly(s, DoCommit(job, rows, parts)) && Commit(s, job, rows, parts).Ok?
    ensures Bounded(Commit(s, job, rows, parts).spool)
  {
    CommitIsDraft(s, job, rows, parts);
    PartialBoundIff(s, job, rows, parts);
    hide Commit, FinalDraft, PartialJobs, Exact;
  }

  /** The spool never holds more than its limits allow. */
  lemma StepStaysBounded(s: Spool, step: Step)
    requires Exact(s) && Bounded(s) && Orderly(s, step)
    ensures Bounded(After(s, step))
  {
    hide Exact, Commit, Discard, ClearAll, Abandon, PartialJobs;
    match step {
      case DoCommit(job, rows, parts) =>
        if Commit(s, job, rows, parts).Ok? { CommitBounded(s, job, rows, parts); }
      case DoDiscard(v) => if !Pinned(s, v) { DiscardStaysExact(s, v); Smaller(s, v); } else { PinnedStays(s, v); }
      case DoClear => ClearIsVacuous(s);
      case DoPrepare(_) =>
      case DoAbandon(id, digest) =>
        if Abandon(s, id, digest).Ok? { AbandonStaysExact(s, id, digest); AbandonIs(s, id, digest); }
      case DoFinish(_, _, _) =>
    }
  }

  /** What a version has in the spool. */
  datatype Holding = Holding(records: map<(Version, string), Bytes>, hashes: set<string>, parts: map<string, Bytes>)

  function HoldingOf(s: Spool, v: Version): Holding {
    Holding(Of(s.records, v), HashesOf(s, v), Only(s.parts, HashesOf(s, v)))
  }

  lemma SameHolding(s: Spool, t: Spool, v: Version)
    requires t.records == s.records && t.parts == s.parts && t.hashes == s.hashes
    ensures HoldingOf(t, v) == HoldingOf(s, v)
  {
  }

  lemma CommitSpares(s: Spool, job: Job, rows: seq<Row>, parts: seq<Row>, w: Version)
    requires Exact(s) && OwnParts(s, job.version, parts) && Commit(s, job, rows, parts).Ok? && w != job.version
    ensures HoldingOf(Commit(s, job, rows, parts).spool, w) == HoldingOf(s, w)
  {
    hide Exact, Commit, FinalDraft, RecordsDrafted, PartsDrafted, OwnParts, Of, Only;
    CommitIsDraft(s, job, rows, parts);
    DraftIsExact(s, job, rows, parts);
    var dr := FinalDraft(s, job, rows, parts).value;
    DraftSparesRecords(s, job.version, dr, w);
    ExactParts(s);
    if w in s.hashes { OthersKeepParts(s, job.version, dr, w); } else { OnlyNone(s.parts); OnlyNone(dr.parts); }
  }

  lemma OnlyNone(parts: map<string, Bytes>)
    ensures Only(parts, {}) == map[]
  {
  }

  lemma DraftSparesRecords(s: Spool, v: Version, dr: Draft, w: Version)
    requires RecordsDrafted(s, v, dr) && w != v
    ensures Of(dr.records, w) == Of(s.records, w)
  {
  }

  /** While a prepared manifest names a version, no step changes what the version has in the spool. */
  lemma StepKeepsPinned(s: Spool, step: Step, v: Version)
    requires Exact(s) && Orderly(s, step) && Pinned(s, v)
    ensures HoldingOf(After(s, step), v) == HoldingOf(s, v)
  {
    hide Exact, Commit, Discard, ClearAll, Abandon, HoldingOf, HashesOf;
    match step {
      case DoCommit(job, rows, parts) =>
        if Commit(s, job, rows, parts).Ok? {
          CommitIsDraft(s, job, rows, parts);
          CommitSpares(s, job, rows, parts, v);
        }
      case DoDiscard(w) =>
        if Pinned(s, w) { PinnedStays(s, w); } else {
          DiscardStaysExact(s, w);
          HoldingByParts(s, Discard(s, w).spool, v);
        }
      case DoClear => ClearIsVacuous(s);
      case DoPrepare(_) => SameHolding(s, After(s, step), v);
      case DoAbandon(id, digest) =>
        if Abandon(s, id, digest).Ok? {
          AbandonIs(s, id, digest);
          SameHolding(s, Abandon(s, id, digest).spool, v);
        }
      case DoFinish(_, _, _) => SameHolding(s, After(s, step), v);
    }
  }

  lemma HoldingByParts(s: Spool, t: Spool, v: Version)
    requires Of(t.records, v) == Of(s.records, v) && HashesOf(t, v) == HashesOf(s, v)
    requires Only(t.parts, HashesOf(t, v)) == Only(s.parts, HashesOf(s, v))
    ensures HoldingOf(t, v) == HoldingOf(s, v)
  {
  }

  ghost predicate OrderlyRun(s: Spool, steps: seq<Step>)
    decreases |steps|
  {
    steps == [] || (Orderly(s, steps[0]) && OrderlyRun(After(s, steps[0]), steps[1..]))
  }

  /** From a state whose counters are exact and within their limits, every run leaves them so. */
  lemma {:induction false} RunsStayExactAndBounded(s: Spool, steps: seq<Step>)
    requires Exact(s) && Bounded(s) && OrderlyRun(s, steps)
    ensures Exact(Play(s, steps)) && Bounded(Play(s, steps))
    decreases |steps|
  {
    hide Exact, Bounded, Orderly, After;
    if steps != [] {
      StepStaysExact(s, steps[0]);
      StepStaysBounded(s, steps[0]);
      RunsStayExactAndBounded(After(s, steps[0]), steps[1..]);
    }
  }

  lemma EmptyIsExact()
    ensures Exact(EMPTY) && Bounded(EMPTY)
  {
    TotalEmpty<(Version, string), Bytes>(Len);
    TotalEmpty<string, Bytes>(Len);
    TotalEmpty<Source, Job>(JobBytes);
    assert PartialJobs(map[]) == {};
  }

  /** The version is pinned before every step of the run. */
  ghost predicate PinnedThroughout(s: Spool, steps: seq<Step>, v: Version)
    decreases |steps|
  {
    steps == [] || (Pinned(s, v) && PinnedThroughout(After(s, steps[0]), steps[1..], v))
  }

  lemma {:induction false} RunsKeepPinned(s: Spool, steps: seq<Step>, v: Version)
    requires Exact(s) && OrderlyRun(s, steps) && PinnedThroughout(s, steps, v)
    ensures HoldingOf(Play(s, steps), v) == HoldingOf(s, v)
    decreases |steps|
  {
    hide Exact, Orderly, After, Pinned, HoldingOf;
    if steps != [] {
      StepStaysExact(s, steps[0]);
      StepKeepsPinned(s, steps[0], v);
      RunsKeepPinned(After(s, steps[0]), steps[1..], v);
    }
  }

  // ---------------------------------------------------------------- why the parts must be the version's own

  function Ids(parts: seq<Row>): set<string> { set i | 0 <= i < |parts| :: parts[i].id }

  lemma {:induction false} PartHashes(dr: Draft, parts: seq<Row>)
    requires PutParts(dr, parts).Some?
    ensures PutParts(dr, parts).value.hashes == dr.hashes + Ids(parts)
  {
    if parts == [] {
      assert Ids(parts) == {};
    } else {
      var n := |parts| - 1;
      PartHashes(dr, parts[..n]);
      IdsGrow(parts);
    }
  }

  lemma IdsGrow(parts: seq<Row>)
    requires parts != []
    ensures Ids(parts) == Ids(parts[..|parts| - 1]) + {parts[|parts| - 1].id}
  {
    var n := |parts| - 1;
    forall h | h in Ids(parts) ensures h in Ids(parts[..n]) + {parts[n].id} {
      var i :| 0 <= i < |parts| && parts[i].id == h;
      if i < n { assert parts[..n][i].id == h; }
    }
    forall h | h in Ids(parts[..n]) ensures h in Ids(parts) {
      var i :| 0 <= i < n && parts[..n][i].id == h;
      assert parts[i].id == h;
    }
    assert parts[n].id in Ids(parts);
  }

  lemma {:induction false} RowsKeepHashes(dr: Draft, v: Version, rows: seq<Row>)
    requires PutRows(dr, v, rows).Some?
    ensures PutRows(dr, v, rows).value.hashes == dr.hashes
  {
    if rows != [] { RowsKeepHashes(dr, v, rows[..|rows| - 1]); }
  }

  lemma CommitHashes(s: Spool, job: Job, rows: seq<Row>, parts: seq<Row>)
    requires Commit(s, job, rows, parts).Ok?
    ensures Commit(s, job, rows, parts).spool.hashes == s.hashes[job.version := HashesOf(s, job.version) + Ids(parts)]
  {
    CommitIsDraft(s, job, rows, parts);
    hide Commit, PutRows, PutParts, Ids;
    var start := Drafted(s, job.version);
    RowsKeepHashes(start, job.version, rows);
    PartHashes(PutRows(start, job.version, rows).value, parts);
  }

  /** If a version commits a part that a pinned version has already, the pinned version loses it as soon as the first
      one is discarded. */
  lemma SharedPartIsLost(s: Spool, job: Job, rows: seq<Row>, parts: seq<Row>, i: nat, w: Version)
    requires Commit(s, job, rows, parts).Ok? && Pinned(s, w) && i < |parts|
    requires w in s.hashes && parts[i].id in s.hashes[w] && parts[i].id in s.parts
    ensures HoldingOf(Play(s, [DoCommit(job, rows, parts), DoDiscard(job.version)]), w) != HoldingOf(s, w)
  {
    var mid := Commit(s, job, rows, parts).spool;
    var v := job.version;
    assert !Pinned(mid, v) && w != v && mid.prepared == s.prepared by { CommitIsDraft(s, job, rows, parts); }
    CommitHashes(s, job, rows, parts);
    assert parts[i].id in HashesOf(mid, v);
    DiscardIs(mid, v);
    var end := Discard(mid, v).spool;
    TwoSteps(s, DoCommit(job, rows, parts), DoDiscard(v));
    hide Commit, Discard, Play;
    assert parts[i].id in Only(s.parts, HashesOf(s, w));
    assert parts[i].id !in Only(end.parts, HashesOf(end, w));
  }

  lemma TwoSteps(s: Spool, a: Step, b: Step)
    ensures Play(s, [a, b]) == After(After(s, a), b)
  {
    hide After;
    assert [a, b][1..] == [b] && [b][1..] == [];
    assert Play(After(After(s, a), b), []) == After(After(s, a), b);
    assert Play(After(s, a), [b]) == After(After(s, a), b);
  }

  /** Discarding one version leaves the parts of another alone if and only if they share none. */
  lemma DiscardSparesIff(s: Spool, v: Version, w: Version)
    requires !Pinned(s, v) && forall h :: h in HashesOf(s, w) ==> h in s.parts
    ensures Only(Discard(s, v).spool.parts, HashesOf(s, w)) == Only(s.parts, HashesOf(s, w))
      <==> HashesOf(s, v) !! HashesOf(s, w)
  {
    DiscardIs(s, v);
    hide Discard, Pinned;
    var after := Discard(s, v).spool;
    if h :| h in HashesOf(s, v) && h in HashesOf(s, w) {
      assert h in Only(s.parts, HashesOf(s, w)) && h !in Only(after.parts, HashesOf(s, w));
    } else {
      assert Only(after.parts, HashesOf(s, w)) == Only(s.parts, HashesOf(s, w));
    }
  }
}
