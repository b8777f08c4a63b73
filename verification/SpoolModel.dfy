/** The backup spool (runtime/backup-v2-spool.ts): the records, parts and jobs of unpublished captures, the running
    byte counts that bound them, and the prepared manifest that pins them. */
module SpoolModel {
  import opened Collections

  const SPOOL_BYTES: nat := 16 * 1024 * 1024
  const CYCLE_BYTES: nat := 8 * 1024 * 1024
  const MOST_RECORD_BYTES: nat := 1024 * 1024
  const MOST_PART_BYTES: nat := 256 * 1024
  const MOST_PARTIAL_JOBS: nat := 8

  type Version = string
  type Source = string
  type Bytes = seq<bv8>

  datatype Phase = Schema | Scan | Catchup | Seal | Parts | Done

  /** A stored capture job; `bytes` is what it measured when it was committed. */
  datatype Job = Job(source: Source, version: Version, phase: Phase, bytes: nat, invalidated: bool)

  /** What one version is charged. */
  datatype Ledger = Ledger(records: int, parts: int, job: int)

  /** A prepared checkpoint: its identity, the versions its manifest publishes, and what it covers. */
  datatype Prepared = Prepared(checkpointId: string, digest: string, sequence: nat, versions: set<Version>,
                               coverages: set<(Source, Version)>, catalogFull: bool)

  datatype Spool = Spool(
    records: map<(Version, string), Bytes>, parts: map<string, Bytes>, jobs: map<Source, Job>,
    ledgers: map<Version, Ledger>, hashes: map<Version, set<string>>,
    recordBytes: int, partBytes: int, jobBytes: int,
    prepared: Option<Prepared>, invalidated: set<Version>, pressureSource: Option<Source>)

  const EMPTY := Spool(map[], map[], map[], map[], map[], 0, 0, 0, None, {}, None)

  datatype Refusal = PreparedPinned | Pressure | JobChanged | RecordTooLarge | PartInvalid | NamespaceBudget
                   | VersionTaken | IdentityChanged | ReceiptMismatch

  datatype Outcome = Ok(spool: Spool) | Refused(reason: Refusal)

  predicate Pinned(s: Spool, v: Version) { s.prepared.Some? && v in s.prepared.value.versions }

  function PartialJobs(jobs: map<Source, Job>): set<Source> { set x | x in jobs && jobs[x].phase != Done }

  // ---------------------------------------------------------------- committing work

  datatype Row = Row(id: string, bytes: Bytes)

  /** What a commit has written so far. */
  datatype Draft = Draft(records: map<(Version, string), Bytes>, parts: map<string, Bytes>, hashes: set<string>,
                         recordBytes: int, partBytes: int, ledger: Ledger)

  function Held(m: map<(Version, string), Bytes>, k: (Version, string)): nat { if k in m then |m[k]| else 0 }
  function HeldPart(m: map<string, Bytes>, h: string): nat { if h in m then |m[h]| else 0 }

  function PutRow(dr: Draft, v: Version, row: Row): Option<Draft> {
    if |row.bytes| > MOST_RECORD_BYTES then None
    else
      var delta := |row.bytes| - Held(dr.records, (v, row.id));
      Some(dr.(records := dr.records[(v, row.id) := row.bytes], recordBytes := dr.recordBytes + delta,
               ledger := dr.ledger.(records := dr.ledger.records + delta)))
  }

  function PutRows(dr: Draft, v: Version, rows: seq<Row>): Option<Draft> {
    if rows == [] then Some(dr)
    else
      var r := PutRows(dr, v, rows[..|rows| - 1]);
      if r.None? then None else PutRow(r.value, v, rows[|rows| - 1])
  }

  /** A part is stored under its hash. */
  function PutPart(dr: Draft, part: Row): Option<Draft> {
    if |part.bytes| > MOST_PART_BYTES then None
    else
      var delta := |part.bytes| - HeldPart(dr.parts, part.id);
      Some(dr.(parts := dr.parts[part.id := part.bytes], hashes := dr.hashes + {part.id},
               partBytes := dr.partBytes + delta, ledger := dr.ledger.(parts := dr.ledger.parts + delta)))
  }

  function PutParts(dr: Draft, parts: seq<Row>): Option<Draft> {
    if parts == [] then Some(dr)
    else
      var r := PutParts(dr, parts[..|parts| - 1]);
      if r.None? then None else PutPart(r.value, parts[|parts| - 1])
  }

  function LedgerOf(s: Spool, v: Version): Ledger { if v in s.ledgers then s.ledgers[v] else Ledger(0, 0, 0) }
  function HashesOf(s: Spool, v: Version): set<string> { if v in s.hashes then s.hashes[v] else {} }

  function Drafted(s: Spool, v: Version): Draft {
    Draft(s.records, s.parts, HashesOf(s, v), s.recordBytes, s.partBytes, LedgerOf(s, v))
  }

  /** Only one source may have a job for a version: the version index of the jobs is unique. */
  predicate VersionFree(jobs: map<Source, Job>, job: Job) {
    forall x :: x in jobs && jobs[x].version == job.version ==> x == job.source
  }

  /** The transaction of commit. */
  function Commit(s: Spool, job: Job, rows: seq<Row>, parts: seq<Row>): Outcome {
    if Pinned(s, job.version) then Refused(PreparedPinned)
    else if job.source !in s.jobs && |PartialJobs(s.jobs)| >= MOST_PARTIAL_JOBS then Refused(Pressure)
    else if job.source in s.jobs && s.jobs[job.source].version != job.version then Refused(JobChanged)
    else
      var withRows := PutRows(Drafted(s, job.version), job.version, rows);
      if withRows.None? then Refused(RecordTooLarge)
      else
        var withParts := PutParts(withRows.value, parts);
        if withParts.None? then Refused(PartInvalid)
        else
          var dr := withParts.value;
          var jobBytes := s.jobBytes + job.bytes - dr.ledger.job;
          if dr.ledger.records > CYCLE_BYTES || dr.ledger.parts > CYCLE_BYTES then Refused(NamespaceBudget)
          else if dr.recordBytes + dr.partBytes + jobBytes > SPOOL_BYTES then Refused(Pressure)
          else if !VersionFree(s.jobs, job) then Refused(VersionTaken)
          else
            Ok(s.(records := dr.records, parts := dr.parts, jobs := s.jobs[job.source := job],
                  ledgers := s.ledgers[job.version := dr.ledger.(job := job.bytes)],
                  hashes := s.hashes[job.version := dr.hashes],
                  recordBytes := dr.recordBytes, partBytes := dr.partBytes, jobBytes := jobBytes))
  }

  // ---------------------------------------------------------------- taking work away

  function Others(records: map<(Version, string), Bytes>, v: Version): map<(Version, string), Bytes> {
    map k | k in records && k.0 != v :: records[k]
  }

  function OtherJobs(jobs: map<Source, Job>, v: Version): map<Source, Job> {
    map x | x in jobs && jobs[x].version != v :: jobs[x]
  }

  /** The transaction of discard, for a version that has a ledger row or nothing at all. */
  function Discard(s: Spool, v: Version): Outcome {
    if Pinned(s, v) then Refused(PreparedPinned)
    else
      var ledger := LedgerOf(s, v);
      Ok(s.(records := Others(s.records, v), parts := s.parts - HashesOf(s, v), jobs := OtherJobs(s.jobs, v),
            ledgers := s.ledgers - {v}, hashes := s.hashes - {v},
            recordBytes := AtLeastZero(s.recordBytes - ledger.records), partBytes := AtLeastZero(s.partBytes - ledger.parts),
            jobBytes := AtLeastZero(s.jobBytes - ledger.job), invalidated := s.invalidated - {v},
            pressureSource := if s.pressureSource.Some? && s.pressureSource.value in s.jobs
                                 && s.jobs[s.pressureSource.value].version == v then None else s.pressureSource))
  }

  /** The last transaction of clearUnprepared: with no job left, everything goes. */
  function ClearAll(s: Spool): Outcome {
    if s.jobs != map[] then Ok(s)
    else
      Ok(s.(records := map[], parts := map[], ledgers := map[], hashes := map[], recordBytes := 0, partBytes := 0,
            jobBytes := 0))
  }

  // ---------------------------------------------------------------- manifests

  function Prepare(s: Spool, p: Prepared): Outcome {
    if s.prepared.Some? && s.prepared.value != p then Refused(IdentityChanged) else Ok(s.(prepared := Some(p)))
  }

  /** A rejected checkpoint: its jobs are marked for a later discard and the pin is lifted. */
  function Abandon(s: Spool, checkpointId: string, digest: string): Outcome {
    if s.prepared.None? then Ok(s)
    else
      var p := s.prepared.value;
      if p.checkpointId != checkpointId || p.digest != digest || !p.catalogFull then Refused(IdentityChanged)
      else
        Ok(s.(prepared := None,
              jobs := map x | x in s.jobs ::
                if (x, s.jobs[x].version) in p.coverages then s.jobs[x].(invalidated := true) else s.jobs[x],
              invalidated := s.invalidated + set c | c in p.coverages :: c.1))
  }

  /** The receipt of a published checkpoint lifts the pin; its versions are discarded after that, one by one. */
  function Finish(s: Spool, checkpointId: string, digest: string, sequence: nat): Outcome {
    if s.prepared.None? || s.prepared.value.checkpointId != checkpointId || s.prepared.value.digest != digest
       || s.prepared.value.sequence != sequence then Refused(ReceiptMismatch)
    else Ok(s.(prepared := None))
  }

  datatype Step =
    | DoCommit(job: Job, rows: seq<Row>, parts: seq<Row>)
    | DoDiscard(version: Version)
    | DoClear
    | DoPrepare(p: Prepared)
    | DoAbandon(checkpointId: string, digest: string)
    | DoFinish(checkpointId: string, digest: string, sequence: nat)

  function Outcomes(s: Spool, step: Step): Outcome {
    match step
    case DoCommit(job, rows, parts) => Commit(s, job, rows, parts)
    case DoDiscard(v) => Discard(s, v)
    case DoClear => ClearAll(s)
    case DoPrepare(p) => Prepare(s, p)
    case DoAbandon(id, digest) => Abandon(s, id, digest)
    case DoFinish(id, digest, sequence) => Finish(s, id, digest, sequence)
  }

  function After(s: Spool, step: Step): Spool {
    var r := Outcomes(s, step);
    if r.Ok? then r.spool else s
  }

  function Play(s: Spool, steps: seq<Step>): Spool
    decreases |steps|
  {
    if steps == [] then s else Play(After(s, steps[0]), steps[1..])
  }
}
