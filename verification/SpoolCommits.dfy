/** What a commit to the spool stores and when it is let in, over what is stored and not over the running counters; and
    how a prepared manifest holds its versions until the receipt comes. */
module SpoolCommits {
  import opened Collections
  import opened SpoolModel
  import opened SpoolProof

  /** Records and parts with rows written over them in order. */
  function RowsOver(records: map<(Version, string), Bytes>, v: Version, rows: seq<Row>): map<(Version, string), Bytes> {
    if rows == [] then records
    else RowsOver(records, v, rows[..|rows| - 1])[(v, rows[|rows| - 1].id) := rows[|rows| - 1].bytes]
  }

  function PartsOver(parts: map<string, Bytes>, rows: seq<Row>): map<string, Bytes> {
    if rows == [] then parts else PartsOver(parts, rows[..|rows| - 1])[rows[|rows| - 1].id := rows[|rows| - 1].bytes]
  }

  function Ids(rows: seq<Row>): set<string> { set row | row in rows :: row.id }

  predicate Small(rows: seq<Row>, most: nat) { forall i :: 0 <= i < |rows| ==> |rows[i].bytes| <= most }

  /** The rows and the parts are small enough, and so is all that the version and the spool then hold. */
  ghost predicate Affordable(s: Spool, job: Job, rows: seq<Row>, parts: seq<Row>) {
    var (records', parts', jobs') := (RowsOver(s.records, job.version, rows), PartsOver(s.parts, parts), s.jobs[job.source := job]);
    Small(rows, MOST_RECORD_BYTES) && Small(parts, MOST_PART_BYTES)
    && Total(Of(records', job.version), Len) <= CYCLE_BYTES
    && Total(Only(parts', HashesOf(s, job.version) + Ids(parts)), Len) <= CYCLE_BYTES
    && Total(records', Len) + Total(parts', Len) + Total(jobs', JobBytes) <= SPOOL_BYTES
  }

  /** Nobody pins the version, its source goes on with the same version or there is room for one more partial job, and
      no other source has a job for it. */
  predicate Welcome(s: Spool, job: Job) {
    !(s.prepared.Some? && job.version in s.prepared.value.versions)
    && (if job.source in s.jobs then s.jobs[job.source].version == job.version else |PartialJobs(s.jobs)| < MOST_PARTIAL_JOBS)
    && forall x :: x in s.jobs && x != job.source ==> s.jobs[x].version != job.version
  }

  // ---------------------------------------------------------------- what the draft holds

  lemma {:induction false} RowsDraft(dr: Draft, v: Version, rows: seq<Row>)
    ensures PutRows(dr, v, rows).Some? <==> Small(rows, MOST_RECORD_BYTES)
    ensures PutRows(dr, v, rows).Some? ==>
      PutRows(dr, v, rows).value.records == RowsOver(dr.records, v, rows)
      && PutRows(dr, v, rows).value.parts == dr.parts && PutRows(dr, v, rows).value.hashes == dr.hashes
  {
    if rows != [] {
      var front := rows[..|rows| - 1];
      RowsDraft(dr, v, front);
      assert Small(rows, MOST_RECORD_BYTES) <==> Small(front, MOST_RECORD_BYTES) && |rows[|rows| - 1].bytes| <= MOST_RECORD_BYTES by {
        assert rows == front + [rows[|rows| - 1]];
      }
    }
  }

  lemma {:induction false} PartsDraft(dr: Draft, rows: seq<Row>)
    ensures PutParts(dr, rows).Some? <==> Small(rows, MOST_PART_BYTES)
    ensures PutParts(dr, rows).Some? ==>
      PutParts(dr, rows).value.parts == PartsOver(dr.parts, rows) && PutParts(dr, rows).value.records == dr.records
      && PutParts(dr, rows).value.hashes == dr.hashes + Ids(rows)
  {
    if rows != [] {
      var front := rows[..|rows| - 1];
      PartsDraft(dr, front);
      assert rows == front + [rows[|rows| - 1]];
      assert Small(rows, MOST_PART_BYTES) <==> Small(front, MOST_PART_BYTES) && |rows[|rows| - 1].bytes| <= MOST_PART_BYTES;
      assert Ids(rows) == Ids(front) + {rows[|rows| - 1].id};
    }
  }

  lemma FinalHolds(s: Spool, job: Job, rows: seq<Row>, parts: seq<Row>)
    ensures FinalDraft(s, job, rows, parts).Some? <==> Small(rows, MOST_RECORD_BYTES) && Small(parts, MOST_PART_BYTES)
    ensures FinalDraft(s, job, rows, parts).Some? ==>
      var dr := FinalDraft(s, job, rows, parts).value;
      dr.records == RowsOver(s.records, job.version, rows) && dr.parts == PartsOver(s.parts, parts)
      && dr.hashes == HashesOf(s, job.version) + Ids(parts)
  {
    hide Small, Ids, PutRows, PutParts, RowsOver, PartsOver;
    var start := Drafted(s, job.version);
    RowsDraft(start, job.version, rows);
    if Small(rows, MOST_RECORD_BYTES) { PartsDraft(PutRows(start, job.version, rows).value, parts); }
  }

  /** The commit, in terms of its draft. */
  lemma CommitByDraft(s: Spool, job: Job, rows: seq<Row>, parts: seq<Row>)
    ensures Commit(s, job, rows, parts).Ok? <==>
      Welcome(s, job) && FinalDraft(s, job, rows, parts).Some?
      && var dr := FinalDraft(s, job, rows, parts).value;
        dr.ledger.records <= CYCLE_BYTES && dr.ledger.parts <= CYCLE_BYTES
        && dr.recordBytes + dr.partBytes + (s.jobBytes + job.bytes - dr.ledger.job) <= SPOOL_BYTES
  {
    hide PutRows, PutParts, PartialJobs;
  }

  lemma JobsTotal(s: Spool, job: Job)
    requires JobsOk(s) && Welcome(s, job)
    ensures Total(s.jobs[job.source := job], JobBytes) == s.jobBytes + job.bytes - LedgerOf(s, job.version).job
  {
    JobLedger(s, job);
    TotalPut(s.jobs, JobBytes, job.source, job);
  }

  /** From counters that are exact, a commit is let in if and only if it is welcome and affordable; then the rows and the
      parts are stored, the last one of a name winning, under the job that was given, and nothing else is different. */
  lemma CommitMeans(s: Spool, job: Job, rows: seq<Row>, parts: seq<Row>)
    requires Exact(s) && OwnParts(s, job.version, parts)
    ensures Commit(s, job, rows, parts).Ok? <==> Welcome(s, job) && Affordable(s, job, rows, parts)
    ensures Commit(s, job, rows, parts).Ok? ==>
      var t := Commit(s, job, rows, parts).spool;
      t.records == RowsOver(s.records, job.version, rows) && t.parts == PartsOver(s.parts, parts)
      && t.jobs == s.jobs[job.source := job]
      && t.hashes == s.hashes[job.version := HashesOf(s, job.version) + Ids(parts)]
      && t.prepared == s.prepared && t.invalidated == s.invalidated && t.pressureSource == s.pressureSource
  {
    hide RecordsOk, PartsOk, JobsOk, Commit, FinalDraft, PutRows, PutParts, OwnParts, Small, Ids, RowsOver, PartsOver,
      Total, Of, Only, Welcome, Pinned, PartialJobs, VersionFree, LedgerOf;
    FinalHolds(s, job, rows, parts);
    CommitByDraft(s, job, rows, parts);
    if FinalDraft(s, job, rows, parts).Some? {
      DraftIsExact(s, job, rows, parts);
      if Welcome(s, job) { JobsTotal(s, job); }
    }
    if Commit(s, job, rows, parts).Ok? { CommitIsDraft(s, job, rows, parts); }
  }

  // ---------------------------------------------------------------- from a manifest to its receipt

  /** A manifest that is prepared pins its versions and changes nothing else: no commit to them and no discard of them is
      let in, and no other manifest. A receipt is taken if and only if it names checkpoint, digest and sequence of this
      one, and leaves the spool as it was before; then every version can be discarded. */
  lemma PinnedUntilReceipt(s: Spool, p: Prepared, v: Version, job: Job, rows: seq<Row>, parts: seq<Row>, other: Prepared,
                           id: string, digest: string, sequence: nat)
    requires s.prepared.None? && v in p.versions && job.version in p.versions && other != p
    ensures Prepare(s, p).Ok?
    ensures var t := Prepare(s, p).spool;
      t == s.(prepared := Some(p)) && Discard(t, v) == Refused(PreparedPinned)
      && Commit(t, job, rows, parts) == Refused(PreparedPinned) && Prepare(t, other) == Refused(IdentityChanged)
      && Finish(t, id, digest, sequence)
         == (if id == p.checkpointId && digest == p.digest && sequence == p.sequence then Ok(s) else Refused(ReceiptMismatch))
    ensures Discard(s, v).Ok?
  {
    assert Prepare(s, p).spool.(prepared := None) == s;
    hide PutRows, PutParts;
  }
}
