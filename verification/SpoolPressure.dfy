/** A run that takes the spool past its bound on partial jobs. */
module SpoolPressure {
  import opened SpoolModel
  import opened SpoolProof

  function Name(k: nat): string { seq(k, _ => 'x') }
  function JobOf(k: nat, phase: Phase): Job { Job(Name(k), Name(k), phase, 500, false) }
  function Committing(k: nat, phase: Phase): Step { DoCommit(JobOf(k, phase), [], []) }

  /** One capture that has finished, and then n that have begun. */
  function Crowding(n: nat): seq<Step> {
    if n == 0 then [Committing(0, Done)] else Crowding(n - 1) + [Committing(n, Scan)]
  }

  function Crowded(n: nat): Spool {
    var before := if n == 0 then EMPTY else Crowded(n - 1);
    before.(jobs := before.jobs[Name(n) := JobOf(n, if n == 0 then Done else Scan)],
            ledgers := before.ledgers[Name(n) := Ledger(0, 0, 500)], hashes := before.hashes[Name(n) := {}],
            jobBytes := before.jobBytes + 500)
  }

  lemma {:induction false} CrowdedHolds(n: nat)
    ensures var s := Crowded(n);
      (forall x :: x in s.jobs ==> |x| <= n && s.jobs[x].source == x && s.jobs[x].version == x)
      && (forall v :: v in s.ledgers || v in s.hashes ==> |v| <= n)
      && (forall v :: v in s.ledgers ==> s.ledgers[v] == Ledger(0, 0, 500))
      && (forall v :: v in s.hashes ==> s.hashes[v] == {})
      && Name(0) in s.jobs && Name(0) in s.ledgers && Name(0) in s.hashes && s.jobs[Name(0)] == JobOf(0, Done)
      && s.records == map[] && s.parts == map[] && s.recordBytes == s.partBytes == 0 && s.jobBytes == 500 * (n + 1)
      && s.prepared.None? && |PartialJobs(s.jobs)| == n
  {
    if n == 0 {
      assert PartialJobs(Crowded(0).jobs) == {};
    } else {
      CrowdedHolds(n - 1);
      var before := Crowded(n - 1);
      assert Name(n) !in before.jobs;
      assert PartialJobs(Crowded(n).jobs) == PartialJobs(before.jobs) + {Name(n)};
    }
  }

  lemma CrowdedNext(n: nat)
    requires n < MOST_PARTIAL_JOBS
    ensures After(Crowded(n), Committing(n + 1, Scan)) == Crowded(n + 1)
  {
    CrowdedHolds(n);
    hide PartialJobs;
  }

  lemma {:induction false} PlayMore(s: Spool, steps: seq<Step>, last: Step)
    ensures Play(s, steps + [last]) == After(Play(s, steps), last)
    decreases |steps|
  {
    hide After;
    if steps == [] {
      assert [last][1..] == [];
      assert Play(After(s, last), []) == After(s, last);
    } else {
      assert (steps + [last])[1..] == steps[1..] + [last];
      PlayMore(After(s, steps[0]), steps[1..], last);
    }
  }

  lemma FirstCrowds()
    ensures After(EMPTY, Committing(0, Done)) == Crowded(0)
  {
    assert PartialJobs(map[]) == {};
  }

  lemma {:induction false} CrowdingCrowds(n: nat)
    requires n <= MOST_PARTIAL_JOBS
    ensures Play(EMPTY, Crowding(n)) == Crowded(n)
  {
    hide Crowded, After, Committing;
    if n == 0 {
      FirstCrowds();
      assert [] + [Committing(0, Done)] == Crowding(0);
      PlayMore(EMPTY, [], Committing(0, Done));
    } else {
      CrowdingCrowds(n - 1);
      PlayMore(EMPTY, Crowding(n - 1), Committing(n, Scan));
      CrowdedNext(n - 1);
    }
  }

  lemma TakenBack(n: nat)
    requires n <= MOST_PARTIAL_JOBS
    ensures After(Crowded(n), Committing(0, Scan)).jobs == Crowded(n).jobs[Name(0) := JobOf(0, Scan)]
  {
    CrowdedHolds(n);
    hide PartialJobs;
  }

  lemma NoRoom(s: Spool, job: Job)
    requires s.prepared.None? && job.source !in s.jobs && |PartialJobs(s.jobs)| == MOST_PARTIAL_JOBS
    ensures Commit(s, job, [], []) == Refused(Pressure)
  {
    hide PartialJobs, PutRows, PutParts;
  }

  /** With eight captures under way the finished one is begun anew: a ninth. A capture that has no job is refused
      there. */
  lemma NinthPartialJob(other: Job)
    requires other.source !in Play(EMPTY, Crowding(MOST_PARTIAL_JOBS)).jobs
    ensures var s := Play(EMPTY, Crowding(MOST_PARTIAL_JOBS));
      |PartialJobs(s.jobs)| == MOST_PARTIAL_JOBS && Commit(s, other, [], []) == Refused(Pressure)
    ensures |PartialJobs(Play(EMPTY, Crowding(MOST_PARTIAL_JOBS) + [Committing(0, Scan)]).jobs)| == MOST_PARTIAL_JOBS + 1
  {
    var s := Crowded(MOST_PARTIAL_JOBS);
    hide *;
    CrowdingCrowds(MOST_PARTIAL_JOBS);
    CrowdedHolds(MOST_PARTIAL_JOBS);
    NoRoom(s, other);
    PlayMore(EMPTY, Crowding(MOST_PARTIAL_JOBS), Committing(0, Scan));
    TakenBack(MOST_PARTIAL_JOBS);
    FinishedTakenBack(s.jobs);
  }

  lemma FinishedTakenBack(jobs: map<Source, Job>)
    requires Name(0) in jobs && jobs[Name(0)] == JobOf(0, Done)
    ensures |PartialJobs(jobs[Name(0) := JobOf(0, Scan)])| == |PartialJobs(jobs)| + 1
  {
    PartialAfter(jobs, JobOf(0, Scan));
    assert Name(0) !in PartialJobs(jobs);
  }
}
