/** Why every stored part belongs to one version: a part is stored under the hash of its text, and the text names the
    version. Runs whose parts come from the packing of runtime/backup-v2-resume.ts are therefore orderly. */
module SpoolPacking {
  import opened SpoolModel
  import opened SpoolProof
  import PackModel
  import Packer

  type Seal = PackModel.Seal

  /** The texts of these pages are told apart by their hashes. */
  ghost predicate Apart(seal: Seal, pages: set<PackModel.Page>) {
    forall a, b :: a in pages && b in pages && seal(PackModel.PageText(a)) == seal(PackModel.PageText(b))
      ==> PackModel.PageText(a) == PackModel.PageText(b)
  }

  lemma HeadOf(page: PackModel.Page, head: string)
    requires head == "{\"format\":\"atlas-record-page-v2\",\"namespaceVersionId\":\""
    ensures |PackModel.PageText(page)| >= |head| + 36
    ensures PackModel.PageText(page)[|head|..|head| + 36] == page.version
  {
    hide PackModel.RenderAll;
    var tail := "\",\"records\":[" + PackModel.RenderAll(page.items) + "]}";
    assert PackModel.PageText(page) == head + page.version + tail;
  }

  /** The text of a page names its version: pages of two versions have two texts, and unless these collide two
      hashes. */
  lemma PartsNameTheirVersion(seal: Seal, a: PackModel.Page, b: PackModel.Page)
    requires a.version != b.version
    ensures PackModel.PageText(a) != PackModel.PageText(b)
    ensures Apart(seal, {a, b}) <==> seal(PackModel.PageText(a)) != seal(PackModel.PageText(b))
  {
    var head := "{\"format\":\"atlas-record-page-v2\",\"namespaceVersionId\":\"";
    HeadOf(a, head);
    HeadOf(b, head);
    hide PackModel.PageText;
    assert a in {a, b} && b in {a, b};
  }

  // ---------------------------------------------------------------- commits that store packed parts

  /** The rows that store these parts, their texts as bytes. */
  function RowsOf(parts: seq<PackModel.Part>, encode: string -> Bytes): seq<Row> {
    seq(|parts|, i requires 0 <= i < |parts| => Row(parts[i].sha256, encode(PackModel.PageText(parts[i].page))))
  }

  /** A packing job of version v that had `from` parts stored stores the rest. */
  ghost predicate StoresRest(seal: Seal, pages: set<PackModel.Page>, v: PackModel.Uuid, parts: seq<PackModel.Part>,
                             from: nat, encode: string -> Bytes, rows: seq<Row>)
  {
    from <= |parts| && PackModel.GoodParts(seal, v, parts) && rows == RowsOf(parts[from..], encode)
    && forall i :: 0 <= i < |parts| ==> parts[i].page in pages
  }

  ghost predicate PackedRows(seal: Seal, pages: set<PackModel.Page>, v: Version, rows: seq<Row>) {
    rows == [] || exists u: PackModel.Uuid, parts: seq<PackModel.Part>, from: nat, encode: string -> Bytes ::
      u == v && StoresRest(seal, pages, u, parts, from, encode, rows)
  }

  /** What a capture does: a finished job stays finished, and parts come from packing. */
  ghost predicate ByCapture(seal: Seal, pages: set<PackModel.Page>, s: Spool, step: Step) {
    step.DoCommit? ==>
      (step.job.source in s.jobs && s.jobs[step.job.source].phase == Done ==> step.job.phase == Done)
      && PackedRows(seal, pages, step.job.version, step.parts)
  }

  ghost predicate NamesVersion(seal: Seal, pages: set<PackModel.Page>, v: Version, h: string) {
    exists p :: p in pages && p.version == v && h == seal(PackModel.PageText(p))
  }

  /** Every stored hash is that of a page of its version. */
  ghost predicate Sealed(seal: Seal, pages: set<PackModel.Page>, s: Spool) {
    forall v, h :: v in s.hashes && h in s.hashes[v] ==> NamesVersion(seal, pages, v, h)
  }

  lemma PackedNames(seal: Seal, pages: set<PackModel.Page>, v: Version, rows: seq<Row>, i: nat)
    requires PackedRows(seal, pages, v, rows) && i < |rows|
    ensures NamesVersion(seal, pages, v, rows[i].id)
  {
    hide PackModel.PageText;
    var u: PackModel.Uuid, parts: seq<PackModel.Part>, from: nat, encode: string -> Bytes :| u == v && StoresRest(seal, pages, u, parts, from, encode, rows);
    assert PackModel.GoodPart(seal, u, parts[from + i], from + i);
    assert parts[from + i].page in pages;
  }

  lemma NamesOne(seal: Seal, pages: set<PackModel.Page>, v: Version, w: Version, h: string)
    requires Apart(seal, pages) && NamesVersion(seal, pages, v, h) && NamesVersion(seal, pages, w, h)
    ensures v == w
  {
    hide PackModel.PageText;
    var a :| a in pages && a.version == v && h == seal(PackModel.PageText(a));
    var b :| b in pages && b.version == w && h == seal(PackModel.PageText(b));
    if v != w { PartsNameTheirVersion(seal, a, b); }
  }

  /** Packed parts are the version's own. */
  lemma PackedAreOwn(seal: Seal, pages: set<PackModel.Page>, s: Spool, v: Version, rows: seq<Row>)
    requires Apart(seal, pages) && Sealed(seal, pages, s) && PackedRows(seal, pages, v, rows)
    ensures OwnParts(s, v, rows)
  {
    hide Apart, NamesVersion, PackedRows;
    forall i, w | 0 <= i < |rows| && w in s.hashes && rows[i].id in s.hashes[w]
      ensures w == v
    {
      PackedNames(seal, pages, v, rows, i);
      NamesOne(seal, pages, v, w, rows[i].id);
    }
  }

  lemma HashesAfter(s: Spool, step: Step, v: Version, h: string)
    requires v in After(s, step).hashes && h in After(s, step).hashes[v]
    ensures (v in s.hashes && h in s.hashes[v])
            || (step.DoCommit? && v == step.job.version && exists i :: 0 <= i < |step.parts| && step.parts[i].id == h)
  {
    if step.DoCommit? && Commit(s, step.job, step.rows, step.parts).Ok? {
      CommitHashes(s, step.job, step.rows, step.parts);
      hide Commit;
    }
  }

  lemma StepKeepsSealed(seal: Seal, pages: set<PackModel.Page>, s: Spool, step: Step)
    requires Sealed(seal, pages, s) && ByCapture(seal, pages, s, step)
    ensures Sealed(seal, pages, After(s, step))
  {
    hide NamesVersion, PackedRows, After;
    forall v, h | v in After(s, step).hashes && h in After(s, step).hashes[v]
      ensures NamesVersion(seal, pages, v, h)
    {
      HashesAfter(s, step, v, h);
      if !(v in s.hashes && h in s.hashes[v]) {
        var i :| 0 <= i < |step.parts| && step.parts[i].id == h;
        PackedNames(seal, pages, v, step.parts, i);
      }
    }
  }

  // ---------------------------------------------------------------- runs

  ghost predicate CaptureRun(seal: Seal, pages: set<PackModel.Page>, s: Spool, steps: seq<Step>)
    decreases |steps|
  {
    steps == [] || (ByCapture(seal, pages, s, steps[0]) && CaptureRun(seal, pages, After(s, steps[0]), steps[1..]))
  }

  /** As long as the texts of the run do not collide, a run of captures is orderly. */
  lemma {:induction false} CapturesAreOrderly(seal: Seal, pages: set<PackModel.Page>, s: Spool, steps: seq<Step>)
    requires Apart(seal, pages) && Sealed(seal, pages, s) && CaptureRun(seal, pages, s, steps)
    ensures OrderlyRun(s, steps) && Sealed(seal, pages, Play(s, steps))
    decreases |steps|
  {
    hide Apart, Sealed, PackedRows, OwnParts, After;
    if steps != [] {
      if steps[0].DoCommit? { PackedAreOwn(seal, pages, s, steps[0].job.version, steps[0].parts); }
      StepKeepsSealed(seal, pages, s, steps[0]);
      CapturesAreOrderly(seal, pages, After(s, steps[0]), steps[1..]);
    }
  }

  /** From the empty spool, over every run of captures, discards and checkpoints: every counter is exact and within its
      limit, and no two versions share a part. */
  lemma ReachableSpoolsAreExact(seal: Seal, pages: set<PackModel.Page>, steps: seq<Step>)
    requires Apart(seal, pages) && CaptureRun(seal, pages, EMPTY, steps)
    ensures var s := Play(EMPTY, steps);
      Exact(s) && Bounded(s) && Sealed(seal, pages, s)
      && forall v, w :: v != w ==> HashesOf(s, v) !! HashesOf(s, w)
  {
    EmptyIsExact();
    CapturesAreOrderly(seal, pages, EMPTY, steps);
    hide Bounded, Play, CaptureRun, OrderlyRun, JobsOk, RecordsOk, PartsCharged, NamesVersion;
    RunsStayExactAndBounded(EMPTY, steps);
  }

  lemma {:induction false} RunsJoin(seal: Seal, pages: set<PackModel.Page>, s: Spool, first: seq<Step>, rest: seq<Step>)
    requires CaptureRun(seal, pages, s, first) && CaptureRun(seal, pages, Play(s, first), rest)
    ensures CaptureRun(seal, pages, s, first + rest) && Play(s, first + rest) == Play(Play(s, first), rest)
    decreases |first|
  {
    hide ByCapture, After;
    if first == [] {
      assert first + rest == rest;
    } else {
      assert (first + rest)[1..] == first[1..] + rest;
      RunsJoin(seal, pages, After(s, first[0]), first[1..], rest);
    }
  }

  /** In every reachable spool, what a version has stays as it is for as long as a prepared manifest names it. */
  lemma ReachablePinnedStay(seal: Seal, pages: set<PackModel.Page>, before: seq<Step>, during: seq<Step>, v: Version)
    requires Apart(seal, pages) && CaptureRun(seal, pages, EMPTY, before)
    requires CaptureRun(seal, pages, Play(EMPTY, before), during)
    requires PinnedThroughout(Play(EMPTY, before), during, v)
    ensures HoldingOf(Play(EMPTY, before + during), v) == HoldingOf(Play(EMPTY, before), v)
  {
    ReachableSpoolsAreExact(seal, pages, before);
    hide Exact, Bounded, Sealed, Apart, HoldingOf, CaptureRun, OrderlyRun, PinnedThroughout, Play;
    CapturesAreOrderly(seal, pages, Play(EMPTY, before), during);
    RunsKeepPinned(Play(EMPTY, before), during, v);
    RunsJoin(seal, pages, EMPTY, before, during);
  }

  /** What a packing worker stores is packed: in every commit, the parts gained since the last one. */
  lemma WorkersPack(w: Packer.Worker, k: nat, pages: set<PackModel.Page>, encode: string -> Bytes)
    requires w.Working(k) && forall i :: 0 <= i < |w.parts| ==> w.parts[i].page in pages
    ensures PackedRows(w.seal, pages, w.version, RowsOf(w.pendingParts, encode))
  {
    hide RowsOf, PackModel.PageText;
    var from := |w.job.parts|;
    assert w.parts[from..] == w.pendingParts;
    assert StoresRest(w.seal, pages, w.version, w.parts, from, encode, RowsOf(w.pendingParts, encode));
  }
}
