/** The parts phase of runtime/backup-v2-resume.ts: records packed into bounded pages by a worker that may be paused,
    cancelled or lost at any point, and finished from what it last committed. */
module Packer {
  import opened Collections
  import opened Base64
  import opened PackModel
  import opened PackDivision

  const BATCH_RECORDS: nat := 32
  const BATCH_BYTES: nat := 64 * 1024

  /** The committed job. */
  datatype Job = Job(parts: seq<Part>, partsAfter: Option<Digest>, partPage: Option<Page>,
                     partPageBytes: Option<nat>, done: bool)

  datatype Outcome = Finished | Yielded | Busy | OverBudget | Died

  /** A working copy that has packed the first k records, once each and in order. */
  predicate Packed(hash: Hash, seal: Seal, version: Uuid, records: seq<Record>, k: nat,
                   parts: seq<Part>, after: Option<Digest>, page: Page, pageBytes: nat)
  {
    k <= |records| && after == Cursor(records, k) && GoodParts(seal, version, parts)
    && GoodPage(version, page, pageBytes) && Held(parts) + page.items == AllItems(hash, records[..k])
  }

  function PagesOf(parts: seq<Part>): (pages: seq<seq<Item>>)
    ensures |pages| == |parts|
  {
    seq(|parts|, i requires 0 <= i < |parts| => parts[i].page.items)
  }

  /** The parts are the full pages of these items, and the page is the one being filled. */
  predicate Cuts(version: Uuid, parts: seq<Part>, page: Page, items: seq<Item>) {
    Divide(version, items) == Cut(PagesOf(parts), page.items)
  }

  /** The pages of these records' fragments. */
  function PagesFor(version: Uuid, hash: Hash, records: seq<Record>): seq<seq<Item>> {
    Closed(Divide(version, AllItems(hash, records)))
  }

  lemma PagesGrow(parts: seq<Part>, p: Part)
    ensures PagesOf(parts + [p]) == PagesOf(parts) + [p.page.items]
  {
  }

  function SavedPage(job: Job, version: Uuid): Page {
    if job.partPage.Some? then job.partPage.value else Page(version, [])
  }

  function SavedBytes(job: Job, version: Uuid): nat {
    if job.partPageBytes.Some? then job.partPageBytes.value else |PageText(SavedPage(job, version))|
  }

  /** What every commit leaves: a job in progress has packed some first records; a finished one has packed them all. */
  predicate Durable(hash: Hash, seal: Seal, version: Uuid, records: seq<Record>, k: nat, job: Job) {
    Packed(hash, seal, version, records, k, job.parts, job.partsAfter, SavedPage(job, version),
           SavedBytes(job, version))
    && (job.done ==> k == |records| && job.partPage.None? && job.partPageBytes.None?)
    && (if job.done then PagesOf(job.parts) == PagesFor(version, hash, records)
        else Cuts(version, job.parts, SavedPage(job, version), AllItems(hash, records[..k])))
  }

  /** A finished job's parts hold the fragments of every record, once each, in key order; and they are the same parts
      however the visits fell, no more of them than any way to cut the fragments into pages needs. */
  lemma FinishedPartsAreTheRecords(hash: Hash, seal: Seal, version: Uuid, records: seq<Record>, k: nat, job: Job)
    requires Durable(hash, seal, version, records, k, job) && job.done
    ensures Held(job.parts) == AllItems(hash, records) && GoodParts(seal, version, job.parts)
    ensures PagesOf(job.parts) == PagesFor(version, hash, records)
    ensures forall pages :: Division(version, pages, AllItems(hash, records)) ==> |job.parts| <= |pages|
  {
    hide PagesFor, PagesOf, Cuts, GoodParts;
    assert records[..k] == records;
    assert Held(job.parts) + [] == Held(job.parts);
    forall pages | Division(version, pages, AllItems(hash, records)) ensures |job.parts| <= |pages| {
      Fewest(version, hash, records, pages);
    }
  }

  lemma Fewest(version: Uuid, hash: Hash, records: seq<Record>, pages: seq<seq<Item>>)
    requires Division(version, pages, AllItems(hash, records))
    ensures |PagesFor(version, hash, records)| <= |pages|
  {
    hide Divide, Division;
    DivideIsTightest(version, AllItems(hash, records), pages);
  }

  lemma {:induction false} AllItemsFrom(hash: Hash, records: seq<Record>, k: nat) returns (more: seq<Item>)
    requires k <= |records|
    ensures AllItems(hash, records) == AllItems(hash, records[..k]) + more
    decreases |records|
  {
    hide ItemsOf;
    more := [];
    if k < |records| {
      var front := records[..|records| - 1];
      more := AllItemsFrom(hash, front, k);
      assert front[..k] == records[..k];
      var r := records[|records| - 1];
      more := more + ItemsOf(hash, r, Count(r.bytes));
    } else {
      assert records[..k] == records;
    }
  }

  /** The first records need no more pages than all of them. */
  lemma PagesForGrow(version: Uuid, hash: Hash, records: seq<Record>, k: nat)
    requires k <= |records|
    ensures |PagesFor(version, hash, records[..k])| <= |PagesFor(version, hash, records)|
  {
    hide AllItems, Divide;
    var more := AllItemsFrom(hash, records, k);
    DivideGrows(version, AllItems(hash, records[..k]), more);
  }

  lemma ItemFitsPage(hash: Hash, version: Uuid, r: Record, index: nat)
    requires |r.bytes| <= ENCODED_RECORD_BYTES && index < Count(r.bytes)
    ensures FitsPage(version, [ItemAt(hash, r, index)])
  {
    hide Render, ItemAt;
    ItemFits(hash, r, index);
    EmptyPageText(version);
    PageTextGrows(Page(version, []), ItemAt(hash, r, index));
    assert [] + [ItemAt(hash, r, index)] == [ItemAt(hash, r, index)];
  }

  lemma {:induction false} ItemsFitPages(hash: Hash, version: Uuid, records: seq<Record>)
    requires forall i :: 0 <= i < |records| ==> |records[i].bytes| <= ENCODED_RECORD_BYTES
    ensures forall i :: 0 <= i < |AllItems(hash, records)| ==> FitsPage(version, [AllItems(hash, records)[i]])
  {
    hide FitsPage, ItemAt;
    if records != [] {
      var r := records[|records| - 1];
      ItemsFitPages(hash, version, records[..|records| - 1]);
      forall i | 0 <= i < Count(r.bytes) ensures FitsPage(version, [ItemAt(hash, r, i)]) {
        ItemFitsPage(hash, version, r, i);
      }
    }
  }

  /** The job can be finished if and only if there is a way at all to cut the fragments of its records into as many pages
      as a job may have parts. */
  lemma PackableIff(version: Uuid, hash: Hash, records: seq<Record>)
    requires forall i :: 0 <= i < |records| ==> |records[i].bytes| <= ENCODED_RECORD_BYTES
    ensures |PagesFor(version, hash, records)| <= MOST_PARTS
      <==> exists pages :: Division(version, pages, AllItems(hash, records)) && |pages| <= MOST_PARTS
  {
    var items := AllItems(hash, records);
    ItemsFitPages(hash, version, records);
    hide FitsPage, Division, AllItems, Divide;
    DivideDivides(version, items);
    forall pages | Division(version, pages, items) ensures |PagesFor(version, hash, records)| <= |pages| {
      Fewest(version, hash, records, pages);
    }
  }

  /** The texts of these parts as the spool stores them, each under its hash. */
  function TextsOf(parts: seq<Part>): map<Digest, string> {
    if parts == [] then map[]
    else
      var last := parts[|parts| - 1];
      TextsOf(parts[..|parts| - 1])[last.sha256 := PageText(last.page)]
  }

  /** No two of these parts have one hash for two texts. */
  predicate Apart(parts: seq<Part>) {
    forall i, j :: 0 <= i < j < |parts| && parts[i].sha256 == parts[j].sha256
                   ==> PageText(parts[i].page) == PageText(parts[j].page)
  }

  /** Under a hash there is the text of the last part that has it. */
  lemma {:induction false} TextsAt(parts: seq<Part>, i: nat)
    requires i < |parts| && forall j :: i < j < |parts| ==> parts[j].sha256 != parts[i].sha256
    ensures parts[i].sha256 in TextsOf(parts) && TextsOf(parts)[parts[i].sha256] == PageText(parts[i].page)
  {
    if i < |parts| - 1 { TextsAt(parts[..|parts| - 1], i); }
  }

  function LastWith(parts: seq<Part>, h: Digest): (i: nat)
    requires exists j :: 0 <= j < |parts| && parts[j].sha256 == h
    ensures i < |parts| && parts[i].sha256 == h && forall j :: i < j < |parts| ==> parts[j].sha256 != h
  {
    if parts[|parts| - 1].sha256 == h then |parts| - 1
    else
      var k :| 0 <= k < |parts| && parts[k].sha256 == h;
      assert parts[..|parts| - 1][k].sha256 == h;
      LastWith(parts[..|parts| - 1], h)
  }

  /** Every part's text can be had back under its hash if and only if no two parts collide. */
  lemma StoredTextsIff(parts: seq<Part>)
    ensures (forall i :: 0 <= i < |parts| ==>
               parts[i].sha256 in TextsOf(parts) && TextsOf(parts)[parts[i].sha256] == PageText(parts[i].page))
      <==> Apart(parts)
  {
    hide TextsOf, PageText;
    forall i | 0 <= i < |parts|
      ensures parts[i].sha256 in TextsOf(parts)
      ensures Apart(parts) ==> TextsOf(parts)[parts[i].sha256] == PageText(parts[i].page)
    {
      TextsAt(parts, LastWith(parts, parts[i].sha256));
    }
  }

  class Worker {
    const version: Uuid
    const records: seq<Record>
    const hash: Hash
    const seal: Seal
    /** No deadline passes, no signal is raised and the worker does not die. */
    const calm: bool
    // Committed.
    var job: Job
    var stored: map<Digest, string>
    ghost var saved: nat
    // The working copy.
    var parts: seq<Part>
    var partsAfter: Option<Digest>
    var page: Page
    var pageBytes: nat
    var pendingParts: seq<Part>
    var batchRecords: nat
    var batchBytes: nat

    ghost predicate Valid()
      reads this
    {
      Sorted(records) && (forall i :: 0 <= i < |records| ==> |records[i].bytes| <= ENCODED_RECORD_BYTES)
      && Durable(hash, seal, version, records, saved, job) && stored == TextsOf(job.parts)
    }

    ghost predicate Working(k: nat)
      reads this
    {
      Valid() && saved <= k && !job.done && parts == job.parts + pendingParts
      && Packed(hash, seal, version, records, k, parts, partsAfter, page, pageBytes)
      && Cuts(version, parts, page, AllItems(hash, records[..k]))
    }

    constructor (version: Uuid, records: seq<Record>, hash: Hash, seal: Seal, calm: bool)
      requires Sorted(records) && forall i :: 0 <= i < |records| ==> |records[i].bytes| <= ENCODED_RECORD_BYTES
      ensures Valid() && saved == 0 && !job.done
      ensures this.version == version && this.records == records && this.hash == hash && this.seal == seal
      ensures this.calm == calm
    {
      this.version, this.records, this.hash, this.seal, this.calm := version, records, hash, seal, calm;
      job, stored := Job([], None, None, None, false), map[];
      saved, parts, partsAfter, page, pageBytes, pendingParts := 0, [], None, Page(version, []), 0, [];
      batchRecords, batchBytes := 0, 0;
      new;
      EmptyPageText(version);
      assert records[..0] == [];
    }

    /** The new parts go into the store. */
    method StoreParts()
      requires stored == TextsOf(job.parts)
      modifies this`stored
      ensures stored == TextsOf(job.parts + pendingParts)
    {
      hide PageText;
      assert job.parts + [] == job.parts;
      for i := 0 to |pendingParts|
        invariant stored == TextsOf(job.parts + pendingParts[..i])
      {
        var part := pendingParts[i];
        var more := job.parts + pendingParts[..i + 1];
        assert more[..|more| - 1] == job.parts + pendingParts[..i];
        stored := stored[part.sha256 := PageText(part.page)];
      }
      assert pendingParts[..|pendingParts|] == pendingParts;
    }

    /** One transaction of the spool: the job and the parts it has gained. */
    method Checkpoint(ghost k: nat)
      requires Working(k)
      modifies this`job, this`stored, this`saved, this`pendingParts, this`batchRecords, this`batchBytes
      ensures Working(k) && saved >= old(saved)
      ensures batchRecords == 0 && (old(batchRecords) > 0 ==> saved == k && pendingParts == [])
      ensures old(batchRecords) == 0 ==> job == old(job) && saved == old(saved) && pendingParts == old(pendingParts)
    {
      hide GoodParts, GoodPage, Held, AllItems, Cursor, Sorted, PageText, TextsOf;
      if batchRecords == 0 { return; }
      StoreParts();
      job := Job(parts, partsAfter, Some(page), Some(pageBytes), false);
      saved := k;
      pendingParts, batchRecords, batchBytes := [], 0, 0;
    }

    /** Ends the page and makes it a part; fails when there are already as many parts as are allowed. */
    method Flush() returns (ok: bool)
      requires GoodParts(seal, version, parts) && GoodPage(version, page, pageBytes) && parts == job.parts + pendingParts
      modifies this`parts, this`page, this`pageBytes, this`pendingParts
      ensures parts == job.parts + pendingParts
      ensures GoodParts(seal, version, parts) && GoodPage(version, page, pageBytes)
      ensures Held(parts) + page.items == old(Held(parts) + page.items)
      ensures ok ==> page.items == [] && pageBytes == 106
      ensures ok <==> old(page.items) == [] || |old(parts)| < MOST_PARTS
      ensures !ok ==> parts == old(parts) && page == old(page) && |parts| == MOST_PARTS
      ensures ok && old(page.items) != [] ==> PagesOf(parts) == PagesOf(old(parts)) + [old(page.items)]
      ensures ok && old(page.items) == [] ==> parts == old(parts)
    {
      hide Held, RenderAll, TextsOf;
      EmptyPageText(version);
      if page.items == [] {
        assert page == Page(version, []);
        return true;
      }
      if |parts| >= MOST_PARTS { return false; }
      var text := PageText(page);
      var part := Part(|parts|, seal(text), |text|, page);
      HeldGrows(parts, part);
      PagesGrow(parts, part);
      assert parts + [part] == job.parts + (pendingParts + [part]);
      parts := parts + [part];
      pendingParts := pendingParts + [part];
      page := Page(version, []);
      pageBytes := |PageText(page)|;
      return true;
    }

    /** One item goes onto the page, which is ended before if the item does not fit. */
    method PlaceItem(item: Item, ghost earlier: seq<Item>) returns (ok: bool)
      requires GoodParts(seal, version, parts) && GoodPage(version, page, pageBytes) && parts == job.parts + pendingParts
      requires |Render(item)| + 106 <= PART_BYTES && Cuts(version, parts, page, earlier)
      modifies this`parts, this`page, this`pageBytes, this`pendingParts
      ensures GoodParts(seal, version, parts) && GoodPage(version, page, pageBytes) && parts == job.parts + pendingParts
      ensures ok ==> Held(parts) + page.items == old(Held(parts) + page.items) + [item]
      ensures ok ==> Cuts(version, parts, page, earlier + [item])
      ensures !ok ==> |Closed(Divide(version, earlier + [item]))| > MOST_PARTS
    {
      hide GoodParts, Held, Render, PageText, Divide, FitsPage, PagesOf;
      var itemBytes := |Render(item)|;
      Continued(version, earlier, item);
      NextFits(version, page, pageBytes, item);
      assert [] + [item] == [item];
      if |page.items| >= MOST_ITEMS || pageBytes + itemBytes + (if page.items != [] then 1 else 0) > PART_BYTES {
        var flushed := Flush();
        if !flushed { return false; }
      }
      PageTextGrows(page, item);
      assert Held(parts) + (page.items + [item]) == Held(parts) + page.items + [item];
      pageBytes := pageBytes + itemBytes + if page.items != [] then 1 else 0;
      page := page.(items := page.items + [item]);
      return true;
    }

    /** The fragments of one record go onto the page, which is ended whenever the next does not fit. */
    method PackRecord(record: Record, ghost items: seq<Item>) returns (ok: bool)
      requires GoodParts(seal, version, parts) && GoodPage(version, page, pageBytes) && parts == job.parts + pendingParts
      requires |record.bytes| <= ENCODED_RECORD_BYTES && Cuts(version, parts, page, items)
      modifies this`parts, this`page, this`pageBytes, this`pendingParts
      ensures GoodParts(seal, version, parts) && GoodPage(version, page, pageBytes) && parts == job.parts + pendingParts
      ensures ok ==> Held(parts) + page.items
                     == old(Held(parts) + page.items) + ItemsOf(hash, record, Count(record.bytes))
      ensures ok ==> Cuts(version, parts, page, items + ItemsOf(hash, record, Count(record.bytes)))
      ensures !ok ==> |Closed(Divide(version, items + ItemsOf(hash, record, Count(record.bytes))))| > MOST_PARTS
    {
      hide GoodParts, GoodPage, Held, ItemsOf, Render, PageText, Fragment, Cuts, Closed, Divide;
      var digest, count := hash(record.bytes), Count(record.bytes);
      var index := 0;
      ghost var before := Held(parts) + page.items;
      assert before + [] == before && items + [] == items;
      NoItems(hash, record);
      while index < count
        invariant 0 <= index <= count && Cuts(version, parts, page, items + ItemsOf(hash, record, index))
        invariant GoodParts(seal, version, parts) && GoodPage(version, page, pageBytes)
        invariant parts == job.parts + pendingParts
        invariant Held(parts) + page.items == before + ItemsOf(hash, record, index)
      {
        var fragment := Fragment(record.bytes, index);
        var item := Item(record.id, index, count, |record.bytes|, digest, Encode(fragment));
        ItemFits(hash, record, index);
        NextItem(hash, record, index, items);
        NextItem(hash, record, index, before);
        var placed := PlaceItem(item, items + ItemsOf(hash, record, index));
        if !placed {
          TooMany(version, items, hash, record, index + 1);
          return false;
        }
        index := index + 1;
      }
      return true;
    }

    static lemma NoItems(hash: Hash, record: Record)
      ensures ItemsOf(hash, record, 0) == []
    {
    }

    static lemma NextItem(hash: Hash, record: Record, index: nat, items: seq<Item>)
      ensures items + ItemsOf(hash, record, index + 1) == items + ItemsOf(hash, record, index) + [ItemAt(hash, record, index)]
    {
      hide ItemAt;
    }

    /** What the loop measures tells whether the item fits the page. */
    static lemma NextFits(version: Uuid, page: Page, pageBytes: nat, item: Item)
      requires GoodPage(version, page, pageBytes)
      ensures FitsPage(version, page.items + [item]) <==>
        |page.items| < MOST_ITEMS && pageBytes + |Render(item)| + (if page.items != [] then 1 else 0) <= PART_BYTES
    {
      hide Render;
      PageTextGrows(page, item);
    }

    static lemma TooMany(version: Uuid, items: seq<Item>, hash: Hash, record: Record, index: nat)
      requires index <= Count(record.bytes)
      requires |Closed(Divide(version, items + ItemsOf(hash, record, index)))| > MOST_PARTS
      ensures |Closed(Divide(version, items + ItemsOf(hash, record, Count(record.bytes))))| > MOST_PARTS
    {
      hide Divide, ItemAt;
      var all := ItemsOf(hash, record, Count(record.bytes));
      assert all == ItemsOf(hash, record, index) + all[index..];
      assert items + all == items + ItemsOf(hash, record, index) + all[index..];
      DivideGrows(version, items + ItemsOf(hash, record, index), all[index..]);
    }

    /** Takes up the job from its last commit. */
    method Resume()
      requires Valid() && !job.done
      modifies this`parts, this`partsAfter, this`page, this`pageBytes, this`pendingParts, this`batchRecords,
               this`batchBytes
      ensures Working(saved) && batchRecords == 0 && pendingParts == []
    {
      hide GoodParts, GoodPage, Held, AllItems, Cursor, Sorted, PageText, TextsOf;
      parts, partsAfter, pendingParts, batchRecords, batchBytes := job.parts, job.partsAfter, [], 0, 0;
      page := if job.partPage.Some? then job.partPage.value else Page(version, []);
      pageBytes := if job.partPageBytes.Some? then job.partPageBytes.value else |PageText(page)|;
    }

    lemma WorkingCursor(k: nat)
      requires Working(k)
      ensures k <= |records| && partsAfter == Cursor(records, k) && Sorted(records)
    {
    }

    /** A whole record, and only then the cursor past it. */
    method TakeRecord(record: Record, ghost k: nat) returns (ok: bool)
      requires Working(k) && k < |records| && record == records[k]
      modifies this`parts, this`page, this`pageBytes, this`pendingParts, this`partsAfter, this`batchRecords,
               this`batchBytes
      ensures Valid()
      ensures ok ==> Working(k + 1) && batchRecords > 0
      ensures !ok ==> |PagesFor(version, hash, records)| > MOST_PARTS
    {
      hide GoodParts, GoodPage, Held, AllItems, ItemsOf, Sorted, PageText, Count, Durable, TextsOf, Cuts, Divide, PagesOf;
      AllItemsGrow(hash, records, k);
      ok := PackRecord(record, AllItems(hash, records[..k]));
      if !ok {
        PagesForGrow(version, hash, records, k + 1);
        return;
      }
      partsAfter := Some(record.id);
      batchRecords := batchRecords + 1;
      batchBytes := batchBytes + |record.bytes|;
    }

    /** Anything outside that ends a visit. */
    method Interrupted() returns (yes: bool)
      ensures calm ==> !yes
    {
      yes := *;
      if calm { yes := false; }
    }

    /** One visit. Where the source looks at a clock or a signal, anything may be chosen. */
    method RunParts() returns (outcome: Outcome)
      requires Valid() && !job.done
      modifies this
      ensures Valid() && saved >= old(saved)
      ensures outcome == Finished <==> job.done
      ensures outcome == Yielded ==> saved > old(saved)
      ensures outcome == OverBudget ==> |PagesFor(version, hash, records)| > MOST_PARTS
      ensures calm ==> outcome == Finished || outcome == OverBudget
    {
      hide GoodParts, GoodPage, Held, AllItems, Sorted, Rest, Durable, Packed, TextsOf, PagesFor, Cuts;
      Resume();
      WorkingCursor(saved);
      RestOfCursor(records, partsAfter, saved);
      var rest := Rest(records, partsAfter);
      ghost var first := saved;
      var i := 0;
      while i < |rest|
        invariant 0 <= i <= |rest| && rest == records[first..] && Working(first + i) && saved >= first
        invariant batchRecords > 0 ==> i > 0
      {
        var record := rest[i];
        assert record == records[first + i];
        var cancelled := Interrupted();
        if cancelled {
          // Cancelled, or the deadline has passed: commit whole records, then stop.
          Checkpoint(first + i);
          return Busy;
        }
        if batchRecords > 0 && batchBytes + |record.bytes| > BATCH_BYTES {
          Checkpoint(first + i);
          var late := Interrupted();
          if late { return Yielded; }
        }
        var packed := TakeRecord(record, first + i);
        if !packed { return OverBudget; }
        var lost := Interrupted();
        if lost { return Died; }
        i := i + 1;
        var visitEnded := Interrupted();
        var aborted := Interrupted();
        var slow: bool := *;
        if batchRecords >= BATCH_RECORDS || batchBytes >= BATCH_BYTES || slow || pendingParts != [] || visitEnded
           || aborted {
          Checkpoint(first + i);
        }
        if aborted { return Busy; }
        if visitEnded { return Yielded; }
        lost := Interrupted();
        if lost { return Died; }
      }
      outcome := FinishParts();
    }

    /** The last page ends, and the finished job is committed. */
    method FinishParts() returns (outcome: Outcome)
      requires Working(|records|)
      modifies this
      ensures Valid() && saved >= old(saved)
      ensures outcome == Finished <==> job.done
      ensures outcome == Finished || outcome == OverBudget || (outcome == Died && !calm)
      ensures outcome == OverBudget ==> |PagesFor(version, hash, records)| > MOST_PARTS
    {
      hide GoodParts, Held, AllItems, Sorted, Cursor, TextsOf, Divide, PagesOf;
      assert records[..|records|] == records;
      var flushed := Flush();
      if !flushed { return OverBudget; }
      var lost := Interrupted();
      if lost { return Died; }
      EmptyPageText(version);
      assert page == Page(version, []);
      StoreParts();
      job := Job(parts, partsAfter, None, None, true);
      saved := |records|;
      return Finished;
    }

    /** Any number of visits. */
    method Drive(visits: nat) returns (finished: bool)
      requires Valid() && !job.done
      modifies this
      ensures Valid() && (finished <==> job.done)
      ensures finished ==> Held(job.parts) == AllItems(hash, records) && GoodParts(seal, version, job.parts)
      ensures stored == TextsOf(job.parts)
      ensures calm && visits > 0 ==> (finished <==> |PagesFor(version, hash, records)| <= MOST_PARTS)
    {
      hide PagesFor, Held, AllItems, PagesOf, Cuts, TextsOf;
      var n := visits;
      while n > 0
        invariant n <= visits && Valid() && !job.done
        invariant calm && n < visits ==> |PagesFor(version, hash, records)| > MOST_PARTS
      {
        var outcome := RunParts();
        if outcome == Finished {
          FinishedPartsAreTheRecords(hash, seal, version, records, saved, job);
          return true;
        }
        n := n - 1;
      }
      return false;
    }
  }
}
