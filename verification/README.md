# Verified model of a browser portal's storage layer

The portal keeps websites' storage in native IndexedDB and backs it up while the websites go on writing. This project
models the hand-written protocols of that storage layer and proves what they are there for. Each part follows its
source file: code that changes rows, counters and caches step by step is a class or a method with loops, proved against
a function over values; what the source promises is then proved about that function, over every input or every run.

1. **Optimistic incremental capture** (`DirtyLedger`, `DirtyGarbage`, `DirtyStore`, `CaptureModel`, `CaptureProof`,
   `CaptureActor`, `CaptureProgress`, `CaptureAdoption`, `CaptureMaintenance`, `CaptureParents`). A website's
   transactions, the metadata maintenance and the acknowledgement of published cuts interleave with every await of a
   backup actor that scans in pages, catches up, seals and can die anywhere; the service that runs the actor evicts and
   publishes between its visits. In every reachable world each sealed version restores to exactly the website's data at
   its cut; a capture that is left alone, or whose source changes less often than it may catch up, is sealed; what is
   adopted is not backed up again; and a completed maintenance pass leaves nothing obsolete.
2. **Packing and unpacking** (`Base64`, `PackModel`, `PageReading`, `PackDivision`, `Packer`, `Unpacking`). Spooled
   records are cut into fragments and packed into parts of at most 256 KiB and 256 items, under any schedule of pauses,
   cancellations and deaths; the parts are the same under all of them and as few as can be; a reader of their text finds
   every field; what is reassembled is what was spooled.
3. **The spool** (`SpoolModel`, `SpoolProof`, `SpoolStore`, `SpoolCommits`, `SpoolPacking`, `SpoolPressure`) and **the fair
   schedule** (`FairSchedule`, `FairSelection`, `FairQueue`). Counters, limits and pins over every run; which commits are
   let in; how long a source can be kept waiting, and that none is handed out before its time.
4. **Two-database quota reservation** (`QuotaModel`, `QuotaProof`, `QuotaGrants`, `QuotaOvertaking`, `QuotaStore`). The
   data and the charge for it commit separately. Over every run, with aborts, lost operations, lost replies, crashes,
   creations and deletions, each database is charged at least what it holds and all of them together stay within the
   quota; what fits is let through, and what is not used is given back.
5. **Incremental usage accounting** (`Accounting`, `AccountingAudit`). The audited totals are a full recount.
6. **The cookie jar** (`CookieWrites`, `CookieRules`, `CookieJar`, `CookieStore`), its caches (`Recency`, `CookieViews`,
   `CookieCaches`) and the document's own view (`CookieLocalView`). Each fast path agrees with a plain scan, filter and
   sort (the order of section 5.4 of RFC 6265), documents cannot touch HttpOnly cookies, and no plain transport secure ones.
7. **The CSS dependency scanner and rewriter** (`CssTokens`, `CssScanner`, `CssReaders`, `CssContexts`, `CssDestinations`,
   `CssSheets`, `CssMachine`, `CssRewriting`, `CssRewriter`, `CssLayers`, `CssGrowth`, `CssSplicing`). What is found where
   in which sheets; and scanning a rewritten sheet finds the same dependencies with their replacements (token structure
   of section 4.3 of CSS Syntax Module Level 3).
8. **The portable object-graph codec** (`GraphCodec`, `GraphProof`, `GraphRoundTrip`, `GraphIsomorphism`, `GraphSuccess`,
   `GraphLimits`, `GraphMachine`). Which graphs are encoded; decoding an encoding gives an isomorphic graph, cycles and
   sharing included.
9. **Local and session storage** (`LocalStorage`, `LocalStorageProof`, `LocalStorageRuns`). Ledger, quota, revisions,
   receipts and backup markers.

IndexedDB is a set of maps whose transactions are atomic steps (section 2.7 of Indexed Database API 2.0). Deadlines and
signals are free choices. SHA-256 is an abstract function; where two texts must not collide, the statement names the
texts.

## Where the code does not do what it is for

Some properties one would expect of the code are false. The code is modelled as it is; for each, the exact condition
under which the property holds is proved, and an input or a run where it fails.

- A response may set a cookie of another registrable site: the host bucket.s3.amazonaws.com may set
  Domain=amazonaws.com, since the parser asks only that the domain is a suffix of the host and no public suffix itself.
  The scan of a write then misses what is stored there: each time the cookie is set again the usage row counts it again,
  the certificate left counts it for the wrong site, and the earlier cookie's HttpOnly mark and creation time do not
  hold. Usage row and certificates stay exact over a run exactly when every write that scans is domestic:
  `CookieJar.CertificatesStayTrueIff`, `CookieJar.DomesticIffLines`; by how much the usage row drifts otherwise:
  `CookieJar.UsageDriftsExactly`; two writes that do it: `CookieJar.ForeignCookieDrifts`.
- A source that is caught up, and is found again between a new baseline and the rebase of its row, is queued in a tier
  that is never read: `FairSchedule.ListedIff`, `FairSchedule.TouchedTooEarly`.
- A capture takes the parent it is given: were the present head passed though it is of an earlier incarnation, the
  delta would lack data: `CaptureParents.DeltaIsRightIff`, `CaptureParents.ForeignParentIsWrong`. The service passes a
  head of the present incarnation only (web/src/backup-v2-service.ts:448-458).
- A record without bytes is packed into no fragment and cannot be reassembled: `Unpacking.ReassemblyIsExact`.
- A URL with a NUL in it is not read back from its quotation: `CssRewriting.QuoteRoundTrip`.
- A rewritten sheet may outgrow the scanner: `CssRewriter.RewriteKeepsDependencies`, `CssGrowth.OutgrowsIff`,
  `CssGrowth.SmallSheetOutgrows`.
- An encoded graph may be one that decoding refuses, such as an empty array of length 40001:
  `GraphIsomorphism.RoundTrip`, `GraphIsomorphism.LongArrayIsRefused`.
- A usage audit run twice in one transaction starts both times from the base of the first:
  `AccountingAudit.SecondAuditIsRecountIff`, `AccountingAudit.SecondAuditMisses`.
- A finished job that was taken back would make a ninth partial job: `SpoolProof.PartialBoundIff`,
  `SpoolPressure.NinthPartialJob`.
- A receipt for sequence 0 outlives the window by one, because receipts are dropped only from sequence 9 on:
  `LocalStorageRuns.ReceiptKeptIff`.

Two more show what the code relies on. A quota operation that overtook an older one of its own database would
undercharge, and overtaking those of other databases would do no harm: `QuotaOvertaking.OvertakingUndercharges`,
`QuotaOvertaking.OrderPerDatabaseSuffices`. Two versions that shared a part would lose it with the first discard, pinned
or not: `SpoolProof.SharedPartIsLost`, `SpoolProof.DiscardSparesIff`; they share none, because a part is stored under
the hash of text that names its version: `SpoolPacking.PartsNameTheirVersion`, `SpoolPacking.ReachableSpoolsAreExact`.

## Model

| member | source | states |
|---|---|---|
| `CaptureProof.SealedVersionsAreSnapshots` | runtime/backup-v2-resume.ts:179-305 | In every world reached by any interleaving of website transactions, maintenance, database replacement, capture steps, crashes, evictions and publications, a sealed version's restored image is the committed data of its incarnation at its cut; and a delta's records, laid over the data of any generation from the one acknowledged when it sealed up to the cut, give the data at the cut. |
| `CaptureProof.ReachableLedgersCover` | runtime/local-dirty-v2.ts:220-347 | In every reachable world marker rows and generation rows correspond one to one, both counters are exact and within their limits, and while no baseline is required every key last changed after the acknowledged generation has a current marker at exactly that generation that says whether the key still holds a value. |
| `CaptureProof.StepKeeps` | runtime/backup-v2-resume.ts:73-305 | Every step of website, maintenance, actor and publication service keeps the joint invariant of source, spool, versions and publication. |
| `CaptureProof.PageKeeps` | runtime/backup-v2-resume.ts:200-230 | Committing a page against the world it was read in leaves every key newer than the target, settled, or still ahead of the cursor. |
| `CaptureProof.ActorEvolves` | runtime/backup-v2-resume.ts:200-230 | Whatever the website and its maintenance do between the read and the commit, what the actor holds in memory stays right for the world then, pages read earlier included. |
| `CaptureProof.JobEvolves` | runtime/backup-v2-resume.ts:179-305 | The same for the committed job and its records. |
| `CaptureProof.BaselinePageKey` | runtime/backup-v2-indexeddb-source.ts:341-396 | A baseline page that moves its cursor over a key records the value the key has in that very transaction. |
| `CaptureProof.ChangePageKey` | runtime/backup-v2-indexeddb-source.ts:397-470 | A change page that moves its cursor over a key's marker settles the key, deletions included. |
| `CaptureProof.CatchUpKeeps` | runtime/backup-v2-resume.ts:231-262 | Raising the target to a moved generation reopens exactly the keys changed since the old target. |
| `CaptureProof.SettledOverlay` | runtime/backup-v2-resume.ts:263-305 | When the generation stands at the target, the spooled records over nothing (baseline) or over any base from the acknowledged generation on (delta) are the present data. |
| `CaptureProof.AdoptKeeps` | runtime/local-dirty-v2.ts:366-384 | Acknowledging a published cut, at any moment of a capture, keeps the invariant: no capture under way loses a change. |
| `CaptureProof.WriteKeeps` | runtime/local-dirty-v2.ts:232-344 | Every journalled write inside a website transaction keeps the ledger paired, exact, bounded and covering. |
| `CaptureActor.ReadBaselinePage` | runtime/backup-v2-indexeddb-source.ts:341-396 | The cursor loop over the stores returns a page that holds current values only and misses no key its position moves over, wherever the budget runs out; and its position moves, unless it is at the end. |
| `CaptureActor.ReadChangePage` | runtime/backup-v2-indexeddb-source.ts:397-470 | The cursor loop over generation rows returns a page with every marker its position moves over, each with the value its key has in this transaction; and its position moves, unless it is at the end. |
| `CaptureActor.BackupActor.ResumeBackupNamespace` | runtime/backup-v2-resume.ts:73-478 | One visit of the actor, interleaved with anything at every await: if it returns a version, the version restores to the source's data at its cut; otherwise the job is left for the next visit. In a world where nothing happens at the awaits, every record is readable and there are turns enough, it does return a version, of the present data, unless the parent has that already or the job found has used up its passes. |
| `CaptureActor.BackupActor.RunPhase` | runtime/backup-v2-resume.ts:179-305 | The transactions of one phase, what is read being committed by a later transaction, keep the joint invariant. |
| `CaptureProgress.QuietRunsEnd` | runtime/backup-v2-resume.ts:179-305 | However its pages are cut, a capture left alone makes at most as many transactions as there is work, and where it can go no further it is sealed at the present generation, or dropped if its passes are used up. |
| `CaptureProgress.NotStuck` | runtime/backup-v2-resume.ts:179-305 | Before the seal there is always a next transaction, whichever page is read. |
| `CaptureProgress.QuietCaptureCompletes` | runtime/backup-v2-resume.ts:179-305 | From every world the website has left quiet, a capture under way with passes left completes with its own job, and its version is the present data. |
| `CaptureProgress.ResumedVisitCompletes` | runtime/backup-v2-resume.ts:73-87 | A visit goes on with a job over the same parent that is not marked, of the same incarnation, schema, tracking and store epochs, and completes it. |
| `CaptureProgress.QuietVisitCompletes` | runtime/backup-v2-resume.ts:88-178 | A visit to a source with something to back up and no usable job completes a version of the present data: a baseline exactly if there is no parent or a baseline is required, and else a delta. |
| `CaptureProgress.NothingToBackUp` | runtime/backup-v2-resume.ts:88-91 | With a parent and nothing beyond the acknowledged generation the visit ends at once and leaves everything as it was. |
| `CaptureProgress.ChangesAreScanned` | runtime/backup-v2-resume.ts:231-262 | A capture that observes a generation past its target, of the same incarnation and epochs and with fewer than three passes used, keeps its job and its records and scans exactly the generations after the old target, up to the one observed. |
| `CaptureProgress.ChangedCaptureCompletes` | runtime/backup-v2-resume.ts:231-305 | From every reachable world in which that happens, once the website is quiet, the same job completes at the generation observed. |
| `CaptureAdoption.AdoptedIsUpToNow` | runtime/local-dirty-v2.ts:366-384 | A published version of the present generation, adopted in any reachable world, leaves nothing to back up and no baseline required. |
| `CaptureAdoption.AdoptedIsLeftAlone` | runtime/backup-v2-resume.ts:88-91 | The next visit with a parent then finds nothing to do. |
| `CaptureAdoption.NextBackupIsADelta` | runtime/local-dirty-v2.ts:366-384 | After one put that fits the marker limits to a source with nothing to back up, the next capture completes as a delta of that one key and shows what the source then holds. |
| `CaptureAdoption.AdoptedThenPut` | runtime/local-dirty-v2.ts:366-384 | The two together, from every reachable world: adopted, put once, and the next capture is a delta of that put. |
| `CaptureMaintenance.ReachableMaintenanceIsClean` | runtime/local-dirty-v2.ts:440-456 | In every reachable world a maintenance transaction that reports its pass complete leaves no marker and no size row obsolete under the control row it ran with, whatever was written, acknowledged or replaced while the pass was under way. |
| `CaptureMaintenance.ReachableMaintenanceCompletes` | runtime/local-dirty-v2.ts:392-556 | From every reachable world the maintenance left alone completes such a pass. |
| `CaptureParents.DeltaIsRightIff` | runtime/backup-v2-restore.ts:317-364 | A delta whose records are right restores to the data exactly when its parent agrees with the data wherever the delta is silent. |
| `CaptureParents.ForeignParentIsWrong` | runtime/backup-v2-resume.ts:71-109 | A reachable world with the head of an earlier incarnation, and a capture over that head in which no baseline is asked for: the version sealed is not the data at its cut. |
| `DirtyLedger.AppendKeepsLedger` | runtime/local-dirty-v2.ts:232-344 | Through upserts, deletes, overflow, clears, schema changes and database deletion, marker and generation rows stay paired and both counters exact and within their limits. |
| `DirtyLedger.AppendKeepsCoverage` | runtime/local-dirty-v2.ts:221-228 | Every change stays covered by a marker at its generation, or a baseline is demanded. |
| `DirtyLedger.AcknowledgeKeepsCoverage` | runtime/local-dirty-v2.ts:366-384 | Acknowledging drops only demands the cut covers, and clears a required baseline only when nothing changed after the cut. |
| `DirtyLedger.AcknowledgeMeans` | runtime/local-dirty-v2.ts:376-383 | A cut that has happened leaves the later of the two acknowledgements, and clears the required baseline if and only if the epoch is the expected one and the cut is the present generation; nothing else changes, and nothing at all for a cut from the future. |
| `DirtyLedger.BaselineDemandedIff` | runtime/local-dirty-v2.ts:232-344 | A baseline is demanded by a clear, a schema change, a deletion of the database or a marker beyond the limits, and by nothing else; a marker within them is written at the present generation. |
| `DirtyLedger.SizeRowsFollow` | runtime/local-dirty-v2.ts:262-281 | The size row of a key is what its last upsert measured, and there is none after a delete, over any batch. |
| `DirtyLedger.MarkConserves` | runtime/local-dirty-v2.ts:301-340 | Replacing or adding a marker leaves the counters equal to the number and the bytes of the current markers. |
| `DirtyStore.LocalDirtyStore.BeginTransaction` | runtime/local-dirty-v2.ts:200-219 | A transaction takes the next generation, or aborts when generations are exhausted. |
| `DirtyStore.LocalDirtyStore.AppendLocalDirty` | runtime/local-dirty-v2.ts:232-346 | The pump, item by item over its pending queue, does to the rows what the ledger's specification does. |
| `DirtyStore.LocalDirtyStore.AcknowledgeLocalDirty` | runtime/local-dirty-v2.ts:366-384 | Acknowledgement in place is the specification's, whose effect AcknowledgeMeans states, and is refused exactly for a cut that has not happened. |
| `DirtyStore.LocalDirtyStore.CollectLocalDirtyGarbage` | runtime/local-dirty-v2.ts:392-556 | One maintenance transaction with its two cursors, budget, stored progress and rescan is the specification's. |
| `DirtyStore.LocalDirtyStore.Maintain` | runtime/local-dirty-v2.ts:392-556 | The re-armed job, left alone, ends, and leaves no marker and no size row obsolete under the control row it began with. |
| `DirtyGarbage.CollectThins` | runtime/local-dirty-v2.ts:533-551 | No maintenance transaction removes an unacknowledged marker of the current tracking epoch, or adds a row. |
| `DirtyGarbage.CollectCounts` | runtime/local-dirty-v2.ts:487-503 | At most the budget is visited, and the rows reported removed are the rows that went. |
| `DirtyGarbage.CollectKeepsLedger` | runtime/local-dirty-v2.ts:515-552 | Collection keeps the rows paired and the counters exact. |
| `DirtyGarbage.CollectKeepsCoverage` | runtime/local-dirty-v2.ts:515-552 | Collection keeps every unacknowledged change covered. |
| `DirtyGarbage.CollectKeepsSizes` | runtime/local-dirty-v2.ts:515-552 | No maintenance transaction removes the size row of an existing store's key of the current epoch. |
| `DirtyGarbage.CompletedPassIsClean` | runtime/local-dirty-v2.ts:440-456 | As long as what the pass has moved over is clean, which every step keeps, a pass reported complete leaves nothing obsolete, even if the goal changed while it ran. |
| `DirtyGarbage.CollectProgresses` | runtime/local-dirty-v2.ts:392-556 | With the control row unchanged every call that does not complete the pass leaves strictly less work. |
| `DirtyGarbage.RepeatedCollectionCompletes` | runtime/local-dirty-v2.ts:392-556 | With a pass under way, as many calls as there is work left complete it, and the ledger those calls leave is clean. |
| `DirtyGarbage.MaintenanceCompletes` | runtime/local-dirty-v2.ts:392-556 | The same from any saved progress, of an earlier goal or of none. |
| `Packer.FinishedPartsAreTheRecords` | runtime/backup-v2-resume.ts:306-475 | The parts of a finished job hold the fragments of every record, once each, in key order, every part within 256 KiB and 256 items; they do not depend on how the visits fell, and no other way to cut the fragments into pages within the limits has fewer. |
| `Packer.Worker.RunParts` | runtime/backup-v2-resume.ts:306-449 | One visit of the packing loop, ended anywhere by deadline, budget, signal or death, keeps the durable job equal to the records up to its cursor; a visit that yields has advanced; one that nothing ends from outside finishes the job or finds it over the budget of parts; and over the budget is found only when the pages are too many. |
| `Packer.Worker.PackRecord` | runtime/backup-v2-resume.ts:373-405 | The fragments of a record follow on what is packed, once each and in order, as the division of all fragments has them; it stops only if that division needs more than 32 pages. |
| `Packer.Worker.PlaceItem` | runtime/backup-v2-resume.ts:397-404 | A page is ended exactly when the next item would take it past 256 items or 256 KiB of text. |
| `Packer.Worker.Flush` | runtime/backup-v2-resume.ts:331-357 | Ending a page moves its items to a part and changes nothing of what is packed. |
| `Packer.Worker.Checkpoint` | runtime/backup-v2-resume.ts:319-330 | Cursor, partial page, parts, byte count and the texts of the new parts become durable together. |
| `Packer.StoredTextsIff` | runtime/backup-v2-resume.ts:338-356 | The text stored under each part's hash is that part's, for all of them, exactly when no two parts of the version collide. |
| `Packer.Worker.FinishParts` | runtime/backup-v2-resume.ts:450-475 | The last page becomes a part and the job is done, or nothing of it is. |
| `Packer.Worker.Drive` | runtime/backup-v2-resume.ts:306-475 | Any number of visits, each resumed from the last commit: once finished, the parts are the records, and what is stored are the texts of the parts; and visits nobody disturbs finish exactly if the division has at most 32 pages. |
| `Packer.PackableIff` | runtime/backup-v2-resume.ts:331-337 | A job can be finished exactly if there is any way at all to cut its fragments, in order, into 32 pages within the limits. |
| `PackDivision.DivideIsTightest` | runtime/backup-v2-resume.ts:397-404 | No way to cut a row of items into pages within the limits has fewer pages than taking items as long as they fit. |
| `PackDivision.DivideDivides` | runtime/backup-v2-resume.ts:397-404 | And that is such a way, if every item fits a page of its own. |
| `PageReading.PageReads` | runtime/backup-v2-resume.ts:346-356 | A reader of JSON that goes by field names gets back from the text of a page its format, its version and of every item recordId, index, count, totalBytes, sha256 and data, with nothing left over. |
| `PageReading.FragmentReads` | runtime/backup-v2-resume.ts:385-396 | The text of every fragment of a record is so read back, whatever its bytes are. |
| `PackModel.PageTextGrows` | runtime/backup-v2-resume.ts:394-404 | The tracked page size, item by item with its commas, is the size of the page's JSON text. |
| `PackModel.ItemFits` | runtime/backup-v2-resume.ts:397-404 | Every fragment of every eligible record fits an empty page, so that ending the page always makes room. |
| `PackModel.RestOfCursor` | runtime/backup-v2-spool.ts:669-706 | Reading on from the cursor of a job gives exactly the records not yet packed. |
| `Base64.RoundTrip` | runtime/backup-v2-restore.ts:355-358 | The restore's decoder undoes the packer's encoder on all bytes. |
| `Unpacking.Assemble` | runtime/backup-v2-restore.ts:317-364 | The loop that fills the record's buffer gives what the specification of reassembly gives, refusals included. |
| `Unpacking.ReassemblyIsExact` | runtime/backup-v2-restore.ts:317-364 | From the fragments of a packed record its bytes come back, if and only if it has any. |
| `Unpacking.ReassemblyIsSound` | runtime/backup-v2-restore.ts:344-364 | Whatever is accepted has the promised length and digest, and came from fragments of that record in order. |
| `Unpacking.PackedRecordsRestore` | runtime/backup-v2-restore.ts:317-364 | From the finished parts of a job every record with bytes can be named and is restored exactly. |
| `SpoolPacking.ReachableSpoolsAreExact` | runtime/backup-v2-spool.ts:283-490 | From the empty spool, over every run in which finished jobs stay finished and parts come from packing, unless texts of the run collide: the counters are exact and within their limits, and no two versions share a part. |
| `SpoolPacking.ReachablePinnedStay` | runtime/backup-v2-spool.ts:280-297 | In every spool so reached, what a version has stays as it is while a prepared manifest names it. |
| `SpoolPacking.WorkersPack` | runtime/backup-v2-resume.ts:319-356 | What a packing worker commits in any visit are packed parts of its version. |
| `SpoolPacking.CapturesAreOrderly` | runtime/backup-v2-resume.ts:338-356 | Runs whose parts come from packing are orderly: every stored hash is that of a page of its version. |
| `SpoolPacking.PartsNameTheirVersion` | runtime/backup-v2-resume.ts:338-346 | Pages of different versions have different texts, and different hashes exactly when these two texts do not collide. |
| `SpoolProof.RunsStayExactAndBounded` | runtime/backup-v2-spool.ts:283-490 | Over every orderly run of commits, discards, clears, prepares, abandons and finishes, recordBytes, partBytes and jobBytes are the stored totals and the sums per version, the three stay within 16 MiB together, each version within 8 MiB, and there are at most 8 partial jobs. |
| `SpoolProof.RunsKeepPinned` | runtime/backup-v2-spool.ts:280-297 | As long as a prepared manifest names a version, nothing of its records and parts changes, whatever the other captures do. |
| `SpoolProof.CommitStaysExact` | runtime/backup-v2-spool.ts:366-490 | A commit that rewrites rows and parts, the same ones more than once included, keeps every counter exact. |
| `SpoolProof.DiscardStaysExact` | runtime/backup-v2-spool.ts:283-365 | A discard takes away exactly what the version had, and leaves all other versions as they were. |
| `SpoolProof.StepKeepsPinned` | runtime/backup-v2-spool.ts:372-382 | No single step changes what a pinned version holds, the step that lifts the pin included. |
| `SpoolProof.ClearIsVacuous` | runtime/backup-v2-spool.ts:720-743 | Clearing takes nothing away: it acts only when there is no job, and then nothing is stored. |
| `SpoolProof.PartialBoundIff` | runtime/backup-v2-spool.ts:386-400 | A commit leaves at most 8 partial jobs, unless it takes a finished job back when there are 8. |
| `SpoolPressure.NinthPartialJob` | runtime/backup-v2-spool.ts:386-400 | A run from the empty spool that takes a finished job back with eight others under way: there are nine then, though a new job is refused. |
| `SpoolProof.SharedPartIsLost` | runtime/backup-v2-spool.ts:428-442 | A part committed for one version that a pinned one has already is lost to the pinned one with the first one's discard. |
| `SpoolProof.DiscardSparesIff` | runtime/backup-v2-spool.ts:320-321 | A discard spares the parts of another version if and only if the two share none. |
| `SpoolStore.IndexedSpool.CommitCapture` | runtime/backup-v2-spool.ts:366-490 | The transaction with its two loops does what the specification does and refuses for the same reason; a refusal leaves the spool as it was. |
| `SpoolCommits.CommitMeans` | runtime/backup-v2-spool.ts:366-490 | From exact counters, a commit is let in if and only if its version is not pinned, its source keeps its version or there is room for one more partial job, no other source has the version, and what would then be stored is within every limit; then the rows and parts are stored, the last of a name winning, and nothing else is different. |
| `SpoolCommits.PinnedUntilReceipt` | runtime/backup-v2-spool.ts:497-638 | A prepared manifest refuses commits and discards of its versions and every other manifest, until the receipt with its checkpoint, digest and sequence, and no other, takes the spool back to where it was. |
| `SpoolStore.IndexedSpool.DiscardNamespace` | runtime/backup-v2-spool.ts:283-365 | The discard transaction, refused exactly for a pinned version. |
| `SpoolStore.IndexedSpool.FinishPublication` | runtime/backup-v2-spool.ts:599-638 | Given the receipt of the prepared checkpoint, the pin goes and its versions end with nothing in the spool: all of them if the worker lives, or, after a death in between, some; every other version has what it had, and all counters stay exact. Any other receipt changes nothing. |
| `SpoolStore.IndexedSpool.PrepareManifest` | runtime/backup-v2-spool.ts:497-514 | A second manifest is refused unless it is the one already prepared. |
| `FairSchedule.BypassedAtMostOnce` | runtime/backup-v2-spool.ts:968-1015 | Over a fixed set of sources, however hints, probes and new baselines move them between the tiers, each other source is served from ahead of a waiting one at most once, only if it stood ahead to begin with, and is not ahead after that. |
| `FairSchedule.BypassesCountDown` | runtime/backup-v2-spool.ts:968-1015 | All bypasses of a waiting source together are as many as the sources that have left the set of those ahead of it. |
| `FairSchedule.OnlyServingMoves` | runtime/backup-v2-spool.ts:1047-1073 | Hints, probes, discovery and new baselines leave every source's place; only being served moves it, behind everyone. |
| `FairSchedule.HintDuringServiceSurvives` | runtime/backup-v2-spool.ts:975-990 | A hint that arrives while its source is being served keeps the source queued and eligible at once, whatever is written back. |
| `FairSchedule.LeavesQueueAcknowledged` | runtime/backup-v2-spool.ts:991-1003 | A source served and found caught up leaves the queue if and only if its latest baseline has been acknowledged and no hint was missed. |
| `FairSchedule.ServedKnown` | runtime/backup-v2-spool.ts:991-1015 | A source served and found to have more, at a generation of it, stays queued among those known to have changed, with what was seen and acknowledged. |
| `FairSchedule.TimeStaysIff` | runtime/backup-v2-spool.ts:1020-1073 | Between two services a source keeps its time to try again, except that a hint or a probe that nothing holds back, or a baseline it has not had, makes it eligible at once. |
| `FairSchedule.RetryTimeIsKept` | runtime/backup-v2-spool.ts:975-1015 | A time written back with no hint missed is the row's, over every run until one of these comes; none written back means at once. |
| `FairSchedule.UnacknowledgedStayQueued` | runtime/backup-v2-spool.ts:815-1046 | Over every run, a source whose latest baseline has not been acknowledged has the priority of the queue. |
| `FairSchedule.ListedIff` | runtime/backup-v2-spool.ts:815-912 | Over every run, whoever has that priority is in a tier that is read, exactly when no step touches a caught-up row between a new baseline and the row's own rebase, or queues one that has none. |
| `FairSchedule.UnacknowledgedAreRead` | runtime/backup-v2-spool.ts:815-951 | In such a run a source with a baseline to be acknowledged is queued where it is read. |
| `FairSchedule.TouchedTooEarly` | runtime/backup-v2-spool.ts:815-912 | Five steps from the empty schedule after which a source is queued for its baseline in a tier nobody reads. |
| `FairSchedule.KnownBy` | runtime/backup-v2-spool.ts:875-1073 | The tier of known changes gains the sources that are hinted or lack the new baseline; a probe neither adds to it nor takes from it; being served moves only the source served. |
| `FairSelection.ReadTier` | runtime/backup-v2-spool.ts:915-941 | Reading a tier in pages of 64 gives its first eligible rows, as many as are asked for. |
| `FairSelection.FairSources` | runtime/backup-v2-spool.ts:914-951 | The two tiers share the places, and what one leaves over goes to the other. |
| `FairSelection.KnownHasPlaceIff` | runtime/backup-v2-spool.ts:942-950 | A source of the first tier is handed out exactly when its position is below the half share or below what the other tier leaves. |
| `FairSelection.UnknownHasPlaceIff` | runtime/backup-v2-spool.ts:942-950 | The same for a source of the second tier. |
| `FairSelection.HandedOutInTurn` | runtime/backup-v2-spool.ts:914-951 | A queued source with a descriptor whose time has come is handed out once fewer sources stand before it than its tier has places. |
| `FairSelection.HandedOutAreDue` | runtime/backup-v2-spool.ts:914-951 | Whoever is handed out is queued in a tier that is read, has a descriptor, and its time has come; and no more are handed out than asked for. |
| `FairSelection.NotBeforeItsTime` | runtime/backup-v2-spool.ts:914-1015 | Over every run without such a reason, a source told when to try again is not handed out before. |
| `FairSelection.WaitingIsBounded` | runtime/backup-v2-spool.ts:914-1015 | After any run in which a source waits, it is handed out once those that stood ahead, less the bypasses so far, are fewer than its tier's places. |
| `FairQueue.Scheduler.MarkServed` | runtime/backup-v2-spool.ts:968-1015 | The patch, pruned field by field, gives the row and the turn of the specification. |
| `FairQueue.Scheduler.HintSources` | runtime/backup-v2-spool.ts:1047-1073 | The loop hints every named source once, however often it is named. |
| `QuotaProof.QuotaHolds` | runtime/local-idb-quota.ts:257-339 | Over every run from an empty origin, each database's charge is at least its committed bytes, and the charges together, so the committed bytes together, never exceed the quota. |
| `QuotaProof.RunsReconcileExactly` | runtime/local-idb-quota.ts:206-242 | In every reachable world, a compare-and-set that succeeds writes exactly what the database then holds. |
| `QuotaProof.StepKeeps` | runtime/local-idb-backend-v2.ts:635-812 | Reserving, hearing, publishing, writing, committing, aborting, dying, losing an operation or a reply, creating, deleting and reconciling keep the invariant of ledger, databases and operations under way. |
| `QuotaProof.ReserveSum` | runtime/local-idb-quota.ts:287-297 | A reservation that is granted leaves the charges within the quota, also when it shrinks. |
| `QuotaProof.FinishSum` | runtime/local-idb-quota.ts:318-339 | Settling a commit either way leaves the charges within the quota. |
| `QuotaGrants.AnsweredIff` | runtime/local-idb-quota.ts:287-308 | In every reachable world, whatever the quota was and is now, a reservation is granted exactly if it does not grow the database or the charges with it are within the quota; a refusal charges nothing. |
| `QuotaGrants.FittingCommitGoesThrough` | runtime/local-idb-quota.ts:257-339 | A transaction that asks for that commits: the database holds what was asked for, is charged exactly that, and every other charge is as before. |
| `QuotaGrants.GreedyCommitIsUndone` | runtime/local-idb-quota.ts:287-297 | One that asks for more ends with every database and every charge as before. |
| `QuotaGrants.AbortGivesBack` | runtime/local-idb-quota.ts:318-339 | A granted transaction that aborts leaves its database charged what it holds. |
| `QuotaGrants.DeathIsReconciled` | runtime/local-idb-quota.ts:206-242 | One that dies leaves a charge that the next reconciliation brings down to what the database holds. |
| `QuotaOvertaking.OrderPerDatabaseSuffices` | runtime/local-idb-quota.ts:257-339 | The charges cover what is committed and stay within the quota over every run, even if operations overtake those of other databases in any way. |
| `QuotaOvertaking.OvertakingUndercharges` | runtime/local-idb-quota.ts:287-308 | A run from an empty origin in which a reservation overtakes an older one of its own database: the database ends charged for one byte and holding ten. |
| `QuotaStore.QuotaLedger.ReserveCommit` | runtime/local-idb-quota.ts:257-317 | A reservation is granted exactly when growth stays within the quota beside what all the other rows charge, and then charges the larger of before and after. |
| `QuotaStore.QuotaLedger.FinishCommit` | runtime/local-idb-quota.ts:318-339 | Only the row that still carries the intent is settled. |
| `QuotaStore.QuotaLedger.ReserveDatabase` | runtime/local-idb-quota.ts:124-162 | A database gets a row while there are fewer than the limit; an existing row stays. |
| `QuotaStore.Reconciler.Reconcile` | runtime/local-idb-quota.ts:209-242 | The retry loop, with anyone stepping in at every await: if it ends in success the charge is what the database holds; and if nobody steps in, it succeeds exactly if the database is there and has no transaction open. |
| `QuotaStore.Reconciler.CompareAndSetRow` | runtime/local-idb-quota.ts:217-235 | It writes the usage read, or gives way when the row was changed in between. |
| `Accounting.ChangesCovered` | runtime/local-idb-accounting.ts:149-164 | After any mix of puts, key and range deletes, clears, index changes, store creations, renames and deletions, the plans noted cover every difference. |
| `Accounting.LaterChangesCovered` | runtime/local-idb-accounting.ts:149-164 | They also cover what was changed after any point of the transaction. |
| `AccountingAudit.MeasureRecord` | runtime/local-idb-accounting.ts:57-105 | The loop over the indexes gives a record's own bytes and one entry for every distinct valid key of every index. |
| `AccountingAudit.CountEntries` | runtime/local-idb-accounting.ts:87-103 | Sorting and skipping equal neighbours counts the distinct valid keys, each once. |
| `AccountingAudit.SortCompact` | runtime/local-idb-accounting.ts:256-268 | Sorting and compacting in place keeps exactly the distinct keys, in order. |
| `AccountingAudit.Auditor.Audit` | runtime/local-idb-accounting.ts:108-339 | From a ledger that was exact before the changes to one that is exact after them, the total moved by the difference of two recounts; it is refused only where an allowance is exceeded. |
| `AccountingAudit.AuditTransaction` | runtime/local-idb-accounting.ts:108-339 | A transaction's changes performed and audited once: the ledger is exact and the total is a full recount. |
| `AccountingAudit.SecondAuditIsRecountIff` | runtime/local-idb-accounting.ts:129-170 | A second audit in the same transaction is a recount exactly when the first one reported the base unchanged. |
| `AccountingAudit.SecondAuditMisses` | runtime/local-idb-accounting.ts:129-170 | One put, audited twice: the second total misses it. |
| `AccountingAudit.Auditor.MeasureStore` | runtime/local-idb-accounting.ts:200-336 | One store brought up to date by its plan, by key and range or afresh, has exact rows and its exact weight. |
| `AccountingAudit.Auditor.ApplyKeys` | runtime/local-idb-accounting.ts:216-272 | Distinct keys one by one: the running weight moves as the rows do. |
| `CookieWrites.CertificateRefinesScan` | runtime/local-cookie-jar-v2.ts:880-932 | With a truthful certificate and nothing expired, folding the lines over the rows they name gives the accepted and rejected lines, journal and figures of folding them over the whole site. |
| `CookieWrites.ScanCertifies` | runtime/local-cookie-jar-v2.ts:891-932 | A write's running count and bytes are those of the rows it leaves. |
| `CookieWrites.CertificateStaysEarly` | runtime/local-cookie-jar-v2.ts:892-930 | The expiry handed on stays no later than any live one, though fewer rows were seen. |
| `CookieJar.CertificateWriteIsScanWrite` | runtime/local-cookie-jar-v2.ts:965-989 | For one clock reading, the certificate path gives the accepted and rejected lines, stored rows, usage row and revision of the full-site scan, and exceeds a quota exactly when the scan does. |
| `CookieJar.CertificatesStayTrueIff` | runtime/local-cookie-jar-v2.ts:836-1005 | Over every run, whatever its lines set: at all times the usage row has the exact count and bytes of the jar, and every certificate of the current revision the exact figures of its site and an expiry no later than any live one, if and only if every write that scans is domestic. |
| `CookieJar.ScanWriteKeepsIff` | runtime/local-cookie-jar-v2.ts:889-955 | A write that scans leaves usage row and certificates exact exactly when the cookies of other sites it sets or removes are none it would have had to know of. |
| `CookieJar.DomesticIffLines` | runtime/local-cookie-jar-v2.ts:902-932 | For a secure response a look at its accepted lines and what is stored decides it. |
| `CookieJar.HomelyIsDomestic` | runtime/local-cookie-jar-v2.ts:965-975 | The guard of the certificate path, all lines of the request's own site, is enough. |
| `CookieJar.UsageDriftsExactly` | runtime/local-cookie-jar-v2.ts:933-955 | Over every run, foreign lines included, the usage row is ahead of the jar by exactly the stored cookies of other sites that its writes have written over. |
| `CookieJar.ForeignCookieDrifts` | runtime/local-cookie-jar-v2.ts:297-311 | A cookie of another site set twice: the certificate is wrong after the first write, and after the second one row is stored and two are counted. |
| `CookieJar.FiguresAdd` | runtime/local-cookie-jar-v2.ts:933-948 | What a write's difference of figures misses: the rows it wrote over in other sites, no more and no less. |
| `CookieStore.LocalCookieJar.Write` | runtime/local-cookie-jar-v2.ts:836-1005 | While usage row and certificates are exact, a write does what a scan of the site would do, whichever path it takes and whatever it sets; they stay exact when the lines are of the request's own site or the write is domestic; a write that fails changes nothing. |
| `CookieStore.LocalCookieJar.WriteCertified` | runtime/local-cookie-jar-v2.ts:965-989 | The write that relies on a certificate: the result of a scan, and exactness kept. |
| `CookieStore.LocalCookieJar.WriteScanned` | runtime/local-cookie-jar-v2.ts:880-955 | The write that scans is the specification's in every state, exact or not. |
| `CookieStore.LocalCookieJar.FindProof` | runtime/local-cookie-jar-v2.ts:965-987 | A certificate is relied on only if it is current, unexpired, and consistent with the rows looked up. |
| `CookieStore.LocalCookieJar.CommitDraft` | runtime/local-cookie-jar-v2.ts:933-1005 | Rows, revision, usage and certificate of a commit; nothing at all of a refused one. |
| `CookieStore.StartScan` | runtime/local-cookie-jar-v2.ts:889-901 | The loop that splits live from expired rows gives the draft of a scan. |
| `CookieStore.ApplyLines` | runtime/local-cookie-jar-v2.ts:902-932 | The loop over the lines is the fold of the specification, whose lines LineAnswered and LineLeaves describe. |
| `CookieRules.LineAnswered` | runtime/local-cookie-jar-v2.ts:905-916 | Every line is taken exactly if it parses, its identity is not that of an HttpOnly cookie hidden from the writer, and it overlays no secure cookie over a plain transport; else it is refused for the reason that applies first. |
| `CookieRules.LineLeaves` | runtime/local-cookie-jar-v2.ts:917-930 | A line taken leaves its cookie under its identity, with the creation time of the one replaced, or nothing if it has expired; no other row changes. |
| `CookieRules.LineTells` | runtime/local-cookie-jar-v2.ts:917-930 | The document is told the cookie as stored, or its deletion. |
| `CookieRules.LastWord` | runtime/local-cookie-jar-v2.ts:905-930 | What the last line taken for an identity says is what is stored in the end. |
| `CookieRules.UnnamedStay` | runtime/local-cookie-jar-v2.ts:905-930 | What no taken line names stays as it was. |
| `CookieRules.CreationIsKept` | runtime/local-cookie-jar-v2.ts:923 | A cookie replaced any number of times keeps the time it was first made. |
| `CookieRules.HttpOnlyStays` | runtime/local-cookie-jar-v2.ts:909 | Through any lines of a document write an HttpOnly cookie stays as it was, and every line naming it is refused for that reason. |
| `CookieRules.OverlayRefused` | runtime/local-cookie-jar-v2.ts:910-915 | Without a secure transport a line that is not secure neither sets nor removes anything where it overlays a secure cookie. |
| `CookieRules.SecureStays` | runtime/local-cookie-jar-v2.ts:910-915 | Through any such lines a secure cookie stays as it was. |
| `CookieRules.DocumentsKeepHttpOnly` | runtime/local-cookie-jar-v2.ts:889-955 | In the stored jar: whatever a document writes, the live HttpOnly cookies of its site are after it what they were before. |
| `CookieRules.PlainWritesKeepSecure` | runtime/local-cookie-jar-v2.ts:889-955 | In the stored jar: whatever is written over a plain transport, the live secure cookies of the site are what they were. |
| `CookieRules.WriteStores` | runtime/local-cookie-jar-v2.ts:933-955 | A committed write stores what its lines leave of its site, and leaves alone what no line sets elsewhere. |
| `CookieRules.OverQuotaIff` | runtime/local-cookie-jar-v2.ts:933-943 | A domestic write of exact figures is refused for quota exactly if the jar or the site in it would hold too many cookies, or the jar too many bytes. |
| `CookieViews.ListingUnique` | runtime/local-cookie-jar-v2.ts:793-798 | Longer paths first, then older cookies, then identity: this orders every set of cookies in exactly one way. |
| `CookieViews.ListingDescends` | runtime/local-cookie-jar-v2.ts:793-798 | Down the listing path lengths never increase, at equal lengths creation times never decrease, and at equal times identities ascend. |
| `CookieViews.DescendingIsListing` | runtime/local-cookie-jar-v2.ts:793-798 | And any order of the cookies whose neighbours do so is the listing. |
| `CookieViews.SortEntries` | runtime/cookie-local-view.ts:61-62 | The sort gives that listing: path lengths never increase, and at equal lengths creation times never decrease. |
| `CookieViews.LiveUntil` | runtime/local-cookie-jar-v2.ts:808-816 | Before the earliest expiry nothing disappears and nothing comes back. |
| `CookieCaches.CookieCaches.CachedViewIsExact` | runtime/local-cookie-jar-v2.ts:720-729 | In every state the cache's operations lead to, a cached view not past its expiry is the filtered and sorted partition as stored now, unless a commit to its site has not been heard of yet. |
| `CookieCaches.CookieCaches.AnswerAfterNews` | runtime/local-cookie-jar-v2.ts:670-681 | An answer to a read begun before news of its site is never cached, whatever calls come in between: other news, further reads, tokens evicted and issued anew. |
| `CookieCaches.CookieCaches.LateAnswer` | runtime/local-cookie-jar-v2.ts:776-781 | The same for any read that has been overtaken, however it was. |
| `CookieCaches.CookieCaches.Notify` | runtime/local-cookie-jar-v2.ts:670-681 | A notified commit to a site, or to any, leaves nothing cached from before it; what is cached for other sites stays. |
| `CookieCaches.CookieCaches.ServeView` | runtime/local-cookie-jar-v2.ts:720-730 | A view is served from the cache exactly if there is one not past its expiry, and becomes the most recent; it is the view a scan would build now, for every site whose commits have been heard of. |
| `CookieCaches.CookieCaches.StartRead` | runtime/local-cookie-jar-v2.ts:731-776 | A site with a token has its cached partition used at once, if there is one, and else joins the request under way; a partition used is current, a request carries the current epoch and token. |
| `CookieCaches.CookieCaches.Resume` | runtime/local-cookie-jar-v2.ts:776-781 | An answer is cached exactly when its epoch and token are still current, and then it is the stored partition. |
| `CookieCaches.CookieCaches.BuildView` | runtime/local-cookie-jar-v2.ts:783-831 | The view built is the filtered, sorted and joined partition with its earliest expiry; it is cached exactly if its partition is and it is not too large, and both byte counters stay the sums of what is cached and within their bounds. |
| `CookieCaches.CookieCaches.SiteToken` | runtime/local-cookie-jar-v2.ts:459-475 | A token in use is renewed; a new one is fresh, and only when there are 128 does the least recent site lose its token, partition and pending read. |
| `CookieCaches.CookieCaches.RememberPartition` | runtime/local-cookie-jar-v2.ts:476-488 | The partition is cached as the most recent, and no more of the least recent ones go than count and byte bounds demand; one that could never fit is not cached. |
| `CookieCaches.CookieCaches.RememberView` | runtime/local-cookie-jar-v2.ts:818-830 | The same for views. |
| `CookieCaches.CookieCaches.ServedAgain` | runtime/local-cookie-jar-v2.ts:720-831 | A view built over a cached partition is served again, unchanged, until its expiry. |
| `CookieLocalView.DeltaFollows` | runtime/local-cookie-jar-v2.ts:1081-1103 | Patching what is live with the delta sent for a write gives what is live after the write, then and later. |
| `CookieLocalView.PrivateCookieLocalView.Update` | runtime/cookie-local-view.ts:82-105 | A delta is refused exactly when it would leave more than 180 live entries; otherwise the live rows are the patched ones. |
| `CookieLocalView.PrivateCookieLocalView.Rebuild` | runtime/cookie-local-view.ts:50-67 | Expired rows go, and the string, count and next expiry are those of the rows that stay. |
| `CookieLocalView.PrivateCookieLocalView.Replace` | runtime/cookie-local-view.ts:69-81 | A snapshot is refused for a repeated identity or too many entries, and otherwise replaces everything. |
| `CookieLocalView.PrivateCookieLocalView.FollowAll` | runtime/local-cookie-jar-v2.ts:1063-1104 | Starting from a snapshot, the document's own writes, each heard in order, leave what is live in the view equal to what is live in the jar; it stops exactly at a delta that would leave more than 180 entries. |
| `CookieLocalView.PrivateCookieLocalView.ShowsJar` | runtime/cookie-local-view.ts:47-108 | Until the view's expiry its string is the jar's: filtered, sorted and joined. |
| `CssMachine.StyleScanner.ScanSheet` | runtime/native-css-dependencies.ts:23-222 | The index loop with its prelude, blocks, functions and property state finds what the token-by-token specification finds, refusals included; where that finds what is stated by CssDestinations and CssSheets. |
| `CssMachine.StyleScanner.ReadString` | runtime/native-css-dependencies.ts:64-84 | The string reader in place is the specification's. |
| `CssMachine.StyleScanner.ReadEscape` | runtime/native-css-dependencies.ts:38-57 | The same for escapes: up to six hex digits, one blank, surrogates and out-of-range points replaced. |
| `CssMachine.StyleScanner.ReadTarget` | runtime/native-css-dependencies.ts:146-174 | The same for the target of url(, quoted or not. |
| `CssDestinations.UrlInAtBlock` | runtime/native-css-dependencies.ts:94-106 | After any sheet, in a block opened by an at-rule: in a font-face the url() of src is found as a font and no other at all; in every other block the url() of any declaration is found as an image, each at its place with its target. |
| `CssDestinations.UrlInRule` | runtime/native-css-dependencies.ts:94-106 | In a plain rule after any others the url() of any declaration is found as an image. |
| `CssDestinations.NothingOutside` | runtime/native-css-dependencies.ts:94-106 | Outside blocks, after any rules, neither a url() nor a string is found as anything. |
| `CssDestinations.TargetOfAt` | runtime/native-css-dependencies.ts:94-145 | The string or url() that follows @import, after any sheet, is found as a style; after any other at-keyword nothing is. |
| `CssDestinations.OneTarget` | runtime/native-css-dependencies.ts:101-115 | Whatever else stands in the same import is not found. |
| `CssDestinations.ImportSuffix` | runtime/native-css-dependencies.ts:202-220 | An import carries the text between its target and its semicolon, trimmed. |
| `CssDestinations.StringInCall` | runtime/native-css-dependencies.ts:121-132 | In a block a string is found as the argument of image-set or -webkit-image-set, as a url() there would be, and in no other function. |
| `CssSheets.SheetReadsIff` | runtime/native-css-dependencies.ts:116-222 | A sheet of any names, calls, at-keywords, strings, targets, comments and other units that do not run together, within the limits, is read if and only if its parentheses are closed. |
| `CssSheets.BrokenSheetIsRefused` | runtime/native-css-dependencies.ts:64-93 | A sheet that breaks off within a comment or a string is refused, whatever stands before. |
| `CssReaders.CommentIff` | runtime/native-css-dependencies.ts:85-93 | A comment ends at the first closing delimiter, and is refused if there is none. |
| `CssReaders.StrReads` | runtime/native-css-dependencies.ts:64-84 | A string is read up to its own quote, its text unchanged. |
| `CssReaders.BodyBroken` | runtime/native-css-dependencies.ts:64-84 | It is refused if its line or the sheet ends before. |
| `CssReaders.ContinuationReads` | runtime/native-css-dependencies.ts:74-79 | A line that goes on behind a backslash leaves nothing in the string, however its end is written. |
| `CssReaders.BareUrlIs` | runtime/native-css-dependencies.ts:155-172 | A target without quotes is read without the blanks around it. |
| `CssReaders.QuotedUrlIs` | runtime/native-css-dependencies.ts:149-154 | A quoted target is read without its quotes and the blanks around them. |
| `CssReaders.EscapeReads` | runtime/native-css-dependencies.ts:38-53 | Every code point written as six hexadecimal digits is read back as its UTF-16 text; zero, surrogates and what is no code point as the replacement character; one blank behind belongs to the escape. |
| `CssReaders.EscapeOther` | runtime/native-css-dependencies.ts:54-57 | Any other escaped unit stands for itself; a backslash at the end of a line or of the sheet is refused. |
| `CssScanner.TokenizeCovers` | runtime/native-css-dependencies.ts:116-217 | The pieces the scanner steps over are the whole sheet, in order. |
| `CssRewriting.QuoteRoundTrip` | runtime/native-css-dependencies.ts:225-237 | The string reader reads a quoted URL back, whatever follows it, if and only if the URL has no NUL. |
| `CssRewriting.TokenLocal` | runtime/native-css-dependencies.ts:116-217 | A token is read the same before any text that starts alike, so that an edit elsewhere cannot change it. |
| `CssRewriting.WrappedReads` | runtime/frontend-rewriter.ts:117-126 | What is written in place of a dependency is read as the same kind of dependency with the new URL. |
| `CssRewriting.RewrittenTokens` | runtime/frontend-rewriter.ts:128-133 | A sheet whose dependencies are replaced in any way scans into the same pieces with the replacements. |
| `CssRewriter.RewriteKeepsDependencies` | runtime/frontend-rewriter.ts:51-135 | Scanning the rewritten sheet finds as many dependencies, in the same order, of the same kinds, with their import suffixes, each with its replacement for URL if and only if that has no NUL, and all text around them unchanged; it fails exactly where the sheet has outgrown the scanner. |
| `CssGrowth.OutgrowsIff` | runtime/native-css-dependencies.ts:24-27 | A sheet that can be rewritten outgrows the scanner with some replacements exactly when it has a dependency that is replaced at all. |
| `CssGrowth.SmallSheetOutgrows` | runtime/native-css-dependencies.ts:24-27 | A sheet of eight units with one dependency that does. |
| `CssRewriter.GapsKept` | runtime/frontend-rewriter.ts:128-133 | Nothing but the references' own text changes. |
| `CssRewriter.UrlsRewritten` | runtime/frontend-rewriter.ts:117-126 | Each dependency found again has its kind and its replacement. |
| `CssRewriter.QualifiersKept` | runtime/native-css-dependencies.ts:202-220 | An import's layer suffix is read again as it was. |
| `CssLayers.RewrittenIff` | runtime/frontend-rewriter.ts:60-82 | A sheet is rewritten if and only if it scans and each dependency is empty, a fragment, or answered by the loader, with an import's suffix missing, a layer, or a named layer. |
| `CssLayers.LayeredIff` | runtime/frontend-rewriter.ts:66-72 | The suffixes accepted are exactly layer, in any case, and layer with names joined by dots in its parentheses, blanks around them allowed. |
| `CssSplicing.ApplyEdits` | runtime/frontend-rewriter.ts:128-133 | Splicing the edits from the last to the first replaces each range and nothing else. |
| `CssSplicing.RewriteStyle` | runtime/frontend-rewriter.ts:51-135 | The style branch, loop by loop, gives the rewritten sheet of the specification, or refuses as it does. |
| `CssSplicing.SplicedIsRewritten` | runtime/frontend-rewriter.ts:128-133 | The spliced text is the sequence of edited pieces. |
| `GraphIsomorphism.RoundTrip` | runtime/hub-contracts.ts:102-403 | A graph that has been encoded decodes if and only if each of its objects is acceptable (array length, number of properties, view kind, MIME length); what is built then is isomorphic to the original by a one-to-one naming, with no object too many, cycles and sharing included. |
| `GraphIsomorphism.EncodesTheReached` | runtime/hub-contracts.ts:117-197 | The objects encoded are exactly those reached from the value. |
| `GraphIsomorphism.LongArrayIsRefused` | runtime/hub-contracts.ts:343-358 | An empty array of length 40001 is encoded and then refused. |
| `GraphSuccess.PortableIsEncoded` | runtime/hub-contracts.ts:102-210 | Every value is encoded whose objects, as many as are reached, are in the heap and no platform objects, hold no accessor and no value of another kind, with BigInts of at most 1235 digits, whose ways are at most 64 steps long, and whose slots and bytes, counted over the heap, are within the limits. |
| `GraphSuccess.EncodedIsPortable` | runtime/hub-contracts.ts:117-197 | Whatever is encoded meets the conditions on its objects and values: each of them failing makes encoding refuse. |
| `GraphSuccess.EncodedIff` | runtime/hub-contracts.ts:102-210 | For graphs within depth and count, encoding succeeds if and only if everything reached is portable and weighs at most 64 MiB. |
| `GraphSuccess.EncodedBytes` | runtime/hub-contracts.ts:108-197 | The bytes counted by an encoding are what the objects reached weigh. |
| `GraphSuccess.PortableRoundTrip` | runtime/hub-contracts.ts:102-403 | For every value within the limits encoding succeeds, and decoding it, unless an object is of a size or kind that decoding refuses, gives an isomorphic graph. |
| `GraphIsomorphism.SharingIsKept` | runtime/hub-contracts.ts:243-403 | Any two places of a graph hold the same value or object exactly when their copies in the decoded graph do, so that no two keys of a map or members of a set run together. |
| `GraphIsomorphism.DecodedIsPermitted` | runtime/hub-contracts.ts:243-403 | Whatever graph decodes, made by the encoder or not, every one of its objects is of a kind and size decoding permits, also those nothing refers to. |
| `GraphLimits.EncodedWithinLimits` | runtime/hub-contracts.ts:108-197 | The bytes counted along the way are what the nodes weigh, each counted once, and an encoding stays within 64 MiB and 40000 nodes. |
| `GraphLimits.DecodedWithinLimits` | runtime/hub-contracts.ts:211-403 | Whatever graph decodes, made by the encoder or not, weighs at most 64 MiB and has at most 40000 nodes, unreferenced ones included. |
| `GraphProof.EncodeDescribes` | runtime/hub-contracts.ts:117-197 | Every node of an encoding describes its object: shape, keys and, slot by slot, the node of what the slot holds; there are no holes and at most 40000 nodes. |
| `GraphRoundTrip.VisitLocks` | runtime/hub-contracts.ts:243-403 | Reading a node repeats the visit that made it, step for step, within the same depth and byte limits, whatever part of the graph is there already, cycles back into unfinished objects included. |
| `GraphMachine.PortableEncoder.VisitValue` | runtime/hub-contracts.ts:117-197 | The visit in place, holes filled after what they hold, is the specification's. |
| `GraphMachine.PortableDecoder.ReadNode` | runtime/hub-contracts.ts:243-399 | The read in place, containers entered before what they hold, is the specification's. |
| `GraphMachine.EncodePortable` | runtime/hub-contracts.ts:102-210 | Encoding from nothing is the specification's, which succeeds as PortableIsEncoded states. |
| `GraphMachine.DecodePortable` | runtime/hub-contracts.ts:211-403 | Decoding, the root first and then every node, is the specification's. |
| `LocalStorage.RangeIsNamespace` | runtime/local-storage-v2.ts:17-22 | The key range of a namespace holds exactly the keys of its own values, whatever origins, sessions and keys there are. |
| `LocalStorageProof.CommitMeans` | runtime/local-storage-v2.ts:67-209 | A mutation is refused exactly when it is new and leaves more than both the quota and what was there; otherwise the namespace holds what the mutation means, its revision goes up by one exactly when that is a change, the delta tells the old and new value, and all other namespaces, other receipts and the ledger's exactness stay. |
| `LocalStorageProof.NextMetaIsExact` | runtime/local-storage-v2.ts:121-153 | Bytes and count computed from the previous row and the previous value alone are those of the new contents. |
| `LocalStorageRuns.RunKeepsLedgers` | runtime/local-storage-v2.ts:67-209 | Over every run, bytes and count of every namespace equal its contents. |
| `LocalStorageRuns.RevisionCountsChanges` | runtime/local-storage-v2.ts:153-165 | A revision goes up by the number of times the contents changed: none missed, nothing else counted. |
| `LocalStorageRuns.RunsStayWithinQuota` | runtime/local-storage-v2.ts:147-152 | No run takes a namespace beyond the larger of its quota and what it held to begin with. |
| `LocalStorageRuns.ReplayIsHarmless` | runtime/local-storage-v2.ts:98-110 | A mutation repeated while its document is less than eight sequences ahead changes nothing, whatever happened in between, and reports the revision it had. |
| `LocalStorageRuns.ReceiptKeptIff` | runtime/local-storage-v2.ts:184-191 | A committed new mutation drops its document's receipts that are eight or more behind it (from sequence 9 on), and no others. |
| `LocalStorageRuns.LateReplayCounts` | runtime/local-storage-v2.ts:184-191 | Once its receipt is dropped, a repeated mutation that commits is applied again. |
| `LocalStorageRuns.ChangesAreMarked` | runtime/local-storage-v2.ts:165-183 | Whatever a run changes in a website's local storage is named by a marker appended in that run. |
| `LocalStorageRuns.MarkersTell` | runtime/local-storage-v2.ts:165-183 | Whether a key is stored after a run is told by the last marker of the run that names it, upserted, deleted or cleared; without one it is as it was. |
| `LocalStorageRuns.LocalStorageStore.Mutate` | runtime/local-storage-v2.ts:67-209 | The transaction, counter by counter and store by store, does what the specification does; an abort leaves everything as it was. |

## Left out

- IndexedDB itself, timers, AbortSignal, BroadcastChannel, Web Locks and message ports: transactions are atomic steps, locks are a state of the model, a deadline is a free choice to stop.
- SHA-256, UTF-8, number texts, native key comparison and localeCompare: abstract functions and total orders; a size of a value that the code measures is a parameter.
- Capture: schema records, key-generator probing at the seal (its outcome is a free choice), codec work budgets and the shape checks of pages; they decide when a visit stops, not what it captures.
- DirtyStore.LocalDirtyStore.AppendLocalDirty: generation exhaustion is handled when the transaction begins; the 64-bit counters are unbounded here.
- CaptureProof.SealedVersionsAreSnapshots: the parent given to a capture is the present head and of the present incarnation, as web/src/backup-v2-service.ts:448-458 makes it (see CaptureParents.ForeignParentIsWrong).
- CaptureProof.StepKeeps: eviction, preparing, publishing, abandoning and finishing happen between the visits of the actor, because one service runs them in turn; website, maintenance, acknowledgement, replacement and death happen at every await.
- QuotaProof.QuotaHolds: version-1 rows, "replace" intents and replaced physical names are not modelled, and operations on the ledger take effect in the order they were issued, as transactions on one store do (see QuotaOvertaking).
- QuotaStore.Reconciler.Reconcile: runs under the lifecycle lock, as its callers do.
- AccountingAudit.Auditor.Audit: a measurement that throws, and the callbacks that append markers, are not modelled; a key range is the set of keys it contains.
- Cookie lines, public suffixes, which cookies a request may see, which a new one may not overlay, and the site of a name are given: a line tells which site its cookie belongs to, the request's or another.
- CookieStore.LocalCookieJar.Write: the receipts of document writes and broadcasts are left out, and which certificate makes room for another is a free choice.
- CookieCaches.CookieCaches.ServeView: assumes a clock that does not go back; a site's commits that other documents have made and this one has not heard of are outside its promise, as they are outside the code's.
- CookieLocalView.PrivateCookieLocalView.FollowAll: one clock for jar and document, and only the document's own writes; other writers cause a new snapshot.
- CssRewriter.RewriteKeepsDependencies: URL parsing and the policy checks on a dependency are the loader's refusal; the suffix of an import that is left alone is not compared.
- CssDestinations.UrlInAtBlock: what stands before a url() in its own declaration, and between an at-keyword and its block, is text without braces and at signs that scans by itself; what stands before and after the rule is any.
- CssSheets.SheetReadsIff: sheets with escapes in names and strings are not among those described; CssReaders.EscapeReads tells how escapes are read.
- PageReading.PageReads: identifiers and digests contain no quotation mark or backslash, as hexadecimal text and UUIDs do not.
- CssSplicing.ApplyEdits: the edits come in the order of the references, which is what the code's sort makes of them.
- GraphSuccess.EncodedIff: for graphs deeper or larger than the limits the code decides by the order in which it happens to visit; only that portable graphs within them are encoded, and others that are encoded are portable, is stated.
- GraphIsomorphism.RoundTrip: the size limit on the graph's JSON, symbol and non-enumerable properties, a regular expression's lastIndex and prototypes other than null are left out; decoding a hand-made graph that names one property twice keeps both here, the last one there.
- SpoolModel: the branch of a discard for versions older than the byte ledgers, the marks on rejected sources, heads and receipts.
- SpoolProof.StepStaysExact: jobBytes is the sum of what the jobs measured when they were last committed; marking a job invalidated makes the stored job a little longer without a new measurement.
- SpoolPacking.ReachableSpoolsAreExact: for runs in which a finished job stays finished (see PartialBoundIff) and no two of the texts packed collide; the older entry points that store single records and parts are left out.
- FairSchedule.UnacknowledgedStayQueued: takes whoever serves a source never to lower what it acknowledged, and to know the priorities 0 and 1 only; whether the source is read is ListedIff.
- FairSelection.ReadTier: the pages of one tier are read from one state of the schedule; the code reads each page in a transaction of its own.
- Local storage: reading a snapshot, the size estimates in markers, and the clock in receipts.
- Legacy migrations, validators of messages, identities and metadata, the backup service and server, network gateways and user interface: not part of this model.
