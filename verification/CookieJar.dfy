/** The whole jar over every run of writes: its usage row, its revision, and the certificates its documents keep. */
module CookieJar {
  import opened Collections
  import opened CookieWrites

  const MOST_IDENTITIES := 8

  datatype Limits = Limits(maxCookies: nat, maxBytes: nat, maxCookiesPerSite: nat)

  /** What stays the same: the size of a cookie, and the site of the domain an identity names. */
  datatype World = World(sizeOf: Cookie -> nat, home: Id -> Site)

  /** `proofs` are the certificates any document holds or is about to hold. */
  datatype Jar = Jar(rows: Rows, revision: nat, count: int, bytes: int, proofs: set<SiteUsage>)

  datatype Outcome = Outcome(accepted: nat, rejected: seq<Reason>, changes: seq<Change>, revision: nat)

  datatype Result = OverQuota | Done(jar: Jar, outcome: Outcome)

  function SiteRows(rows: Rows, site: Site): Rows { map id | id in rows && rows[id].site == site :: rows[id] }

  function OtherRows(rows: Rows, site: Site): Rows { map id | id in rows && rows[id].site != site :: rows[id] }

  /** Parsing derives the site of a cookie from the domain in its identity. */
  predicate WellParsed(world: World, lines: seq<Parsed>) {
    forall i :: 0 <= i < |lines| && lines[i].Accepted? ==> lines[i].cookie.site == world.home(lines[i].cookie.id)
  }

  /** Every cookie the lines set belongs to the request's site. */
  predicate Homely(lines: seq<Parsed>, site: Site) {
    forall i :: 0 <= i < |lines| && lines[i].Accepted? ==> lines[i].cookie.site == site
  }

  /** checkedSiteUsage. */
  predicate Checked(proof: SiteUsage, site: Site, jar: Jar, now: Time) {
    proof.site == site && proof.revision == jar.revision && jar.count >= proof.count && jar.bytes >= proof.bytes
    && (proof.nextExpiry.Some? ==> proof.nextExpiry.value > now)
  }

  /** A draft committed: journal, revision, usage and the certificate it leaves. */
  function Commit(jar: Jar, q: Request, d: Draft, beforeCount: int, beforeBytes: int, limits: Limits): Result {
    var count, bytes := jar.count + d.count - beforeCount, jar.bytes + d.size - beforeBytes;
    if count > limits.maxCookies || bytes > limits.maxBytes || d.count > limits.maxCookiesPerSite then OverQuota
    else
      var changed := d.journal != [];
      var revision := jar.revision + if changed then 1 else 0;
      var proofs := if d.count > 0 && d.size >= 0
                    then jar.proofs + {SiteUsage(q.site, revision, d.count, d.size, d.nextExpiry)} else jar.proofs;
      Done(Jar(Written(jar.rows, d.journal), revision, if changed then count else jar.count,
               if changed then bytes else jar.bytes, proofs),
           Outcome(d.accepted, d.rejected, d.changes, revision))
  }

  ghost function ScanWrite(jar: Jar, q: Request, lines: seq<Parsed>, now: Time, scan: Draft, limits: Limits): Result {
    var rows := SiteRows(jar.rows, q.site);
    Commit(jar, q, Lines(scan, lines, q, now), |rows|, SizeOfAll(rows, q), limits)
  }

  /** The write that looks up only the named rows. */
  function CertificateWrite(jar: Jar, q: Request, lines: seq<Parsed>, now: Time, proof: SiteUsage, limits: Limits)
    : Result
  {
    var named := Named(SiteRows(jar.rows, q.site), Ids(lines));
    Commit(jar, q, Lines(CertificateStart(named, proof), lines, q, now), proof.count, proof.bytes, limits)
  }

  /** Rows are stored under their identities, with the sites those name. */
  predicate Rooted(world: World, rows: Rows) {
    forall id :: id in rows ==> rows[id].id == id && rows[id].site == world.home(id)
  }

  ghost predicate UsageExact(world: World, jar: Jar) {
    jar.count == |jar.rows| && jar.bytes == Total(jar.rows, world.sizeOf)
  }

  ghost predicate ProofsTrue(world: World, jar: Jar) {
    forall p :: p in jar.proofs ==> p.revision <= jar.revision && (p.revision == jar.revision ==>
      Truthful(world, jar.rows, p))
  }

  ghost predicate Inv(world: World, jar: Jar) {
    Rooted(world, jar.rows) && UsageExact(world, jar) && ProofsTrue(world, jar)
  }

  /** A certificate that is exact for its site. */
  ghost predicate Truthful(world: World, rows: Rows, p: SiteUsage) {
    var site := SiteRows(rows, p.site);
    p.count == |site| && p.bytes == Total(site, world.sizeOf) && NotAfter(p.nextExpiry, site)
  }

  // ---------------------------------------------------------------- splitting the jar

  lemma Union(a: Rows, b: Rows, f: Cookie -> nat)
    requires a.Keys !! b.Keys
    ensures |a + b| == |a| + |b| && Total(a + b, f) == Total(a, f) + Total(b, f)
  {
    UnionCount(a, b);
    UnionParts(a, b);
    TotalSplit(a + b, f, a.Keys);
  }

  lemma UnionParts(a: Rows, b: Rows)
    requires a.Keys !! b.Keys
    ensures (a + b) - a.Keys == b && (a + b) - ((a + b).Keys - a.Keys) == a
  {
  }

  lemma UnionCount(a: Rows, b: Rows)
    requires a.Keys !! b.Keys
    ensures |a + b| == |a| + |b|
  {
    assert (a + b).Keys == a.Keys + b.Keys;
    assert |a.Keys + b.Keys| == |a.Keys| + |b.Keys|;
  }

  // ---------------------------------------------------------------- cookies of other sites

  /** What a journal sets goes to the site its identity names. */
  predicate RootedJournal(world: World, journal: seq<Change>) {
    forall i :: 0 <= i < |journal| && journal[i].Set? ==> journal[i].cookie.site == world.home(journal[i].cookie.id)
  }

  function Journalled(journal: seq<Change>): set<Id> { set i | 0 <= i < |journal| :: journal[i].cookie.id }

  /** The cookies of a draft that belong to its site, and those that do not. A line may set a cookie for a domain that
      belongs to another site: the registrable part of a host's parent need not be that of the host. */
  function Natives(world: World, all: Rows, site: Site): Rows { map id | id in all && world.home(id) == site :: all[id] }
  function Strangers(world: World, all: Rows, site: Site): Rows { map id | id in all && world.home(id) != site :: all[id] }

  /** The stored cookies of other sites that a journal writes over. */
  function Lost(rows: Rows, journal: seq<Change>, site: Site): Rows {
    map id | id in rows && rows[id].site != site && id in Journalled(journal) :: rows[id]
  }

  lemma JournalledMore(journal: seq<Change>)
    requires journal != []
    ensures Journalled(journal) == Journalled(journal[..|journal| - 1]) + {journal[|journal| - 1].cookie.id}
  {
    var init := journal[..|journal| - 1];
    forall id | id in Journalled(journal)
      ensures id in Journalled(init) + {journal[|journal| - 1].cookie.id}
    {
      var i :| 0 <= i < |journal| && journal[i].cookie.id == id;
      if i < |init| { assert init[i].cookie.id == id; }
    }
    forall id | id in Journalled(init) ensures id in Journalled(journal) {
      var i :| 0 <= i < |init| && init[i].cookie.id == id;
      assert journal[i].cookie.id == id;
    }
    assert journal[|journal| - 1].cookie.id in Journalled(journal);
  }

  /** What a journal names ends the same whatever it is written over, and the rest stays. */
  lemma {:induction false} WrittenOver(rows: Rows, base: Rows, journal: seq<Change>, id: Id)
    ensures var (a, b) := (Written(rows, journal), Written(base, journal));
      if id in Journalled(journal) then (id in a <==> id in b) && (id in a ==> a[id] == b[id])
      else (id in a <==> id in rows) && (id in a ==> a[id] == rows[id])
    decreases |journal|
  {
    if journal != [] {
      JournalledMore(journal);
      WrittenOver(rows, base, journal[..|journal| - 1], id);
    }
  }

  lemma {:induction false} WrittenRooted(world: World, rows: Rows, journal: seq<Change>)
    requires Rooted(world, rows) && RootedJournal(world, journal)
    ensures Rooted(world, Written(rows, journal))
    decreases |journal|
  {
    if journal != [] {
      assert RootedJournal(world, journal[..|journal| - 1]);
      WrittenRooted(world, rows, journal[..|journal| - 1]);
    }
  }

  /** A site's journal written into the jar: the site's rows are the draft's own, and the other rows are those not
      written over and the draft's strangers. */
  lemma WrittenSplits(world: World, rows: Rows, journal: seq<Change>, site: Site)
    requires Rooted(world, rows) && RootedJournal(world, journal)
    ensures var (all, next) := (Written(SiteRows(rows, site), journal), Written(rows, journal));
      Rooted(world, next) && SiteRows(next, site) == Natives(world, all, site)
      && OtherRows(next, site) == (OtherRows(rows, site) - Lost(rows, journal, site).Keys) + Strangers(world, all, site)
  {
    var own := SiteRows(rows, site);
    assert Rooted(world, own);
    WrittenRooted(world, rows, journal);
    WrittenRooted(world, own, journal);
    WrittenIsAlike(rows, journal, site);
    hide Written, Journalled, RootedJournal, WrittenAlike;
    OwnRows(world, rows, journal, site, Written(own, journal), Written(rows, journal));
    RestRows(world, rows, journal, site, Written(own, journal), Written(rows, journal));
    hide *;
  }

  /** Two sets of rows with the same journal written over them. */
  ghost predicate WrittenAlike(rows: Rows, journal: seq<Change>, site: Site, all: Rows, next: Rows) {
    forall id ::
      if id in Journalled(journal) then (id in next <==> id in all) && (id in next ==> next[id] == all[id])
      else (id in next <==> id in rows) && (id in next ==> next[id] == rows[id])
           && (id in all <==> id in SiteRows(rows, site)) && (id in all ==> all[id] == rows[id])
  }

  lemma WrittenIsAlike(rows: Rows, journal: seq<Change>, site: Site)
    ensures WrittenAlike(rows, journal, site, Written(SiteRows(rows, site), journal), Written(rows, journal))
  {
    var own := SiteRows(rows, site);
    var all, next := Written(own, journal), Written(rows, journal);
    forall id
      ensures if id in Journalled(journal) then (id in next <==> id in all) && (id in next ==> next[id] == all[id])
              else (id in next <==> id in rows) && (id in next ==> next[id] == rows[id])
                   && (id in all <==> id in own) && (id in all ==> all[id] == rows[id])
    {
      WrittenOver(rows, own, journal, id);
      WrittenOver(own, rows, journal, id);
    }
  }

  lemma OwnRows(world: World, rows: Rows, journal: seq<Change>, site: Site, all: Rows, next: Rows)
    requires Rooted(world, rows) && Rooted(world, next) && Rooted(world, all) && WrittenAlike(rows, journal, site, all, next)
    ensures SiteRows(next, site) == Natives(world, all, site)
  {
    hide Journalled;
  }

  lemma RestRows(world: World, rows: Rows, journal: seq<Change>, site: Site, all: Rows, next: Rows)
    requires Rooted(world, rows) && Rooted(world, next) && Rooted(world, all) && WrittenAlike(rows, journal, site, all, next)
    ensures OtherRows(next, site) == (OtherRows(rows, site) - Lost(rows, journal, site).Keys) + Strangers(world, all, site)
  {
    hide Journalled;
    var others := (OtherRows(rows, site) - Lost(rows, journal, site).Keys) + Strangers(world, all, site);
    forall id
      ensures id in OtherRows(next, site) <==> id in others
      ensures id in others ==> OtherRows(next, site)[id] == others[id]
    {
    }
  }

  lemma DraftSplits(world: World, all: Rows, site: Site)
    ensures Natives(world, all, site) + Strangers(world, all, site) == all
    ensures Natives(world, all, site).Keys !! Strangers(world, all, site).Keys
  {
  }

  lemma MinusParts(a: Rows, b: Rows)
    requires forall id :: id in b ==> id in a && a[id] == b[id]
    ensures (a - b.Keys) + b == a && (a - b.Keys).Keys !! b.Keys
  {
  }

  lemma Minus(a: Rows, b: Rows, f: Cookie -> nat)
    requires forall id :: id in b ==> id in a && a[id] == b[id]
    ensures |a - b.Keys| == |a| - |b| && Total(a - b.Keys, f) == Total(a, f) - Total(b, f)
  {
    hide *;
    MinusParts(a, b);
    Union(a - b.Keys, b, f);
  }

  /** The jar's figures after a write: they gain what the draft gained, and the rows it wrote over in other sites are
      lost to them. */
  lemma FiguresAdd(world: World, rows: Rows, journal: seq<Change>, site: Site)
    requires Rooted(world, rows) && RootedJournal(world, journal)
    ensures var (all, next, lost) := (Written(SiteRows(rows, site), journal), Written(rows, journal), Lost(rows, journal, site));
      |next| + |lost| == |rows| + |all| - |SiteRows(rows, site)|
      && Total(next, world.sizeOf) + Total(lost, world.sizeOf)
        == Total(rows, world.sizeOf) + Total(all, world.sizeOf) - Total(SiteRows(rows, site), world.sizeOf)
      && |all| == |SiteRows(next, site)| + |Strangers(world, all, site)|
      && Total(all, world.sizeOf)
        == Total(SiteRows(next, site), world.sizeOf) + Total(Strangers(world, all, site), world.sizeOf)
  {
    var all, next, lost := Written(SiteRows(rows, site), journal), Written(rows, journal), Lost(rows, journal, site);
    WrittenSplits(world, rows, journal, site);
    SplitRows(rows, site);
    SplitRows(next, site);
    DraftSplits(world, all, site);
    var strangers, kept := Strangers(world, all, site), OtherRows(rows, site) - lost.Keys;
    assert kept.Keys !! strangers.Keys by { KeptApart(world, rows, journal, site); }
    assert forall id :: id in lost ==> id in OtherRows(rows, site) && OtherRows(rows, site)[id] == lost[id];
    hide *;
    Minus(OtherRows(rows, site), lost, world.sizeOf);
    Union(kept, strangers, world.sizeOf);
    Union(SiteRows(rows, site), OtherRows(rows, site), world.sizeOf);
    Union(SiteRows(next, site), OtherRows(next, site), world.sizeOf);
    Union(Natives(world, all, site), strangers, world.sizeOf);
  }

  /** A stranger in a draft is named by its journal. */
  lemma KeptApart(world: World, rows: Rows, journal: seq<Change>, site: Site)
    requires Rooted(world, rows)
    ensures (OtherRows(rows, site) - Lost(rows, journal, site).Keys).Keys
      !! Strangers(world, Written(SiteRows(rows, site), journal), site).Keys
  {
    forall id | id in Strangers(world, Written(SiteRows(rows, site), journal), site)
      ensures id in Journalled(journal)
    {
      WrittenOver(SiteRows(rows, site), rows, journal, id);
    }
  }

  lemma SplitRows(rows: Rows, site: Site)
    ensures SiteRows(rows, site) + OtherRows(rows, site) == rows
    ensures SiteRows(rows, site).Keys !! OtherRows(rows, site).Keys
  {
  }

  /** A draft's journal is rooted when its lines are well parsed. */
  lemma {:induction false} LinesRooted(world: World, d: Draft, lines: seq<Parsed>, q: Request, now: Time)
    requires RootedJournal(world, d.journal) && WellParsed(world, lines)
    ensures RootedJournal(world, Lines(d, lines, q, now).journal)
    decreases |lines|
  {
    if lines != [] {
      var init, last := lines[..|lines| - 1], lines[|lines| - 1];
      assert WellParsed(world, init);
      LinesRooted(world, d, init, q, now);
      assert last.Accepted? ==> last.cookie.site == world.home(last.cookie.id);
    }
  }

  // ---------------------------------------------------------------- what a write leaves

  /** The write leaves no cookie of another site in its draft, and writes over none that is stored. */
  ghost predicate Domestic(world: World, jar: Jar, d: Draft, site: Site) {
    Strangers(world, d.all, site) == map[] && Lost(jar.rows, d.journal, site) == map[]
  }

  /** After a scan's draft has been committed, the usage row is ahead of the rows by what it was before and the foreign
      rows written over, and the certificate is ahead of its site by the strangers in the draft. */
  lemma CommitFigures(world: World, jar: Jar, q: Request, d: Draft, limits: Limits)
    requires Rooted(world, jar.rows) && q.sizeOf == world.sizeOf && RootedJournal(world, d.journal)
    requires Sound(SiteRows(jar.rows, q.site), d, q)
    requires var rows := SiteRows(jar.rows, q.site); Commit(jar, q, d, |rows|, SizeOfAll(rows, q), limits).Done?
    ensures var rows := SiteRows(jar.rows, q.site);
      var jar' := Commit(jar, q, d, |rows|, SizeOfAll(rows, q), limits).jar;
      var (lost, strangers) := (Lost(jar.rows, d.journal, q.site), Strangers(world, d.all, q.site));
      Rooted(world, jar'.rows)
      && jar'.count - |jar'.rows| == jar.count - |jar.rows| + |lost|
      && jar'.bytes - Total(jar'.rows, world.sizeOf)
        == jar.bytes - Total(jar.rows, world.sizeOf) + Total(lost, world.sizeOf)
      && d.count == |SiteRows(jar'.rows, q.site)| + |strangers|
      && d.size == Total(SiteRows(jar'.rows, q.site), world.sizeOf) + Total(strangers, world.sizeOf)
      && NotAfter(d.nextExpiry, SiteRows(jar'.rows, q.site))
  {
    var rows := SiteRows(jar.rows, q.site);
    WrittenRooted(world, jar.rows, d.journal);
    WrittenSplits(world, jar.rows, d.journal, q.site);
    FiguresAdd(world, jar.rows, d.journal, q.site);
    assert NotAfter(d.nextExpiry, Natives(world, d.all, q.site));
    hide Written, SiteRows, OtherRows, Strangers, Natives, NotAfter, Rooted, RootedJournal;
    if d.journal == [] {
      NothingWritten(jar.rows);
      NothingLost(jar.rows, q.site, world.sizeOf);
    }
  }

  lemma NothingLost(rows: Rows, site: Site, f: Cookie -> nat)
    ensures Lost(rows, [], site) == map[] && Total(Lost(rows, [], site), f) == 0
  {
    assert Lost(rows, [], site) == map[];
    TotalEmpty<Id, Cookie>(f);
  }

  lemma NoRows(rows: Rows, f: Cookie -> nat)
    ensures |rows| == 0 <==> rows == map[]
    ensures rows == map[] ==> Total(rows, f) == 0
  {
    TotalEmpty<Id, Cookie>(f);
    if rows != map[] {
      var id :| id in rows;
      Shrinks(rows, id);
    }
  }

  /** A scan's commit keeps usage row and certificates exact if and only if the write is domestic. */
  lemma CommitKeepsIff(world: World, jar: Jar, q: Request, d: Draft, limits: Limits)
    requires Inv(world, jar) && q.sizeOf == world.sizeOf && RootedJournal(world, d.journal)
    requires Sound(SiteRows(jar.rows, q.site), d, q)
    requires var rows := SiteRows(jar.rows, q.site); Commit(jar, q, d, |rows|, SizeOfAll(rows, q), limits).Done?
    ensures var rows := SiteRows(jar.rows, q.site);
      Inv(world, Commit(jar, q, d, |rows|, SizeOfAll(rows, q), limits).jar) <==> Domestic(world, jar, d, q.site)
  {
    hide *;
    var rows := SiteRows(jar.rows, q.site);
    var jar' := Commit(jar, q, d, |rows|, SizeOfAll(rows, q), limits).jar;
    InvIs(world, jar);
    CommitFigures(world, jar, q, d, limits);
    CommitParts(jar, q, d, limits);
    CommittedIff(world, jar, q, d, jar');
  }

  lemma InvIs(world: World, jar: Jar)
    ensures Inv(world, jar) <==> Rooted(world, jar.rows) && UsageExact(world, jar) && ProofsTrue(world, jar)
  {
    hide Rooted, UsageExact, ProofsTrue;
  }

  lemma CommittedIff(world: World, jar: Jar, q: Request, d: Draft, jar': Jar)
    requires Rooted(world, jar'.rows) && UsageExact(world, jar) && ProofsTrue(world, jar)
    requires d.count >= 0 && d.size >= 0
    requires jar'.proofs == jar.proofs + (if d.count > 0 then {SiteUsage(q.site, jar'.revision, d.count, d.size, d.nextExpiry)}
                                          else {})
    requires jar'.revision == jar.revision + if d.journal != [] then 1 else 0
    requires d.journal == [] ==> jar'.rows == jar.rows
    requires var (lost, strangers) := (Lost(jar.rows, d.journal, q.site), Strangers(world, d.all, q.site));
      jar'.count - |jar'.rows| == jar.count - |jar.rows| + |lost|
      && jar'.bytes - Total(jar'.rows, world.sizeOf)
        == jar.bytes - Total(jar.rows, world.sizeOf) + Total(lost, world.sizeOf)
      && d.count == |SiteRows(jar'.rows, q.site)| + |strangers|
      && d.size == Total(SiteRows(jar'.rows, q.site), world.sizeOf) + Total(strangers, world.sizeOf)
      && NotAfter(d.nextExpiry, SiteRows(jar'.rows, q.site))
    ensures Inv(world, jar') <==> Domestic(world, jar, d, q.site)
  {
    hide SiteRows, Lost, Strangers, NotAfter, Rooted;
    NoRows(Lost(jar.rows, d.journal, q.site), world.sizeOf);
    NoRows(Strangers(world, d.all, q.site), world.sizeOf);
    if Strangers(world, d.all, q.site) != map[] {
      var p := SiteUsage(q.site, jar'.revision, d.count, d.size, d.nextExpiry);
      assert p in jar'.proofs && !Truthful(world, jar'.rows, p);
    }
  }

  lemma CommitParts(jar: Jar, q: Request, d: Draft, limits: Limits)
    requires Sound(SiteRows(jar.rows, q.site), d, q)
    requires var rows := SiteRows(jar.rows, q.site); Commit(jar, q, d, |rows|, SizeOfAll(rows, q), limits).Done?
    ensures var rows := SiteRows(jar.rows, q.site);
      var jar' := Commit(jar, q, d, |rows|, SizeOfAll(rows, q), limits).jar;
      d.count >= 0 && d.size >= 0
      && jar'.proofs == jar.proofs + (if d.count > 0 then {SiteUsage(q.site, jar'.revision, d.count, d.size, d.nextExpiry)}
                                      else {})
      && jar'.revision == jar.revision + (if d.journal != [] then 1 else 0)
      && (d.journal == [] ==> jar'.rows == jar.rows)
  {
    hide SiteRows, NotAfter;
    if d.journal == [] { NothingWritten(jar.rows); }
  }

  lemma NothingWritten(rows: Rows)
    ensures Written(rows, []) == rows
  {
  }

  /** The draft of a scan with its lines folded in. */
  ghost predicate Scans(world: World, jar: Jar, q: Request, lines: seq<Parsed>, now: Time, scan: Draft) {
    q.sizeOf == world.sizeOf && WellParsed(world, lines) && ScanStart(SiteRows(jar.rows, q.site), scan, q, now)
  }

  lemma ScanDrafts(world: World, jar: Jar, q: Request, lines: seq<Parsed>, now: Time, scan: Draft)
    requires Rooted(world, jar.rows) && Scans(world, jar, q, lines, now, scan)
    ensures Sound(SiteRows(jar.rows, q.site), Lines(scan, lines, q, now), q)
    ensures RootedJournal(world, Lines(scan, lines, q, now).journal)
  {
    ScanCertifies(SiteRows(jar.rows, q.site), scan, lines, q, now);
    forall i | 0 <= i < |scan.journal| ensures scan.journal[i].Delete? {
      assert scan.journal[i] in scan.journal;
    }
    LinesRooted(world, scan, lines, q, now);
  }

  /** A write that scans keeps usage row and certificates exact if and only if it is domestic. */
  lemma ScanWriteKeepsIff(world: World, jar: Jar, q: Request, lines: seq<Parsed>, now: Time, scan: Draft, limits: Limits)
    requires Inv(world, jar) && Scans(world, jar, q, lines, now, scan)
    requires ScanWrite(jar, q, lines, now, scan, limits).Done?
    ensures Inv(world, ScanWrite(jar, q, lines, now, scan, limits).jar)
      <==> Domestic(world, jar, Lines(scan, lines, q, now), q.site)
  {
    hide Sound, ScanStart, Lines, Commit, Domestic, UsageExact, ProofsTrue, RootedJournal;
    ScanDrafts(world, jar, q, lines, now, scan);
    CommitKeepsIff(world, jar, q, Lines(scan, lines, q, now), limits);
  }

  /** Whatever its lines set, a write that scans moves the usage row away from the rows by exactly the stored cookies of
      other sites it writes over. */
  lemma ScanWriteDrifts(world: World, jar: Jar, q: Request, lines: seq<Parsed>, now: Time, scan: Draft, limits: Limits)
    requires Rooted(world, jar.rows) && Scans(world, jar, q, lines, now, scan)
    requires ScanWrite(jar, q, lines, now, scan, limits).Done?
    ensures var jar' := ScanWrite(jar, q, lines, now, scan, limits).jar;
      Rooted(world, jar'.rows)
      && jar'.count - |jar'.rows|
        == jar.count - |jar.rows| + |Lost(jar.rows, Lines(scan, lines, q, now).journal, q.site)|
      && jar'.bytes - Total(jar'.rows, world.sizeOf)
        == jar.bytes - Total(jar.rows, world.sizeOf)
           + Total(Lost(jar.rows, Lines(scan, lines, q, now).journal, q.site), world.sizeOf)
  {
    hide Sound, ScanStart, Lines, Commit, Lost, RootedJournal;
    ScanDrafts(world, jar, q, lines, now, scan);
    CommitFigures(world, jar, q, Lines(scan, lines, q, now), limits);
  }

  // ---------------------------------------------------------------- which lines leave strangers

  /** A line sets the cookie, or would. */
  predicate Sets(lines: seq<Parsed>, id: Id, now: Time) {
    exists i :: 0 <= i < |lines| && lines[i].Accepted? && lines[i].cookie.id == id && !Expired(lines[i].cookie, now)
  }

  /** The last line that names the cookie sets it. */
  predicate EndsSet(lines: seq<Parsed>, id: Id, now: Time)
    decreases |lines|
  {
    lines != []
    && var last := lines[|lines| - 1];
    if last.Accepted? && last.cookie.id == id then !Expired(last.cookie, now) else EndsSet(lines[..|lines| - 1], id, now)
  }

  lemma SetsMore(lines: seq<Parsed>, id: Id, now: Time)
    requires lines != []
    ensures var last := lines[|lines| - 1];
      Sets(lines, id, now)
      <==> Sets(lines[..|lines| - 1], id, now) || (last.Accepted? && last.cookie.id == id && !Expired(last.cookie, now))
  {
    var init := lines[..|lines| - 1];
    if Sets(init, id, now) {
      var i :| 0 <= i < |init| && init[i].Accepted? && init[i].cookie.id == id && !Expired(init[i].cookie, now);
      assert lines[i] == init[i];
    }
    if Sets(lines, id, now) {
      var i :| 0 <= i < |lines| && lines[i].Accepted? && lines[i].cookie.id == id && !Expired(lines[i].cookie, now);
      if i < |init| { assert init[i] == lines[i]; }
    }
  }

  lemma JournalledSnoc(journal: seq<Change>, change: Change)
    ensures Journalled(journal + [change]) == Journalled(journal) + {change.cookie.id}
  {
    assert (journal + [change])[..|journal|] == journal;
    JournalledMore(journal + [change]);
  }

  /** One line, as far as a cookie is concerned that only lines have named. */
  lemma StoredNames(d: Draft, c: Cookie, q: Request, now: Time, id: Id)
    ensures var d' := Stored(d, c, q, now);
      (id in d'.all <==> if c.id == id then !Expired(c, now) else id in d.all)
      && (id in Journalled(d.journal) ==> id in Journalled(d'.journal))
      && (id in Journalled(d'.journal) ==> id in Journalled(d.journal) || (c.id == id && (!Expired(c, now) || id in d.all)))
      && (c.id == id && !Expired(c, now) ==> id in Journalled(d'.journal) || id in d.all)
  {
    JournalledSnoc(d.journal, Delete(c));
    JournalledSnoc(d.journal, Set(c));
    if c.id in d.all { JournalledSnoc(d.journal, Set(c.(created := d.all[c.id].created))); }
    hide Journalled;
  }

  /** A cookie the draft did not start with is in it, or in its journal, only if a line sets it; and over HTTP on a
      secure transport, where no stored cookie can refuse a line, exactly if the last line naming it, or any, does. */
  lemma {:induction false} LinesName(d: Draft, lines: seq<Parsed>, q: Request, now: Time, id: Id)
    requires id !in d.all && id !in Journalled(d.journal)
    ensures var d' := Lines(d, lines, q, now);
      (id in d'.all ==> id in Journalled(d'.journal)) && (id in Journalled(d'.journal) ==> Sets(lines, id, now))
      && (q.fromHTTP && q.secureTransport ==>
            (id in d'.all <==> EndsSet(lines, id, now)) && (id in Journalled(d'.journal) <==> Sets(lines, id, now)))
    decreases |lines|
  {
    if lines != [] {
      var init, last := lines[..|lines| - 1], lines[|lines| - 1];
      LinesName(d, init, q, now, id);
      SetsMore(lines, id, now);
      hide Sets, Journalled;
      if last.Accepted? { StoredNames(Lines(d, init, q, now), last.cookie, q, now, id); }
    }
  }

  /** A scan starts with its site's cookies only. */
  lemma ScanHasNoStranger(world: World, jar: Jar, q: Request, now: Time, scan: Draft, id: Id)
    requires Rooted(world, jar.rows) && ScanStart(SiteRows(jar.rows, q.site), scan, q, now) && world.home(id) != q.site
    ensures id !in scan.all && id !in Journalled(scan.journal)
  {
    forall i | 0 <= i < |scan.journal| ensures scan.journal[i].cookie.id != id {
      assert scan.journal[i] in scan.journal;
    }
  }

  /** Lines that set cookies of the request's site only: the guard of the certificate path. */
  lemma HomelyIsDomestic(world: World, jar: Jar, q: Request, lines: seq<Parsed>, now: Time, scan: Draft)
    requires Rooted(world, jar.rows) && Scans(world, jar, q, lines, now, scan) && Homely(lines, q.site)
    ensures Domestic(world, jar, Lines(scan, lines, q, now), q.site)
  {
    var d := Lines(scan, lines, q, now);
    forall id | world.home(id) != q.site ensures id !in d.all && id !in Journalled(d.journal) {
      ScanHasNoStranger(world, jar, q, now, scan, id);
      LinesName(scan, lines, q, now, id);
    }
    hide Lines, Journalled, ScanStart, SiteRows;
    assert Strangers(world, d.all, q.site) == map[];
    assert Lost(jar.rows, d.journal, q.site) == map[];
  }

  /** What the lines of a secure response say before the write: no cookie of another site is set by the last line that
      names it, and none that is stored is set by any. */
  ghost predicate DomesticLines(world: World, rows: Rows, lines: seq<Parsed>, site: Site, now: Time) {
    forall id :: world.home(id) != site ==> !EndsSet(lines, id, now) && !(id in rows && Sets(lines, id, now))
  }

  /** For a secure response the lines alone, and what is stored, decide whether the write is domestic. */
  lemma DomesticIffLines(world: World, jar: Jar, q: Request, lines: seq<Parsed>, now: Time, scan: Draft)
    requires Rooted(world, jar.rows) && Scans(world, jar, q, lines, now, scan) && q.fromHTTP && q.secureTransport
    ensures Domestic(world, jar, Lines(scan, lines, q, now), q.site)
      <==> DomesticLines(world, jar.rows, lines, q.site, now)
  {
    var d := Lines(scan, lines, q, now);
    forall id | world.home(id) != q.site
      ensures id in d.all <==> EndsSet(lines, id, now)
      ensures id in Journalled(d.journal) <==> Sets(lines, id, now)
    {
      ScanHasNoStranger(world, jar, q, now, scan, id);
      LinesName(scan, lines, q, now, id);
    }
    hide Lines, Journalled, ScanStart, SiteRows, Sets, EndsSet, Scans;
    StrangersNone(world, d.all, q.site);
    LostNone(jar.rows, d.journal, q.site);
  }

  lemma StrangersNone(world: World, all: Rows, site: Site)
    ensures Strangers(world, all, site) == map[] <==> forall id :: world.home(id) != site ==> id !in all
  {
    if id :| world.home(id) != site && id in all { assert id in Strangers(world, all, site); }
  }

  lemma LostNone(rows: Rows, journal: seq<Change>, site: Site)
    ensures Lost(rows, journal, site) == map[]
      <==> forall id :: id in rows && rows[id].site != site ==> id !in Journalled(journal)
  {
    if id :| id in rows && rows[id].site != site && id in Journalled(journal) { assert id in Lost(rows, journal, site); }
  }

  // ---------------------------------------------------------------- the certificate path

  /** When the code may take the certificate path. */
  predicate MayCertify(jar: Jar, q: Request, lines: seq<Parsed>, now: Time, proof: SiteUsage) {
    Checked(proof, q.site, jar, now) && q.secureTransport && |Ids(lines)| <= MOST_IDENTITIES && Homely(lines, q.site)
  }

  /** Results that differ in nothing but how early their certificates are. */
  predicate SameResult(a: Result, b: Result) {
    if a.Done? && b.Done? then a.outcome == b.outcome && a.jar.(proofs := {}) == b.jar.(proofs := {}) else a == b
  }

  /** The certificate path is the scan path: accepted and rejected lines, stored rows, journal, usage and revision. */
  lemma CertificateWriteIsScanWrite(world: World, jar: Jar, q: Request, lines: seq<Parsed>, now: Time,
                                    proof: SiteUsage, scan: Draft, limits: Limits)
    requires Inv(world, jar) && q.sizeOf == world.sizeOf && proof in jar.proofs && MayCertify(jar, q, lines, now, proof)
    requires ScanStart(SiteRows(jar.rows, q.site), scan, q, now)
    ensures SameResult(CertificateWrite(jar, q, lines, now, proof, limits), ScanWrite(jar, q, lines, now, scan, limits))
  {
    var rows := SiteRows(jar.rows, q.site);
    assert Certifies(proof, rows, q);
    CertificateRefinesScan(rows, proof, scan, lines, q, now);
    hide SiteRows, ScanStart, Lines, Written, NotAfter;
  }

  /** A write through a truthful certificate leaves a truthful certificate. */
  lemma CertificateWriteKeeps(world: World, jar: Jar, q: Request, lines: seq<Parsed>, now: Time, proof: SiteUsage,
                              scan: Draft, limits: Limits)
    requires Inv(world, jar) && q.sizeOf == world.sizeOf && proof in jar.proofs && MayCertify(jar, q, lines, now, proof)
    requires WellParsed(world, lines) && ScanStart(SiteRows(jar.rows, q.site), scan, q, now)
    ensures var r := CertificateWrite(jar, q, lines, now, proof, limits); r.Done? ==> Inv(world, r.jar)
  {
    var rows := SiteRows(jar.rows, q.site);
    assert Certifies(proof, rows, q);
    CertificateRefinesScan(rows, proof, scan, lines, q, now);
    var start := CertificateStart(Named(rows, Ids(lines)), proof);
    var c, s := Lines(start, lines, q, now), Lines(scan, lines, q, now);
    LiveScan(rows, proof, scan, q, now);
    CertificateStaysEarly(start, scan, lines, Ids(lines), q, now);
    ScanDrafts(world, jar, q, lines, now, scan);
    HomelyIsDomestic(world, jar, q, lines, now, scan);
    MixedKeeps(world, jar, q, c, s, proof, limits);
  }

  lemma MixedKeeps(world: World, jar: Jar, q: Request, c: Draft, s: Draft, proof: SiteUsage, limits: Limits)
    requires Inv(world, jar) && q.sizeOf == world.sizeOf && RootedJournal(world, s.journal)
    requires Sound(SiteRows(jar.rows, q.site), s, q) && NotAfter(c.nextExpiry, s.all) && Domestic(world, jar, s, q.site)
    requires c.count == s.count && c.size == s.size && c.journal == s.journal && c.accepted == s.accepted
    requires c.rejected == s.rejected && c.changes == s.changes
    requires Certifies(proof, SiteRows(jar.rows, q.site), q)
    ensures var r := Commit(jar, q, c, proof.count, proof.bytes, limits); r.Done? ==> Inv(world, r.jar)
  {
    var rows := SiteRows(jar.rows, q.site);
    var mixed := s.(nextExpiry := c.nextExpiry);
    MixedSound(rows, s, q, c.nextExpiry);
    CommitSame(jar, q, c, mixed, proof.count, proof.bytes, limits);
    assert Domestic(world, jar, mixed, q.site);
    hide Inv, Sound, Commit, SiteRows, Domestic;
    if Commit(jar, q, c, proof.count, proof.bytes, limits).Done? { CommitKeepsIff(world, jar, q, mixed, limits); }
  }

  lemma MixedSound(rows: Rows, s: Draft, q: Request, next: Option<Time>)
    requires Sound(rows, s, q) && NotAfter(next, s.all)
    ensures Sound(rows, s.(nextExpiry := next), q)
  {
  }

  /** A commit looks at everything in a draft but its working rows. */
  lemma CommitSame(jar: Jar, q: Request, c: Draft, s: Draft, count: int, bytes: int, limits: Limits)
    requires c.(all := map[]) == s.(all := map[])
    ensures Commit(jar, q, c, count, bytes, limits) == Commit(jar, q, s, count, bytes, limits)
  {
    hide Written;
  }

  lemma LiveScan(rows: Rows, proof: SiteUsage, scan: Draft, q: Request, now: Time)
    requires Certifies(proof, rows, q) && ScanStart(rows, scan, q, now)
    requires proof.nextExpiry.Some? ==> proof.nextExpiry.value > now
    ensures scan.all == rows && scan.journal == []
    ensures Agree(CertificateStart(rows, proof), scan, rows.Keys)
  {
    assert forall id :: id in rows ==> !Expired(rows[id], now);
    assert scan.all == rows;
    assert Named(scan.all, rows.Keys) == rows;
  }

  // ---------------------------------------------------------------- runs

  /** One committed write by a scan or by a certificate, or a document losing certificates. */
  datatype Event =
    | Scanned(q: Request, lines: seq<Parsed>, now: Time, scan: Draft)
    | Certified(q: Request, lines: seq<Parsed>, now: Time, proof: SiteUsage)
    | Forgotten(kept: set<SiteUsage>)

  ghost predicate Enabled(world: World, jar: Jar, e: Event, limits: Limits) {
    match e
    case Scanned(q, lines, now, scan) =>
      Scans(world, jar, q, lines, now, scan) && ScanWrite(jar, q, lines, now, scan, limits).Done?
    case Certified(q, lines, now, proof) =>
      q.sizeOf == world.sizeOf && WellParsed(world, lines) && proof in jar.proofs
      && MayCertify(jar, q, lines, now, proof) && CertificateWrite(jar, q, lines, now, proof, limits).Done?
    case Forgotten(kept) => kept <= jar.proofs
  }

  ghost function Next(world: World, jar: Jar, e: Event, limits: Limits): Jar
    requires Enabled(world, jar, e, limits)
  {
    match e
    case Scanned(q, lines, now, scan) => ScanWrite(jar, q, lines, now, scan, limits).jar
    case Certified(q, lines, now, proof) => CertificateWrite(jar, q, lines, now, proof, limits).jar
    case Forgotten(kept) => jar.(proofs := kept)
  }

  /** There is always an order in which a scan can meet its rows. */
  lemma {:induction false} ScanExists(rows: Rows, q: Request, now: Time) returns (d: Draft)
    requires forall id :: id in rows ==> rows[id].id == id
    ensures ScanStart(rows, d, q, now)
    decreases |rows|
  {
    if rows == map[] {
      d := Draft(map[], 0, 0, None, [], 0, [], []);
      TotalEmpty<Id, Cookie>(q.sizeOf);
    } else {
      var id :| id in rows;
      Shrinks(rows, id);
      var rest := ScanExists(rows - {id}, q, now);
      var c := rows[id];
      if Expired(c, now) {
        d := rest.(journal := rest.journal + [Delete(c)]);
        MoreExpired(rows, id, rest, q, now);
      } else {
        d := rest.(all := rest.all[id := c], count := rest.count + 1, size := rest.size + q.sizeOf(c),
                   nextExpiry := Earlier(rest.nextExpiry, c.expires));
        MoreLive(rows, id, rest, q, now);
      }
    }
  }

  lemma MoreExpired(rows: Rows, id: Id, rest: Draft, q: Request, now: Time)
    requires id in rows && rows[id].id == id && Expired(rows[id], now) && ScanStart(rows - {id}, rest, q, now)
    requires |rows - {id}| == |rows| - 1 && forall i :: i in rows ==> rows[i].id == i
    ensures ScanStart(rows, rest.(journal := rest.journal + [Delete(rows[id])]), q, now)
  {
    hide SizeOfAll, NotAfter;
    var d := rest.(journal := rest.journal + [Delete(rows[id])]);
    forall c
      ensures c in d.journal <==> c in rest.journal || c == Delete(rows[id])
    {
    }
    assert rest.all == map i | i in rows && !Expired(rows[i], now) :: rows[i];
  }

  lemma MoreLive(rows: Rows, id: Id, rest: Draft, q: Request, now: Time)
    requires id in rows && rows[id].id == id && !Expired(rows[id], now) && ScanStart(rows - {id}, rest, q, now)
    requires |rows - {id}| == |rows| - 1 && forall i :: i in rows ==> rows[i].id == i
    ensures ScanStart(rows, rest.(all := rest.all[id := rows[id]], count := rest.count + 1,
                                  size := rest.size + q.sizeOf(rows[id]),
                                  nextExpiry := Earlier(rest.nextExpiry, rows[id].expires)), q, now)
  {
    PutFigures(rest.all, rows[id], q);
    PutEarly(rest.all, rest.nextExpiry, rows[id]);
    hide SizeOfAll, NotAfter, Earlier;
    assert rest.all[id := rows[id]] == map i | i in rows && !Expired(rows[i], now) :: rows[i];
  }

  /** The step is domestic. A write that takes the certificate path is, by that path's guard. */
  ghost predicate DomesticStep(world: World, jar: Jar, e: Event) {
    e.Scanned? ==> Domestic(world, jar, Lines(e.scan, e.lines, e.q, e.now), e.q.site)
  }

  lemma StepKeepsIff(world: World, jar: Jar, e: Event, limits: Limits)
    requires Inv(world, jar) && Enabled(world, jar, e, limits)
    ensures Inv(world, Next(world, jar, e, limits)) <==> DomesticStep(world, jar, e)
  {
    match e
    case Scanned(q, lines, now, scan) => ScanWriteKeepsIff(world, jar, q, lines, now, scan, limits);
    case Certified(q, lines, now, proof) =>
      var scan := ScanExists(SiteRows(jar.rows, q.site), q, now);
      CertificateWriteKeeps(world, jar, q, lines, now, proof, scan, limits);
    case Forgotten(_) =>
  }

  ghost predicate Runs(world: World, jar: Jar, es: seq<Event>, limits: Limits)
    decreases |es|
  {
    es == [] || (Enabled(world, jar, es[0], limits) && Runs(world, Next(world, jar, es[0], limits), es[1..], limits))
  }

  ghost function Run(world: World, jar: Jar, es: seq<Event>, limits: Limits): Jar
    requires Runs(world, jar, es, limits)
    decreases |es|
  {
    if es == [] then jar else Run(world, Next(world, jar, es[0], limits), es[1..], limits)
  }

  const EMPTY := Jar(map[], 0, 0, 0, {})

  /** Usage row and certificates are exact before and after every step of the run. */
  ghost predicate TrueThroughout(world: World, jar: Jar, es: seq<Event>, limits: Limits)
    requires Runs(world, jar, es, limits)
    decreases |es|
  {
    Inv(world, jar) && (es == [] || TrueThroughout(world, Next(world, jar, es[0], limits), es[1..], limits))
  }

  ghost predicate DomesticRun(world: World, jar: Jar, es: seq<Event>, limits: Limits)
    requires Runs(world, jar, es, limits)
    decreases |es|
  {
    es == []
    || (DomesticStep(world, jar, es[0]) && DomesticRun(world, Next(world, jar, es[0], limits), es[1..], limits))
  }

  lemma {:induction false} TrueThroughoutIff(world: World, jar: Jar, es: seq<Event>, limits: Limits)
    requires Inv(world, jar) && Runs(world, jar, es, limits)
    ensures TrueThroughout(world, jar, es, limits) <==> DomesticRun(world, jar, es, limits)
    decreases |es|
  {
    hide Inv, Enabled, Next, DomesticStep;
    if es != [] {
      StepKeepsIff(world, jar, es[0], limits);
      if DomesticStep(world, jar, es[0]) {
        TrueThroughoutIff(world, Next(world, jar, es[0], limits), es[1..], limits);
      } else {
        Untrue(world, Next(world, jar, es[0], limits), es[1..], limits);
      }
    }
  }

  lemma Untrue(world: World, jar: Jar, es: seq<Event>, limits: Limits)
    requires Runs(world, jar, es, limits) && !Inv(world, jar)
    ensures !TrueThroughout(world, jar, es, limits)
  {
  }

  lemma EmptyIsTrue(world: World)
    ensures Inv(world, EMPTY)
  {
    TotalEmpty<Id, Cookie>(world.sizeOf);
  }

  /** Over every run, whatever its lines set: at all times the usage row has the exact count and bytes of the jar, and
      every certificate of the current revision the exact count and bytes of its site and an expiry no later than any
      live one, if and only if every write that scans is domestic. */
  lemma CertificatesStayTrueIff(world: World, es: seq<Event>, limits: Limits)
    requires Runs(world, EMPTY, es, limits)
    ensures TrueThroughout(world, EMPTY, es, limits) <==> DomesticRun(world, EMPTY, es, limits)
  {
    EmptyIsTrue(world);
    TrueThroughoutIff(world, EMPTY, es, limits);
  }

  lemma {:induction false} TrueAtTheEnd(world: World, jar: Jar, es: seq<Event>, limits: Limits)
    requires Runs(world, jar, es, limits) && TrueThroughout(world, jar, es, limits)
    ensures Inv(world, Run(world, jar, es, limits))
    decreases |es|
  {
    if es != [] { TrueAtTheEnd(world, Next(world, jar, es[0], limits), es[1..], limits); }
  }

  // ---------------------------------------------------------------- the usage row over every run

  lemma {:induction false} EarliestExists(rows: Rows) returns (t: Option<Time>)
    requires forall id :: id in rows ==> rows[id].id == id
    ensures NotAfter(t, rows)
    decreases |rows|
  {
    t := None;
    if rows != map[] {
      var id :| id in rows;
      Shrinks(rows, id);
      var rest := EarliestExists(rows - {id});
      t := Earlier(rest, rows[id].expires);
      PutEarly(rows - {id}, rest, rows[id]);
      assert (rows - {id})[id := rows[id]] == rows;
    }
  }

  /** A draft's figures only move: what it started from does not matter for its rows and its journal. */
  lemma {:induction false} LinesShift(d: Draft, e: Draft, lines: seq<Parsed>, q: Request, now: Time)
    requires d.all == e.all && d.journal == e.journal
    ensures var (d', e') := (Lines(d, lines, q, now), Lines(e, lines, q, now));
      d'.all == e'.all && d'.journal == e'.journal && d'.count - d.count == e'.count - e.count
      && d'.size - d.size == e'.size - e.size
    decreases |lines|
  {
    if lines != [] {
      LinesShift(d, e, lines[..|lines| - 1], q, now);
    }
  }

  lemma {:induction false} LinesWithin(d: Draft, lines: seq<Parsed>, q: Request, now: Time)
    ensures Journalled(Lines(d, lines, q, now).journal) <= Journalled(d.journal) + Ids(lines)
    decreases |lines|
  {
    if lines != [] {
      var init, last := lines[..|lines| - 1], lines[|lines| - 1];
      LinesWithin(d, init, q, now);
      var mid := Lines(d, init, q, now);
      forall id | id in Journalled(Lines(d, lines, q, now).journal)
        ensures id in Journalled(d.journal) + Ids(lines)
      {
        if last.Accepted? {
          StoredNames(mid, last.cookie, q, now, id);
          assert lines[|lines| - 1].cookie.id in Ids(lines);
        }
        hide Journalled;
        if id in Ids(init) {
          var i :| 0 <= i < |init| && init[i].Accepted? && init[i].cookie.id == id;
          assert lines[i] == init[i];
        }
      }
    }
  }

  /** Written over the rows it names, a journal does to the whole jar what it does to them. */
  lemma WrittenBeside(rows: Rows, named: Rows, journal: seq<Change>)
    requires forall id :: id in named ==> id in rows && rows[id] == named[id]
    requires forall id :: id in rows && id in Journalled(journal) ==> id in named
    ensures Written(rows, journal) == (rows - named.Keys) + Written(named, journal)
    ensures (rows - named.Keys).Keys !! Written(named, journal).Keys
  {
    var next, own := Written(rows, journal), Written(named, journal);
    forall id
      ensures id in next <==> id in (rows - named.Keys) + own
      ensures id in next ==> next[id] == ((rows - named.Keys) + own)[id]
      ensures id in own ==> id !in rows - named.Keys
    {
      WrittenOver(rows, named, journal, id);
      WrittenOver(named, rows, journal, id);
    }
  }

  /** A write by a certificate, true or not, leaves the usage row as far from the rows as it was. */
  lemma CertificateWriteDrifts(world: World, jar: Jar, q: Request, lines: seq<Parsed>, now: Time, proof: SiteUsage,
                               limits: Limits)
    requires Rooted(world, jar.rows) && q.sizeOf == world.sizeOf && WellParsed(world, lines) && Homely(lines, q.site)
    requires CertificateWrite(jar, q, lines, now, proof, limits).Done?
    ensures var jar' := CertificateWrite(jar, q, lines, now, proof, limits).jar;
      Rooted(world, jar'.rows) && jar'.count - |jar'.rows| == jar.count - |jar.rows|
      && jar'.bytes - Total(jar'.rows, world.sizeOf) == jar.bytes - Total(jar.rows, world.sizeOf)
  {
    var named := Named(SiteRows(jar.rows, q.site), Ids(lines));
    var start := CertificateStart(named, proof);
    var c := Lines(start, lines, q, now);
    NamedFigures(world, jar.rows, q, lines, now, start, named);
    LinesRooted(world, start, lines, q, now);
    WrittenRooted(world, jar.rows, c.journal);
    hide Lines, Written, SiteRows, Named, Rooted, RootedJournal, Homely, WellParsed;
    if c.journal == [] { NothingWritten(jar.rows); }
  }

  lemma NamedFigures(world: World, rows: Rows, q: Request, lines: seq<Parsed>, now: Time, start: Draft, named: Rows)
    requires Rooted(world, rows) && q.sizeOf == world.sizeOf && WellParsed(world, lines) && Homely(lines, q.site)
    requires named == Named(SiteRows(rows, q.site), Ids(lines)) && start.all == named && start.journal == []
    ensures var c := Lines(start, lines, q, now);
      c.count - start.count == |Written(rows, c.journal)| - |rows|
      && c.size - start.size == Total(Written(rows, c.journal), world.sizeOf) - Total(rows, world.sizeOf)
  {
    var c := Lines(start, lines, q, now);
    assert forall id :: id in named ==> named[id].id == id;
    var t := EarliestExists(named);
    var exact := Draft(named, |named|, SizeOfAll(named, q), t, [], 0, [], []);
    NothingWritten(named);
    LinesSound(named, exact, lines, q, now);
    LinesShift(start, exact, lines, q, now);
    LinesWithin(start, lines, q, now);
    assert Journalled([]) == {};
    NamedAll(world, rows, q, lines, named);
    WrittenBeside(rows, named, c.journal);
    assert forall id :: id in named ==> id in rows && rows[id] == named[id];
    hide *;
    SoundFigures(named, Lines(exact, lines, q, now), q);
    Minus(rows, named, world.sizeOf);
    Union(rows - named.Keys, Written(named, c.journal), world.sizeOf);
  }

  lemma SoundFigures(rows: Rows, d: Draft, q: Request)
    requires Sound(rows, d, q)
    ensures d.count == |Written(rows, d.journal)| && d.size == Total(Written(rows, d.journal), q.sizeOf)
  {
    hide Written;
  }

  lemma NamedAll(world: World, rows: Rows, q: Request, lines: seq<Parsed>, named: Rows)
    requires Rooted(world, rows) && WellParsed(world, lines) && Homely(lines, q.site)
    requires named == Named(SiteRows(rows, q.site), Ids(lines))
    ensures forall id :: id in rows && id in Ids(lines) ==> id in named
  {
    forall id | id in rows && id in Ids(lines) ensures id in named {
      var i :| 0 <= i < |lines| && lines[i].Accepted? && lines[i].cookie.id == id;
      assert world.home(id) == q.site;
    }
  }

  /** What the writes of a run write over in other sites: how many cookies, and how many bytes. */
  ghost function Drift(world: World, jar: Jar, es: seq<Event>, limits: Limits): (r: (nat, nat))
    requires Runs(world, jar, es, limits)
    decreases |es|
  {
    if es == [] then (0, 0)
    else
      var rest := Drift(world, Next(world, jar, es[0], limits), es[1..], limits);
      var lost := LostBy(jar, es[0]);
      (|lost| + rest.0, Total(lost, world.sizeOf) + rest.1)
  }

  function LostBy(jar: Jar, e: Event): Rows {
    if e.Scanned? then Lost(jar.rows, Lines(e.scan, e.lines, e.q, e.now).journal, e.q.site) else map[]
  }

  lemma StepDrifts(world: World, jar: Jar, e: Event, limits: Limits)
    requires Rooted(world, jar.rows) && Enabled(world, jar, e, limits)
    ensures var jar' := Next(world, jar, e, limits);
      Rooted(world, jar'.rows) && jar'.count - |jar'.rows| == jar.count - |jar.rows| + |LostBy(jar, e)|
      && jar'.bytes - Total(jar'.rows, world.sizeOf)
        == jar.bytes - Total(jar.rows, world.sizeOf) + Total(LostBy(jar, e), world.sizeOf)
  {
    hide ScanWrite, CertificateWrite, Lines, Lost, Rooted, Scans;
    TotalEmpty<Id, Cookie>(world.sizeOf);
    match e
    case Scanned(q, lines, now, scan) => ScanWriteDrifts(world, jar, q, lines, now, scan, limits);
    case Certified(q, lines, now, proof) => CertificateWriteDrifts(world, jar, q, lines, now, proof, limits);
    case Forgotten(_) =>
  }

  lemma {:induction false} RunDrifts(world: World, jar: Jar, es: seq<Event>, limits: Limits)
    requires Rooted(world, jar.rows) && Runs(world, jar, es, limits)
    ensures var (end, drift) := (Run(world, jar, es, limits), Drift(world, jar, es, limits));
      end.count - |end.rows| == jar.count - |jar.rows| + drift.0
      && end.bytes - Total(end.rows, world.sizeOf) == jar.bytes - Total(jar.rows, world.sizeOf) + drift.1
    decreases |es|
  {
    hide Next, Enabled, LostBy, Rooted;
    if es != [] {
      StepDrifts(world, jar, es[0], limits);
      RunDrifts(world, Next(world, jar, es[0], limits), es[1..], limits);
    }
  }

  /** Over every run, whatever its lines set and whatever its certificates say, the usage row is ahead of the jar by
      exactly the stored cookies of other sites its writes have written over. */
  lemma UsageDriftsExactly(world: World, es: seq<Event>, limits: Limits)
    requires Runs(world, EMPTY, es, limits)
    ensures var (jar, drift) := (Run(world, EMPTY, es, limits), Drift(world, EMPTY, es, limits));
      jar.count == |jar.rows| + drift.0 && jar.bytes == Total(jar.rows, world.sizeOf) + drift.1
  {
    EmptyIsTrue(world);
    RunDrifts(world, EMPTY, es, limits);
  }

  lemma FirstCookie(q: Request, c: Cookie)
    requires c.expires == None
    ensures Lines(Draft(map[], 0, 0, None, [], 0, [], []), [Accepted(c)], q, 0)
      == Draft(map[c.id := c], 1, q.sizeOf(c), None, [Set(c)], 1, [], [Set(c)])
  {
    var empty := Draft(map[], 0, 0, None, [], 0, [], []);
    assert [Accepted(c)][..0] == [];
    assert Lines(empty, [], q, 0) == empty;
    assert !Overlaid(map[], c, q);
    assert Lines(empty, [Accepted(c)], q, 0) == Line(empty, Accepted(c), q, 0) == Stored(empty, c, q, 0);
    assert [] + [Set(c)] == [Set(c)];
  }

  lemma FirstCommit(q: Request, c: Cookie, limits: Limits)
    requires limits.maxCookies >= 1 && limits.maxCookiesPerSite >= 1 && limits.maxBytes >= q.sizeOf(c)
    ensures var d := Draft(map[c.id := c], 1, q.sizeOf(c), None, [Set(c)], 1, [], [Set(c)]);
      var r := Commit(EMPTY, q, d, 0, 0, limits);
      r.Done? && r.jar.rows == map[c.id := c] && r.jar.revision == 1
      && r.jar.proofs == {SiteUsage(q.site, 1, 1, q.sizeOf(c), None)}
  {
    WrittenGrows(map[], [], Set(c));
    assert [] + [Set(c)] == [Set(c)];
  }

  lemma OneLine(world: World, q: Request, jar: Jar, c: Cookie)
    requires q.sizeOf == world.sizeOf && SiteRows(jar.rows, q.site) == map[] && c.site == world.home(c.id)
    ensures Scans(world, jar, q, [Accepted(c)], 0, Draft(map[], 0, 0, None, [], 0, [], []))
  {
    TotalEmpty<Id, Cookie>(q.sizeOf);
  }

  lemma SecondCommit(q: Request, c: Cookie, limits: Limits, jar: Jar)
    requires limits.maxCookies >= 2 && limits.maxCookiesPerSite >= 1 && limits.maxBytes >= 2 * q.sizeOf(c)
    requires jar.rows == map[c.id := c] && jar.count == 1 && jar.bytes == q.sizeOf(c)
    ensures var d := Draft(map[c.id := c], 1, q.sizeOf(c), None, [Set(c)], 1, [], [Set(c)]);
      var r := Commit(jar, q, d, 0, 0, limits);
      r.Done? && r.jar.rows == map[c.id := c] && r.jar.count == 2
  {
    WrittenGrows(jar.rows, [], Set(c));
    assert [] + [Set(c)] == [Set(c)];
  }

  const NO_DRAFT: Draft := Draft(map[], 0, 0, None, [], 0, [], [])

  /** Setting a cookie of another site, as a host whose parent belongs to one may, and setting it again: one row is
      stored and two are counted. The certificate is wrong from the first time. */
  lemma ForeignCookieDrifts(world: World, q: Request, c: Cookie, limits: Limits)
    requires q.sizeOf == world.sizeOf && c.site == world.home(c.id) && c.site != q.site && c.expires == None
    requires limits.maxCookies >= 2 && limits.maxCookiesPerSite >= 1 && limits.maxBytes >= 2 * q.sizeOf(c)
    ensures var once := [Scanned(q, [Accepted(c)], 0, NO_DRAFT)];
      var twice := [Scanned(q, [Accepted(c)], 0, NO_DRAFT), Scanned(q, [Accepted(c)], 0, NO_DRAFT)];
      Runs(world, EMPTY, once, limits) && Runs(world, EMPTY, twice, limits)
      && (exists p :: var jar := Run(world, EMPTY, once, limits);
            p in jar.proofs && p.revision == jar.revision && !Truthful(world, jar.rows, p))
      && var jar := Run(world, EMPTY, twice, limits);
      |jar.rows| == 1 && jar.count == 2
  {
    var e := Scanned(q, [Accepted(c)], 0, NO_DRAFT);
    assert SiteRows(EMPTY.rows, q.site) == map[];
    OneLine(world, q, EMPTY, c);
    FirstCookie(q, c);
    FirstCommit(q, c, limits);
    TotalEmpty<Id, Cookie>(q.sizeOf);
    hide Lines, Commit, Scans;
    var one := Next(world, EMPTY, e, limits);
    assert one == ScanWrite(EMPTY, q, [Accepted(c)], 0, NO_DRAFT, limits).jar;
    assert SiteRows(one.rows, q.site) == map[];
    OneLine(world, q, one, c);
    SecondCommit(q, c, limits, one);
    var two := Next(world, one, e, limits);
    var p := SiteUsage(q.site, 1, 1, q.sizeOf(c), None);
    assert p in one.proofs && !Truthful(world, one.rows, p);
    OneStep(world, EMPTY, e, limits);
    TwoSteps(world, EMPTY, e, limits);
  }

  lemma OneStep(world: World, jar: Jar, e: Event, limits: Limits)
    requires Enabled(world, jar, e, limits)
    ensures Runs(world, jar, [e], limits) && Run(world, jar, [e], limits) == Next(world, jar, e, limits)
  {
    hide Enabled, Next;
    var one := Next(world, jar, e, limits);
    assert [e][1..] == [];
    assert Runs(world, one, [], limits) && Run(world, one, [], limits) == one;
  }

  lemma TwoSteps(world: World, jar: Jar, e: Event, limits: Limits)
    requires Enabled(world, jar, e, limits) && Enabled(world, Next(world, jar, e, limits), e, limits)
    ensures Runs(world, jar, [e, e], limits)
    ensures Run(world, jar, [e, e], limits) == Next(world, Next(world, jar, e, limits), e, limits)
  {
    hide Enabled, Next;
    OneStep(world, Next(world, jar, e, limits), e, limits);
    assert [e, e][1..] == [e];
  }
}
