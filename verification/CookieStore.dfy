/** A write as it runs: the loops over a site's rows and a response's lines, and the choice between looking up the
    named rows and scanning the site. */
module CookieStore {
  import opened Collections
  import opened CookieWrites
  import opened CookieJar

  const MOST_PROOFS := 64

  /** A list of rows, each once. */
  ghost predicate Lists(list: seq<Cookie>, rows: Rows) {
    (forall i, j :: 0 <= i < j < |list| ==> list[i].id != list[j].id)
    && (forall c :: c in list ==> c.id in rows && rows[c.id] == c)
    && (forall id :: id in rows ==> rows[id] in list)
  }

  /** The rows among the first of a list. */
  ghost predicate ListsSome(list: seq<Cookie>, i: nat, some: Rows) {
    i <= |list| && Lists(list[..i], some)
  }

  lemma ListsFresh(list: seq<Cookie>, i: nat, some: Rows, rows: Rows)
    requires Lists(list, rows) && i < |list| && ListsSome(list, i, some)
    requires forall id :: id in some ==> some[id].id == id
    ensures list[i].id !in some
  {
    forall id | id in some
      ensures id != list[i].id
    {
      assert some[id] in list[..i];
      var j :| 0 <= j < i && list[..i][j] == some[id];
      assert list[j] == list[..i][j] && list[j].id != list[i].id;
    }
  }

  lemma ListsMore(list: seq<Cookie>, i: nat, some: Rows, rows: Rows)
    requires Lists(list, rows) && i < |list| && ListsSome(list, i, some)
    requires forall id :: id in some ==> some[id].id == id
    ensures list[i].id !in some && ListsSome(list, i + 1, some[list[i].id := list[i]])
  {
    ListsFresh(list, i, some, rows);
    var more, now := some[list[i].id := list[i]], list[..i + 1];
    assert now == list[..i] + [list[i]];
    forall j, k | 0 <= j < k < |now|
      ensures now[j].id != now[k].id
    {
      assert now[j] == list[j] && now[k] == list[k];
    }
    forall c | c in now
      ensures c.id in more && more[c.id] == c
    {
      assert c in list[..i] || c == list[i];
    }
    forall id | id in more
      ensures more[id] in now
    {
      if id != list[i].id { assert some[id] in list[..i]; } else { assert now[i] == list[i]; }
    }
  }

  lemma ListsSnoc(list: seq<Cookie>, rows: Rows, c: Cookie)
    requires Lists(list, rows) && c.id !in rows
    ensures Lists(list + [c], rows[c.id := c])
  {
    var now, more := list + [c], rows[c.id := c];
    forall j, k | 0 <= j < k < |now|
      ensures now[j].id != now[k].id
    {
      assert now[j] in list;
    }
    forall id | id in more
      ensures more[id] in now
    {
      if id != c.id { assert rows[id] in list; } else { assert now[|list|] == c; }
    }
  }

  lemma ListsAll(list: seq<Cookie>, some: Rows, rows: Rows)
    requires Lists(list, rows) && ListsSome(list, |list|, some)
    requires forall id :: id in rows ==> rows[id].id == id
    requires forall id :: id in some ==> some[id].id == id
    ensures some == rows
  {
    assert list[..|list|] == list;
    forall id
      ensures id in some <==> id in rows
    {
      if id in rows { assert rows[id] in list; }
      if id in some { assert some[id] in list; }
    }
  }

  /** One row met by a scan. */
  function Met(d: Draft, c: Cookie, q: Request, now: Time): Draft {
    if Expired(c, now) then d.(count := d.count - 1, size := d.size - q.sizeOf(c), journal := d.journal + [Delete(c)])
    else d.(all := d.all[c.id := c], nextExpiry := Earlier(d.nextExpiry, c.expires))
  }

  /** A scan part of the way: as if the rest of the rows were live. */
  ghost predicate Scanning(some: Rows, d: Draft, q: Request, now: Time, moreCount: int, moreSize: int) {
    ScanStart(some, d.(count := d.count - moreCount, size := d.size - moreSize), q, now)
  }

  lemma AddedBack(some: Rows, c: Cookie)
    requires c.id !in some
    ensures some[c.id := c] - {c.id} == some && |some| == |some[c.id := c]| - 1
  {
    assert some[c.id := c] - {c.id} == some;
    Shrinks(some[c.id := c], c.id);
  }

  lemma MetScans(some: Rows, d: Draft, q: Request, now: Time, c: Cookie, moreCount: int, moreSize: int)
    requires Scanning(some, d, q, now, moreCount, moreSize) && c.id !in some
    requires forall id :: id in some ==> some[id].id == id
    ensures Scanning(some[c.id := c], Met(d, c, q, now), q, now, moreCount - 1, moreSize - q.sizeOf(c))
  {
    hide ScanStart, Expired, Earlier;
    var rest := d.(count := d.count - moreCount, size := d.size - moreSize);
    if Expired(c, now) {
      MetExpired(some, rest, q, now, c);
    } else {
      MetLive(some, rest, q, now, c);
    }
  }

  lemma MetExpired(some: Rows, rest: Draft, q: Request, now: Time, c: Cookie)
    requires ScanStart(some, rest, q, now) && c.id !in some && Expired(c, now)
    requires forall id :: id in some ==> some[id].id == id
    ensures ScanStart(some[c.id := c], rest.(journal := rest.journal + [Delete(c)]), q, now)
  {
    AddedBack(some, c);
    hide ScanStart;
    MoreExpired(some[c.id := c], c.id, rest, q, now);
  }

  lemma MetLive(some: Rows, rest: Draft, q: Request, now: Time, c: Cookie)
    requires ScanStart(some, rest, q, now) && c.id !in some && !Expired(c, now)
    requires forall id :: id in some ==> some[id].id == id
    ensures ScanStart(some[c.id := c], rest.(all := rest.all[c.id := c], count := rest.count + 1,
                                             size := rest.size + q.sizeOf(c),
                                             nextExpiry := Earlier(rest.nextExpiry, c.expires)), q, now)
  {
    AddedBack(some, c);
    hide ScanStart;
    MoreLive(some[c.id := c], c.id, rest, q, now);
  }

  /** The sizes of a list of cookies. */
  method SumSizes(list: seq<Cookie>, q: Request, ghost rows: Rows) returns (sum: nat)
    requires Lists(list, rows) && forall id :: id in rows ==> rows[id].id == id
    ensures sum == SizeOfAll(rows, q) && |list| == |rows|
  {
    hide Lists, Total;
    sum := 0;
    var i := 0;
    ghost var some: Rows := map[];
    TotalEmpty<Id, Cookie>(q.sizeOf);
    ListsNone(list);
    while i < |list|
      invariant 0 <= i <= |list| && ListsSome(list, i, some) && sum == SizeOfAll(some, q) && i == |some|
      invariant forall id :: id in some ==> some[id].id == id
    {
      ListsMore(list, i, some, rows);
      PutFigures(some, list[i], q);
      some := some[list[i].id := list[i]];
      sum := sum + q.sizeOf(list[i]);
      i := i + 1;
    }
    ListsAll(list, some, rows);
  }

  lemma ListsNone(list: seq<Cookie>)
    ensures ListsSome(list, 0, map[])
  {
  }

  /** The draft of a scan, from the rows it met. */
  method StartScan(list: seq<Cookie>, q: Request, now: Time, ghost rows: Rows) returns (d: Draft)
    requires Lists(list, rows) && forall id :: id in rows ==> rows[id].id == id
    ensures ScanStart(rows, d, q, now)
  {
    hide Lists, Total, ScanStart;
    var beforeBytes := SumSizes(list, q, rows);
    d := Draft(map[], |list|, beforeBytes, None, [], 0, [], []);
    var i := 0;
    ghost var some: Rows := map[];
    ghost var moreCount: int, moreSize: int := |list|, beforeBytes;
    ListsNone(list);
    NothingScanned(q, now, d);
    while i < |list|
      invariant 0 <= i <= |list| && ListsSome(list, i, some) && Scanning(some, d, q, now, moreCount, moreSize)
      invariant moreCount == |list| - |some| && moreSize == beforeBytes - SizeOfAll(some, q)
      invariant forall id :: id in some ==> some[id].id == id
    {
      var cookie := list[i];
      ListsMore(list, i, some, rows);
      MetScans(some, d, q, now, cookie, moreCount, moreSize);
      PutFigures(some, cookie, q);
      if Expired(cookie, now) {
        d := d.(count := d.count - 1, size := d.size - q.sizeOf(cookie), journal := d.journal + [Delete(cookie)]);
      } else {
        d := d.(all := d.all[cookie.id := cookie], nextExpiry := Earlier(d.nextExpiry, cookie.expires));
      }
      moreCount, moreSize := moreCount - 1, moreSize - q.sizeOf(cookie);
      some := some[cookie.id := cookie];
      i := i + 1;
    }
    ListsAll(list, some, rows);
    assert d.(count := d.count - moreCount, size := d.size - moreSize) == d;
  }

  lemma NothingScanned(q: Request, now: Time, d: Draft)
    requires d.all == map[] && d.nextExpiry == None && d.journal == [] && d.accepted == 0 && d.rejected == []
    requires d.changes == [] && d.size >= 0
    ensures Scanning(map[], d, q, now, d.count, d.size) && SizeOfAll(map[], q) == 0
  {
    TotalEmpty<Id, Cookie>(q.sizeOf);
  }

  /** Whether a secure cookie already stored forbids this one. */
  method IsOverlaid(all: Rows, c: Cookie, q: Request) returns (yes: bool)
    ensures yes <==> Overlaid(all, c, q)
  {
    var left := all.Keys;
    while left != {}
      invariant left <= all.Keys
      invariant forall id :: id in all && id !in left ==> !(all[id].secure && q.overlays(all[id], c))
      decreases |left|
    {
      var id :| id in left;
      if all[id].secure && q.overlays(all[id], c) { return true; }
      left := left - {id};
    }
    return false;
  }

  /** The lines of a response, folded into the draft. */
  method ApplyLines(start: Draft, lines: seq<Parsed>, q: Request, now: Time) returns (d: Draft)
    ensures d == Lines(start, lines, q, now)
  {
    hide Overlaid;
    d := start;
    var index := 0;
    assert lines[..0] == [];
    while index < |lines|
      invariant 0 <= index <= |lines| && d == Lines(start, lines[..index], q, now)
    {
      ghost var before := d;
      assert lines[..index + 1][..index] == lines[..index];
      match lines[index] {
        case Rejected(reason) =>
          d := d.(rejected := d.rejected + [reason]);
        case Accepted(parsed) =>
          var previous := Previous(d.all, parsed.id);
          var overlaid := false;
          if !q.secureTransport && !parsed.secure { overlaid := IsOverlaid(d.all, parsed, q); }
          if !q.fromHTTP && previous.Some? && previous.value.httpOnly {
            d := d.(rejected := d.rejected + [HTTP_ONLY]);
          } else if overlaid {
            d := d.(rejected := d.rejected + [OVERLAY]);
          } else {
            d := StoreCookie(d, parsed, q, now);
          }
      }
      assert d == Line(before, lines[index], q, now);
      index := index + 1;
    }
    assert lines[..index] == lines;
  }

  /** One cookie: expired, unchanged, or written. */
  method StoreCookie(d: Draft, parsed: Cookie, q: Request, now: Time) returns (d': Draft)
    ensures d' == Stored(d, parsed, q, now)
  {
    var previous := Previous(d.all, parsed.id);
    d' := d.(accepted := d.accepted + 1);
    var cookie := parsed;
    if Expired(cookie, now) {
      d' := d'.(changes := d'.changes + [Delete(cookie)]);
      if previous.Some? {
        d' := d'.(all := d'.all - {cookie.id}, count := d'.count - 1, size := d'.size - q.sizeOf(previous.value),
                  journal := d'.journal + [Delete(cookie)]);
      }
      return;
    }
    if previous.Some? { cookie := cookie.(created := previous.value.created); }
    if previous.Some? && SameState(previous.value, cookie) {
      d' := d'.(changes := d'.changes + [Set(previous.value)]);
      return;
    }
    d' := d'.(count := d'.count + if previous.Some? then 0 else 1,
              size := d'.size + q.sizeOf(cookie) - if previous.Some? then q.sizeOf(previous.value) else 0);
    d' := d'.(nextExpiry := Earlier(d'.nextExpiry, cookie.expires));
    d' := d'.(all := d'.all[cookie.id := cookie], changes := d'.changes + [Set(cookie)],
              journal := d'.journal + [Set(cookie)]);
  }

  class LocalCookieJar {
    const world: World
    const limits: Limits
    var rows: Rows
    var revision: nat
    var usageCount: int
    var usageBytes: int
    var siteUsageProofs: map<Site, SiteUsage>

    constructor (world: World, limits: Limits)
      ensures this.world == world && this.limits == limits && Valid() && True() && rows == map[] && revision == 0
    {
      this.world, this.limits := world, limits;
      rows, revision, usageCount, usageBytes, siteUsageProofs := map[], 0, 0, 0, map[];
      new;
      TotalEmpty<Id, Cookie>(world.sizeOf);
    }

    ghost function View(): Jar
      reads this
    {
      Jar(rows, revision, usageCount, usageBytes, set site | site in siteUsageProofs :: siteUsageProofs[site])
    }

    ghost predicate Valid()
      reads this
    {
      Rooted(world, rows) && |siteUsageProofs| <= MOST_PROOFS
      && forall site :: site in siteUsageProofs ==> siteUsageProofs[site].site == site
    }

    /** The usage row and the certificates are exact. */
    ghost predicate True()
      reads this
    {
      Inv(world, View())
    }

    /** The rows of a site in some order. */
    method List(some: Rows) returns (list: seq<Cookie>)
      requires forall id :: id in some ==> some[id].id == id
      ensures Lists(list, some)
    {
      list := [];
      var left := some.Keys;
      while left != {}
        invariant left <= some.Keys && Lists(list, some - left)
        decreases |left|
      {
        var id :| id in left;
        ListsSnoc(list, some - left, some[id]);
        assert some - (left - {id}) == (some - left)[id := some[id]];
        list := list + [some[id]];
        left := left - {id};
      }
      assert some - {} == some;
    }

    /** The draft of a full scan. */
    method DraftByScan(q: Request, lines: seq<Parsed>, now: Time) returns (d: Draft, count: nat, bytes: nat, ghost scan: Draft)
      requires Valid() && q.sizeOf == world.sizeOf
      ensures ScanStart(SiteRows(rows, q.site), scan, q, now) && d == Lines(scan, lines, q, now)
      ensures count == |SiteRows(rows, q.site)| && bytes == SizeOfAll(SiteRows(rows, q.site), q)
    {
      hide ScanStart, Lists;
      var mine := SiteRows(rows, q.site);
      var list := List(mine);
      count := |list|;
      bytes := SumSizes(list, q, mine);
      var start := StartScan(list, q, now, mine);
      scan := start;
      d := ApplyLines(start, lines, q, now);
    }

    /** Commits a draft: rows, revision, usage row, and then the certificate it leaves for its site. */
    method CommitDraft(q: Request, d: Draft, beforeCount: int, beforeBytes: int) returns (ok: bool, outcome: Outcome)
      modifies this
      ensures var r := Commit(old(View()), q, d, beforeCount, beforeBytes, limits);
        (ok <==> r.Done?)
        && (ok ==> outcome == r.outcome && View().(proofs := {}) == r.jar.(proofs := {}) && View().proofs <= r.jar.proofs)
      ensures !ok ==> View() == old(View()) && siteUsageProofs == old(siteUsageProofs)
      ensures old(|siteUsageProofs| <= MOST_PROOFS) ==> |siteUsageProofs| <= MOST_PROOFS
      ensures old(forall site :: site in siteUsageProofs ==> siteUsageProofs[site].site == site) ==>
        forall site :: site in siteUsageProofs ==> siteUsageProofs[site].site == site
    {
      var count, bytes := usageCount + d.count - beforeCount, usageBytes + d.size - beforeBytes;
      outcome := Outcome(0, [], [], 0);
      if count > limits.maxCookies || bytes > limits.maxBytes || d.count > limits.maxCookiesPerSite {
        return false, outcome;
      }
      var changed := |d.journal| > 0;
      var version := revision + if changed then 1 else 0;
      rows := WriteJournal(rows, d.journal);
      if changed { revision, usageCount, usageBytes := version, count, bytes; }
      PublishProof(q.site, d, version);
      return true, Outcome(d.accepted, d.rejected, d.changes, version);
    }

    /** The source writes of a journal. */
    method WriteJournal(start: Rows, journal: seq<Change>) returns (next: Rows)
      ensures next == Written(start, journal)
    {
      next := start;
      var i := 0;
      assert journal[..0] == [];
      while i < |journal|
        invariant 0 <= i <= |journal| && next == Written(start, journal[..i])
      {
        assert journal[..i + 1][..i] == journal[..i];
        match journal[i] {
          case Set(cookie) => next := next[cookie.id := cookie];
          case Delete(cookie) => next := next - {cookie.id};
        }
        i := i + 1;
      }
      assert journal[..i] == journal;
    }

    /** The certificate of a finished write replaces the site's; another site's makes room when there are too many. */
    method PublishProof(site: Site, d: Draft, version: nat)
      modifies this`siteUsageProofs
      ensures View().proofs <= old(View().proofs)
        + if d.count > 0 && d.size >= 0 then {SiteUsage(site, version, d.count, d.size, d.nextExpiry)} else {}
      ensures old(|siteUsageProofs| <= MOST_PROOFS) ==> |siteUsageProofs| <= MOST_PROOFS
      ensures old(forall site :: site in siteUsageProofs ==> siteUsageProofs[site].site == site) ==>
        forall site :: site in siteUsageProofs ==> siteUsageProofs[site].site == site
    {
      ghost var before := siteUsageProofs;
      FewerProofs(siteUsageProofs, site);
      siteUsageProofs := siteUsageProofs - {site};
      if d.count > 0 && d.size >= 0 {
        MakeRoom();
        var proof := SiteUsage(site, version, d.count, d.size, d.nextExpiry);
        assert siteUsageProofs[site := proof].Keys == siteUsageProofs.Keys + {site};
        siteUsageProofs := siteUsageProofs[site := proof];
      }
      forall s | s in siteUsageProofs && s != site
        ensures s in before && siteUsageProofs[s] == before[s]
      {
      }
    }

    /** Drops certificates until there is room for one more. */
    method MakeRoom()
      modifies this`siteUsageProofs
      ensures |siteUsageProofs| < MOST_PROOFS && |siteUsageProofs| <= old(|siteUsageProofs|)
      ensures forall s :: s in siteUsageProofs ==> s in old(siteUsageProofs) && siteUsageProofs[s] == old(siteUsageProofs)[s]
    {
      while |siteUsageProofs| >= MOST_PROOFS
        invariant |siteUsageProofs| <= old(|siteUsageProofs|)
        invariant forall s :: s in siteUsageProofs ==>
          s in old(siteUsageProofs) && siteUsageProofs[s] == old(siteUsageProofs)[s]
        decreases |siteUsageProofs|
      {
        SomeProof(siteUsageProofs);
        var oldest :| oldest in siteUsageProofs;
        FewerProofs(siteUsageProofs, oldest);
        siteUsageProofs := siteUsageProofs - {oldest};
      }
    }

    /** A certificate the write may rely on; the rows it names are looked up and looked at once more. */
    method FindProof(q: Request, lines: seq<Parsed>, now: Time) returns (proof: Option<SiteUsage>)
      requires Valid() && q.sizeOf == world.sizeOf
      ensures proof.Some? ==> proof.value in View().proofs && MayCertify(View(), q, lines, now, proof.value)
    {
      if q.site !in siteUsageProofs { return None; }
      var v := siteUsageProofs[q.site];
      if v.revision != revision || usageCount < v.count || usageBytes < v.bytes
         || (v.nextExpiry.Some? && v.nextExpiry.value <= now) || !q.secureTransport
      {
        return None;
      }
      var ids: set<Id> := {};
      var i := 0;
      while i < |lines|
        invariant 0 <= i <= |lines| && ids == Ids(lines[..i]) && Homely(lines[..i], q.site)
      {
        IdsGrow(lines, i);
        if lines[i].Accepted? {
          if lines[i].cookie.site != q.site { return None; }
          ids := ids + {lines[i].cookie.id};
        }
        i := i + 1;
      }
      assert lines[..i] == lines;
      if |ids| > MOST_IDENTITIES { return None; }
      var named := Named(SiteRows(rows, q.site), ids);
      if exists id :: id in named && named[id].expires.Some?
                      && (named[id].expires.value <= now || v.nextExpiry.None? || named[id].expires.value < v.nextExpiry.value)
      {
        return None;
      }
      if |named| > v.count { return None; }
      return Some(v);
    }

    /** The write that has found a certificate. */
    method WriteCertified(q: Request, lines: seq<Parsed>, now: Time, proof: SiteUsage, ghost scan: Draft)
      returns (ok: bool, outcome: Outcome)
      requires Valid() && q.sizeOf == world.sizeOf && WellParsed(world, lines)
      requires proof in View().proofs && MayCertify(View(), q, lines, now, proof)
      requires ScanStart(SiteRows(rows, q.site), scan, q, now)
      modifies this
      ensures Valid() && (!ok ==> View() == old(View()) && siteUsageProofs == old(siteUsageProofs))
      ensures old(True()) ==>
        var r := ScanWrite(old(View()), q, lines, now, scan, limits);
        (ok <==> r.Done?) && (ok ==> outcome == r.outcome && View().(proofs := {}) == r.jar.(proofs := {}) && True())
    {
      hide Inv, ScanStart, Commit, SiteRows, Named, Lines, CertificateStart, Rooted, MayCertify, WellParsed, ScanWrite;
      ghost var jar := View();
      if True() {
        InvIs(world, jar);
        CertificateWriteIsScanWrite(world, jar, q, lines, now, proof, scan, limits);
        CertificateWriteKeeps(world, jar, q, lines, now, proof, scan, limits);
      }
      var named := Named(SiteRows(rows, q.site), Ids(lines));
      var d := ApplyLines(CertificateStart(named, proof), lines, q, now);
      CertificateRooted(world, rows, named, proof, lines, q, now);
      ok, outcome := CommitDraft(q, d, proof.count, proof.bytes);
      CommittedRows(jar, q, d, proof.count, proof.bytes, limits);
      if ok && Inv(world, jar) {
        FewerCertificates(world, CertificateWrite(jar, q, lines, now, proof, limits).jar, View());
      }
    }

    /** The write that scans its site, and can reclaim what has expired. */
    method WriteScanned(q: Request, lines: seq<Parsed>, now: Time) returns (ok: bool, outcome: Outcome, ghost scan: Draft)
      requires Valid() && q.sizeOf == world.sizeOf && WellParsed(world, lines)
      modifies this
      ensures Valid() && ScanStart(SiteRows(old(rows), q.site), scan, q, now) && (!ok ==> View() == old(View()))
      ensures var r := ScanWrite(old(View()), q, lines, now, scan, limits);
        (ok <==> r.Done?) && (ok ==> outcome == r.outcome && View().(proofs := {}) == r.jar.(proofs := {}))
      ensures old(True()) && Domestic(world, old(View()), Lines(scan, lines, q, now), q.site) ==> True()
      ensures Homely(lines, q.site) ==> Domestic(world, old(View()), Lines(scan, lines, q, now), q.site)
    {
      hide Inv, ScanStart, Commit, SiteRows, Lines, Rooted, Domestic, WellParsed, Homely;
      ghost var jar := View();
      ById(world, rows, q.site);
      var scanned, count, bytes;
      scanned, count, bytes, scan := DraftByScan(q, lines, now);
      ScanDrafts(world, jar, q, lines, now, scan);
      WrittenRooted(world, rows, scanned.journal);
      ok, outcome := CommitDraft(q, scanned, count, bytes);
      CommittedRows(jar, q, scanned, count, bytes, limits);
      if Homely(lines, q.site) { HomelyIsDomestic(world, jar, q, lines, now, scan); }
      if ok && Inv(world, jar) && Domestic(world, jar, Lines(scan, lines, q, now), q.site) {
        ScanWriteKeepsIff(world, jar, q, lines, now, scan, limits);
        FewerCertificates(world, ScanWrite(jar, q, lines, now, scan, limits).jar, View());
      }
    }

    /** A cookie write. While usage row and certificates are exact it does what a scan of the site would do, whichever
        way it goes; and they stay exact if the lines set cookies of the request's site only, or else if the write is
        domestic. A write that fails changes nothing. */
    method Write(q: Request, lines: seq<Parsed>, now: Time) returns (ok: bool, outcome: Outcome, ghost scan: Draft)
      requires Valid() && q.sizeOf == world.sizeOf && WellParsed(world, lines)
      modifies this
      ensures Valid() && ScanStart(SiteRows(old(rows), q.site), scan, q, now)
      ensures old(True()) ==>
        var r := ScanWrite(old(View()), q, lines, now, scan, limits);
        (ok <==> r.Done?) && (ok ==> outcome == r.outcome && View().(proofs := {}) == r.jar.(proofs := {}))
      ensures old(True()) && (Homely(lines, q.site) || Domestic(world, old(View()), Lines(scan, lines, q, now), q.site))
        ==> True()
      ensures !ok ==> View() == old(View())
    {
      hide Inv, ScanStart, SiteRows, Lines, Rooted, Domestic, Homely, MayCertify, ScanWrite, WellParsed;
      ById(world, rows, q.site);
      scan := ScanExists(SiteRows(rows, q.site), q, now);
      var proof := FindProof(q, lines, now);
      if proof.Some? {
        ok, outcome := WriteCertified(q, lines, now, proof.value, scan);
        if ok { return; }
      }
      ok, outcome, scan := WriteScanned(q, lines, now);
    }
  }

  lemma CommittedRows(jar: Jar, q: Request, d: Draft, count: int, bytes: int, limits: Limits)
    ensures var r := Commit(jar, q, d, count, bytes, limits); r.Done? ==> r.jar.rows == Written(jar.rows, d.journal)
  {
    hide Written;
  }

  lemma ById(world: World, rows: Rows, site: Site)
    requires Rooted(world, rows)
    ensures forall id :: id in SiteRows(rows, site) ==> SiteRows(rows, site)[id].id == id
  {
  }

  lemma CertificateRooted(world: World, rows: Rows, named: Rows, proof: SiteUsage, lines: seq<Parsed>, q: Request,
                          now: Time)
    requires Rooted(world, rows) && WellParsed(world, lines)
    ensures Rooted(world, Written(rows, Lines(CertificateStart(named, proof), lines, q, now).journal))
  {
    LinesRooted(world, CertificateStart(named, proof), lines, q, now);
    WrittenRooted(world, rows, Lines(CertificateStart(named, proof), lines, q, now).journal);
  }

  lemma FewerCertificates(world: World, jar: Jar, jar': Jar)
    requires Inv(world, jar) && jar'.(proofs := {}) == jar.(proofs := {}) && jar'.proofs <= jar.proofs
    ensures Inv(world, jar')
  {
  }

  lemma FewerProofs(proofs: map<Site, SiteUsage>, site: Site)
    ensures |proofs - {site}| == |proofs| - if site in proofs then 1 else 0
  {
    if site in proofs { Shrinks(proofs, site); } else { assert proofs - {site} == proofs; }
  }

  lemma SomeProof(proofs: map<Site, SiteUsage>)
    ensures |proofs| == 0 || exists site :: site in proofs
  {
    assert (forall site :: site !in proofs) ==> proofs == map[];
  }

  lemma IdsGrow(lines: seq<Parsed>, i: nat)
    requires i < |lines|
    ensures Ids(lines[..i + 1]) == Ids(lines[..i]) + if lines[i].Accepted? then {lines[i].cookie.id} else {}
  {
    var init, more := lines[..i], lines[..i + 1];
    assert more == init + [lines[i]];
    forall id | id in Ids(init)
      ensures id in Ids(more)
    {
      var j :| 0 <= j < |init| && init[j].Accepted? && init[j].cookie.id == id;
      assert more[j] == init[j];
    }
    if lines[i].Accepted? { assert more[i].cookie.id in Ids(more); }
  }
}
