/** A cookie write (runtime/local-cookie-jar-v2.ts): the rows of a site folded with the lines of a response, from a
    full scan of the site or from the rows the lines name and a certificate of the rest. */
module CookieWrites {
  import opened Collections

  type Id(!new, ==) = string
  type Site(!new, ==) = string
  type Reason(!new, ==) = string
  type Time = int

  /** `body` is the name, value, domain, path and SameSite of the cookie. */
  datatype Cookie = Cookie(id: Id, site: Site, body: string, secure: bool, httpOnly: bool, partition: Option<string>,
                           sessionId: Option<string>, expires: Option<Time>, created: Time, accessed: Time)

  /** What parsing a line gives. */
  datatype Parsed = Rejected(reason: Reason) | Accepted(cookie: Cookie)

  datatype Change = Set(cookie: Cookie) | Delete(cookie: Cookie)

  /** What a write is told by its request: its site, whether it came over HTTP, whether its transport is secure,
      which stored cookies a new one may not overlay, and how many bytes a cookie takes. */
  datatype Request = Request(site: Site, fromHTTP: bool, secureTransport: bool, overlays: (Cookie, Cookie) -> bool,
                             sizeOf: Cookie -> nat)

  type Rows = map<Id, Cookie>

  predicate Expired(c: Cookie, now: Time) { c.expires.Some? && c.expires.value <= now }

  /** Equal except for the two bookkeeping times. */
  predicate SameState(a: Cookie, b: Cookie) { a == b.(created := a.created, accessed := a.accessed) }

  function Earlier(a: Option<Time>, b: Option<Time>): Option<Time> {
    if b.None? then a else if a.None? || b.value < a.value then b else a
  }

  /** No expiry in the rows is before `next`. */
  predicate NotAfter(next: Option<Time>, rows: Rows) {
    forall id :: id in rows && rows[id].expires.Some? ==> next.Some? && next.value <= rows[id].expires.value
  }

  // ---------------------------------------------------------------- the fold

  datatype Draft = Draft(all: Rows, count: int, size: int, nextExpiry: Option<Time>, journal: seq<Change>,
                         accepted: nat, rejected: seq<Reason>, changes: seq<Change>)

  const HTTP_ONLY: Reason := "cookie_httponly_overwrite_denied"
  const OVERLAY: Reason := "cookie_secure_overlay_denied"

  predicate Overlaid(all: Rows, c: Cookie, q: Request) {
    exists id :: id in all && all[id].secure && q.overlays(all[id], c)
  }

  function Previous(all: Rows, id: Id): Option<Cookie> { if id in all then Some(all[id]) else None }

  /** One accepted cookie that is not refused for what is stored. */
  function Stored(d: Draft, parsed: Cookie, q: Request, now: Time): Draft {
    var previous := Previous(d.all, parsed.id);
    if Expired(parsed, now) then
      var noted := d.(accepted := d.accepted + 1, changes := d.changes + [Delete(parsed)]);
      if previous.None? then noted
      else noted.(all := d.all - {parsed.id}, count := d.count - 1, size := d.size - q.sizeOf(previous.value),
                  journal := d.journal + [Delete(parsed)])
    else
      var c := if previous.Some? then parsed.(created := previous.value.created) else parsed;
      if previous.Some? && SameState(previous.value, c)
      then d.(accepted := d.accepted + 1, changes := d.changes + [Set(previous.value)])
      else
        d.(accepted := d.accepted + 1,
           count := d.count + (if previous.Some? then 0 else 1),
           size := d.size + q.sizeOf(c) - (if previous.Some? then q.sizeOf(previous.value) else 0),
           nextExpiry := Earlier(d.nextExpiry, c.expires),
           all := d.all[c.id := c], changes := d.changes + [Set(c)], journal := d.journal + [Set(c)])
  }

  function Line(d: Draft, parsed: Parsed, q: Request, now: Time): Draft {
    match parsed
    case Rejected(reason) => d.(rejected := d.rejected + [reason])
    case Accepted(c) =>
      var previous := Previous(d.all, c.id);
      if !q.fromHTTP && previous.Some? && previous.value.httpOnly then d.(rejected := d.rejected + [HTTP_ONLY])
      else if !q.secureTransport && !c.secure && Overlaid(d.all, c, q) then d.(rejected := d.rejected + [OVERLAY])
      else Stored(d, c, q, now)
  }

  function Lines(d: Draft, lines: seq<Parsed>, q: Request, now: Time): Draft {
    if lines == [] then d else Line(Lines(d, lines[..|lines| - 1], q, now), lines[|lines| - 1], q, now)
  }

  ghost function SizeOfAll(rows: Rows, q: Request): nat { Total(rows, q.sizeOf) }

  // ---------------------------------------------------------------- the two ways in

  datatype SiteUsage = SiteUsage(site: Site, revision: nat, count: nat, bytes: nat, nextExpiry: Option<Time>)

  /** The draft a scan starts from: the live rows of the site, the expired ones taken out and journalled in the order
      the scan met them. */
  ghost predicate ScanStart(rows: Rows, d: Draft, q: Request, now: Time) {
    d.all == (map id | id in rows && !Expired(rows[id], now) :: rows[id])
    && d.count == |d.all| && d.size == SizeOfAll(d.all, q) && NotAfter(d.nextExpiry, d.all)
    && d.accepted == 0 && d.rejected == [] && d.changes == []
    && (forall c :: c in d.journal <==> c.Delete? && c.cookie.id in rows && rows[c.cookie.id] == c.cookie
                                        && Expired(c.cookie, now))
    && |d.journal| == |rows| - |d.all|
  }

  /** The draft a certificate starts from: the rows the lines name. */
  function CertificateStart(named: Rows, proof: SiteUsage): Draft {
    Draft(named, proof.count, proof.bytes, proof.nextExpiry, [], 0, [], [])
  }

  /** A certificate that tells the truth about a site's rows. */
  ghost predicate Certifies(proof: SiteUsage, rows: Rows, q: Request) {
    proof.count == |rows| && proof.bytes == SizeOfAll(rows, q) && NotAfter(proof.nextExpiry, rows)
  }

  function Ids(lines: seq<Parsed>): set<Id> {
    set i | 0 <= i < |lines| && lines[i].Accepted? :: lines[i].cookie.id
  }

  function Named(rows: Rows, ids: set<Id>): Rows { map id | id in rows && id in ids :: rows[id] }

  // ---------------------------------------------------------------- refinement

  /** Two drafts that agree on the named rows and on everything the write reports, except the earliest expiry. */
  ghost predicate Agree(c: Draft, s: Draft, ids: set<Id>) {
    c.all == Named(s.all, ids) && c.count == s.count && c.size == s.size && c.journal == s.journal
    && c.accepted == s.accepted && c.rejected == s.rejected && c.changes == s.changes
  }

  lemma LineAgrees(c: Draft, s: Draft, parsed: Parsed, ids: set<Id>, q: Request, now: Time)
    requires Agree(c, s, ids) && q.secureTransport && (parsed.Accepted? ==> parsed.cookie.id in ids)
    ensures Agree(Line(c, parsed, q, now), Line(s, parsed, q, now), ids)
  {
    if parsed.Accepted? {
      assert Previous(c.all, parsed.cookie.id) == Previous(s.all, parsed.cookie.id);
      var c', s' := Stored(c, parsed.cookie, q, now), Stored(s, parsed.cookie, q, now);
      assert c'.all == Named(s'.all, ids);
    }
  }

  lemma {:induction false} LinesAgree(c: Draft, s: Draft, lines: seq<Parsed>, ids: set<Id>, q: Request, now: Time)
    requires Agree(c, s, ids) && q.secureTransport && Ids(lines) <= ids
    ensures Agree(Lines(c, lines, q, now), Lines(s, lines, q, now), ids)
    decreases |lines|
  {
    if lines != [] {
      var init, last := lines[..|lines| - 1], lines[|lines| - 1];
      assert Ids(init) <= Ids(lines);
      assert last.Accepted? ==> last.cookie.id in Ids(lines);
      LinesAgree(c, s, init, ids, q, now);
      LineAgrees(Lines(c, init, q, now), Lines(s, init, q, now), last, ids, q, now);
    }
  }

  /** With a truthful certificate and nothing expired, looking up the named rows is as good as scanning the site. */
  lemma CertificateRefinesScan(rows: Rows, proof: SiteUsage, scan: Draft, lines: seq<Parsed>, q: Request, now: Time)
    requires Certifies(proof, rows, q) && q.secureTransport && (proof.nextExpiry.Some? ==> proof.nextExpiry.value > now)
    requires ScanStart(rows, scan, q, now)
    ensures Agree(Lines(CertificateStart(Named(rows, Ids(lines)), proof), lines, q, now), Lines(scan, lines, q, now),
                  Ids(lines))
  {
    assert forall id :: id in rows ==> !Expired(rows[id], now);
    assert scan.all == rows;
    assert scan.journal == [];
    LinesAgree(CertificateStart(Named(rows, Ids(lines)), proof), scan, lines, Ids(lines), q, now);
  }

  // ---------------------------------------------------------------- what a write keeps

  /** The rows once a journal has been written. */
  function Written(rows: Rows, journal: seq<Change>): Rows {
    if journal == [] then rows
    else
      var before := Written(rows, journal[..|journal| - 1]);
      match journal[|journal| - 1]
      case Set(c) => before[c.id := c]
      case Delete(c) => before - {c.id}
  }

  /** A scan's draft: its rows are the stored ones with its journal written, and its figures are theirs. */
  ghost predicate Sound(rows: Rows, d: Draft, q: Request) {
    d.all == Written(rows, d.journal) && d.count == |d.all| && d.size == SizeOfAll(d.all, q)
    && NotAfter(d.nextExpiry, d.all)
  }

  lemma WrittenGrows(rows: Rows, journal: seq<Change>, change: Change)
    ensures change.Set? ==> Written(rows, journal + [change]) == Written(rows, journal)[change.cookie.id := change.cookie]
    ensures change.Delete? ==> Written(rows, journal + [change]) == Written(rows, journal) - {change.cookie.id}
  {
    assert (journal + [change])[..|journal|] == journal;
  }

  lemma StoredSound(rows: Rows, d: Draft, c: Cookie, q: Request, now: Time)
    requires Sound(rows, d, q)
    ensures Sound(rows, Stored(d, c, q, now), q)
  {
    if Expired(c, now) {
      if c.id in d.all { RemovedSound(rows, d, c, q, now); }
    } else {
      PutSound(rows, d, c, q, now);
    }
  }

  lemma RemovedSound(rows: Rows, d: Draft, c: Cookie, q: Request, now: Time)
    requires Sound(rows, d, q) && Expired(c, now) && c.id in d.all
    ensures Sound(rows, Stored(d, c, q, now), q)
  {
    hide Written, SameState, Earlier;
    WrittenGrows(rows, d.journal, Delete(c));
    TotalRemove(d.all, q.sizeOf, c.id);
    Shrinks(d.all, c.id);
  }

  lemma PutFigures(all: Rows, c: Cookie, q: Request)
    ensures SizeOfAll(all[c.id := c], q)
      == SizeOfAll(all, q) + q.sizeOf(c) - (if c.id in all then q.sizeOf(all[c.id]) else 0)
    ensures |all[c.id := c]| == |all| + if c.id in all then 0 else 1
  {
    TotalPut(all, q.sizeOf, c.id, c);
    if c.id in all {
      assert all[c.id := c].Keys == all.Keys;
    } else {
      assert all[c.id := c].Keys == all.Keys + {c.id};
    }
  }

  lemma PutEarly(all: Rows, next: Option<Time>, c: Cookie)
    requires NotAfter(next, all)
    ensures NotAfter(Earlier(next, c.expires), all[c.id := c])
  {
  }

  lemma PutSound(rows: Rows, d: Draft, c: Cookie, q: Request, now: Time)
    requires Sound(rows, d, q) && !Expired(c, now)
    ensures Sound(rows, Stored(d, c, q, now), q)
  {
    hide Written, SameState, SizeOfAll, NotAfter, Earlier;
    var previous := Previous(d.all, c.id);
    var c' := if previous.Some? then c.(created := previous.value.created) else c;
    WrittenGrows(rows, d.journal, Set(c'));
    PutFigures(d.all, c', q);
    PutEarly(d.all, d.nextExpiry, c');
  }

  lemma {:induction false} LinesSound(rows: Rows, d: Draft, lines: seq<Parsed>, q: Request, now: Time)
    requires Sound(rows, d, q)
    ensures Sound(rows, Lines(d, lines, q, now), q)
    decreases |lines|
  {
    if lines != [] {
      LinesSound(rows, d, lines[..|lines| - 1], q, now);
      var last := lines[|lines| - 1];
      if last.Accepted? {
        StoredSound(rows, Lines(d, lines[..|lines| - 1], q, now), last.cookie, q, now);
      }
    }
  }

  predicate Mentions(journal: seq<Change>, id: Id) { exists i :: 0 <= i < |journal| && journal[i].cookie.id == id }

  lemma {:induction false} DeletesWritten(rows: Rows, journal: seq<Change>)
    requires forall c :: c in journal ==> c.Delete?
    ensures Written(rows, journal) == map id | id in rows && !Mentions(journal, id) :: rows[id]
    decreases |journal|
  {
    if journal == [] {
    } else {
      var init, last := journal[..|journal| - 1], journal[|journal| - 1];
      DeletesWritten(rows, init);
      forall id
        ensures Mentions(journal, id) <==> Mentions(init, id) || last.cookie.id == id
      {
        if Mentions(init, id) {
          var i :| 0 <= i < |init| && init[i].cookie.id == id;
          assert journal[i].cookie.id == id;
        }
        assert last == journal[|journal| - 1];
      }
      assert last in journal && last.Delete?;
      assert Written(rows, journal) == Written(rows, init) - {last.cookie.id};
    }
  }

  lemma ScanStartSound(rows: Rows, d: Draft, q: Request, now: Time)
    requires ScanStart(rows, d, q, now)
    requires forall id :: id in rows ==> rows[id].id == id
    ensures Sound(rows, d, q)
  {
    DeletesWritten(rows, d.journal);
    forall id
      ensures id in d.all <==> id in Written(rows, d.journal)
    {
      if id in rows && Expired(rows[id], now) {
        assert Delete(rows[id]) in d.journal;
        var i :| 0 <= i < |d.journal| && d.journal[i] == Delete(rows[id]);
        assert d.journal[i].cookie.id == id;
      }
    }
  }

  /** A write's figures are those of the rows it leaves: its certificate will be truthful. */
  lemma ScanCertifies(rows: Rows, d: Draft, lines: seq<Parsed>, q: Request, now: Time)
    requires ScanStart(rows, d, q, now) && forall id :: id in rows ==> rows[id].id == id
    ensures Sound(rows, Lines(d, lines, q, now), q)
  {
    ScanStartSound(rows, d, q, now);
    LinesSound(rows, d, lines, q, now);
  }

  /** The earliest expiry a certificate is handed on with stays early enough, though fewer rows were seen. */
  lemma {:induction false} CertificateStaysEarly(c: Draft, s: Draft, lines: seq<Parsed>, ids: set<Id>, q: Request,
                                                 now: Time)
    requires Agree(c, s, ids) && q.secureTransport && Ids(lines) <= ids && NotAfter(c.nextExpiry, s.all)
    ensures NotAfter(Lines(c, lines, q, now).nextExpiry, Lines(s, lines, q, now).all)
    decreases |lines|
  {
    if lines != [] {
      var init, last := lines[..|lines| - 1], lines[|lines| - 1];
      assert Ids(init) <= Ids(lines);
      assert last.Accepted? ==> last.cookie.id in Ids(lines);
      CertificateStaysEarly(c, s, init, ids, q, now);
      LinesAgree(c, s, init, ids, q, now);
      LineStaysEarly(Lines(c, init, q, now), Lines(s, init, q, now), last, ids, q, now);
    }
  }

  lemma LineStaysEarly(c: Draft, s: Draft, parsed: Parsed, ids: set<Id>, q: Request, now: Time)
    requires Agree(c, s, ids) && q.secureTransport && (parsed.Accepted? ==> parsed.cookie.id in ids)
    requires NotAfter(c.nextExpiry, s.all)
    ensures NotAfter(Line(c, parsed, q, now).nextExpiry, Line(s, parsed, q, now).all)
  {
    if parsed.Accepted? {
      assert Previous(c.all, parsed.cookie.id) == Previous(s.all, parsed.cookie.id);
    }
  }
}
