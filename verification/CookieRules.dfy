/** What a cookie write is told to respect and what it leaves stored (runtime/local-cookie-jar-v2.ts): which lines are
    refused for what is stored, and what each line that is taken does to the rows. */
module CookieRules {
  import opened Collections
  import opened CookieWrites
  import opened CookieJar

  /** The rows and answers after the first k lines. */
  function After(start: Draft, lines: seq<Parsed>, k: nat, q: Request, now: Time): Draft
    requires k <= |lines|
  {
    Lines(start, lines[..k], q, now)
  }

  lemma AfterOneMore(start: Draft, lines: seq<Parsed>, k: nat, q: Request, now: Time)
    requires k < |lines|
    ensures After(start, lines, k + 1, q, now) == Line(After(start, lines, k, q, now), lines[k], q, now)
  {
    assert lines[..k + 1][..k] == lines[..k];
  }

  lemma AfterAll(start: Draft, lines: seq<Parsed>, q: Request, now: Time)
    ensures After(start, lines, 0, q, now) == start && After(start, lines, |lines|, q, now) == Lines(start, lines, q, now)
  {
    assert lines[..|lines|] == lines;
  }

  /** Line k gives one more reason and changes nothing. */
  predicate RefusedFor(start: Draft, lines: seq<Parsed>, k: nat, q: Request, now: Time, reason: Reason)
    requires k < |lines|
  {
    var before := After(start, lines, k, q, now);
    After(start, lines, k + 1, q, now) == before.(rejected := before.rejected + [reason])
  }

  /** Line k names a cookie and is counted as accepted. */
  predicate Taken(start: Draft, lines: seq<Parsed>, k: nat, q: Request, now: Time)
    requires k < |lines|
  {
    lines[k].Accepted? && After(start, lines, k + 1, q, now).accepted == After(start, lines, k, q, now).accepted + 1
  }

  predicate Hidden(all: Rows, c: Cookie, q: Request) { !q.fromHTTP && c.id in all && all[c.id].httpOnly }

  predicate Covered(all: Rows, c: Cookie, q: Request) {
    !q.secureTransport && !c.secure && exists id :: id in all && all[id].secure && q.overlays(all[id], c)
  }

  /** Every line is answered once: it is taken exactly if it was parsed, its cookie is not hidden from the writer, and
      it covers no secure one; else its reason is given. */
  lemma LineAnswered(start: Draft, lines: seq<Parsed>, k: nat, q: Request, now: Time)
    requires k < |lines|
    ensures var (all, line) := (After(start, lines, k, q, now).all, lines[k]);
      (Taken(start, lines, k, q, now)
       <==> line.Accepted? && !Hidden(all, line.cookie, q) && !Covered(all, line.cookie, q))
      && (line.Rejected? ==> RefusedFor(start, lines, k, q, now, line.reason))
      && (line.Accepted? && Hidden(all, line.cookie, q) ==>
            RefusedFor(start, lines, k, q, now, "cookie_httponly_overwrite_denied"))
      && (line.Accepted? && !Hidden(all, line.cookie, q) && Covered(all, line.cookie, q) ==>
            RefusedFor(start, lines, k, q, now, "cookie_secure_overlay_denied"))
      && (Taken(start, lines, k, q, now) ==>
            After(start, lines, k + 1, q, now).rejected == After(start, lines, k, q, now).rejected)
  {
    AfterOneMore(start, lines, k, q, now);
    hide After, SameState, Earlier;
  }

  lemma {:induction false} AnswersAreCounted(start: Draft, lines: seq<Parsed>, q: Request, now: Time)
    ensures var d := Lines(start, lines, q, now);
      d.accepted + |d.rejected| == start.accepted + |start.rejected| + |lines|
    decreases |lines|
  {
    if lines != [] { AnswersAreCounted(start, lines[..|lines| - 1], q, now); }
  }

  // ---------------------------------------------------------------- what one line does to the rows

  /** A line that is taken leaves its cookie under its identity, or nothing if it has expired; a cookie that was there
      passes its time of creation on. All other rows stay, and a line that is not taken changes none. */
  lemma LineLeaves(start: Draft, lines: seq<Parsed>, k: nat, q: Request, now: Time, id: Id)
    requires k < |lines|
    ensures var (was, all) := (After(start, lines, k, q, now).all, After(start, lines, k + 1, q, now).all);
      if Taken(start, lines, k, q, now) && lines[k].cookie.id == id then
        var c := lines[k].cookie;
        (id in all <==> !Expired(c, now))
        && (id in all ==> SameButTimes(all[id], c) && all[id].created == if id in was then was[id].created else c.created)
      else (id in all <==> id in was) && (id in all ==> all[id] == was[id])
  {
    AfterOneMore(start, lines, k, q, now);
    LineAnswered(start, lines, k, q, now);
    hide After, Earlier, Overlaid;
  }

  /** Everything a line says of a cookie, but not when it was made and used. */
  predicate SameButTimes(a: Cookie, b: Cookie) {
    a.id == b.id && a.site == b.site && a.body == b.body && a.secure == b.secure && a.httpOnly == b.httpOnly
    && a.partition == b.partition && a.sessionId == b.sessionId && a.expires == b.expires
  }

  /** The document is told of a taken line's cookie as it is stored, or of its deletion. */
  lemma LineTells(start: Draft, lines: seq<Parsed>, k: nat, q: Request, now: Time)
    requires k < |lines| && Taken(start, lines, k, q, now)
    requires forall id :: id in After(start, lines, k, q, now).all ==> After(start, lines, k, q, now).all[id].id == id
    ensures var (before, after, c) := (After(start, lines, k, q, now), After(start, lines, k + 1, q, now), lines[k].cookie);
      if Expired(c, now) then after.changes == before.changes + [Delete(c)]
      else c.id in after.all && after.changes == before.changes + [Set(after.all[c.id])]
  {
    AfterOneMore(start, lines, k, q, now);
    LineAnswered(start, lines, k, q, now);
    hide After, Earlier, Overlaid;
  }

  // ---------------------------------------------------------------- all the lines of a write

  /** The last word on an identity: what the last line taken for it says is what is stored in the end. */
  lemma {:induction false} LastWord(start: Draft, lines: seq<Parsed>, k: nat, n: nat, q: Request, now: Time)
    requires k < n <= |lines| && Taken(start, lines, k, q, now)
    requires forall j :: k < j < n && Taken(start, lines, j, q, now) ==> lines[j].cookie.id != lines[k].cookie.id
    ensures var (c, all) := (lines[k].cookie, After(start, lines, n, q, now).all);
      (c.id in all <==> !Expired(c, now)) && (c.id in all ==> SameButTimes(all[c.id], c))
    decreases n
  {
    hide After, Taken, Expired, SameButTimes;
    LineAnswered(start, lines, k, q, now);
    if n == k + 1 {
      LineLeaves(start, lines, k, q, now, lines[k].cookie.id);
    } else {
      LastWord(start, lines, k, n - 1, q, now);
      LineLeaves(start, lines, n - 1, q, now, lines[k].cookie.id);
    }
  }

  /** What no taken line names stays as it was. */
  lemma {:induction false} UnnamedStay(start: Draft, lines: seq<Parsed>, n: nat, q: Request, now: Time, id: Id)
    requires n <= |lines|
    requires forall j :: 0 <= j < n && Taken(start, lines, j, q, now) ==> lines[j].cookie.id != id
    ensures var all := After(start, lines, n, q, now).all;
      (id in all <==> id in start.all) && (id in all ==> all[id] == start.all[id])
  {
    if n == 0 {
      AfterAll(start, lines, q, now);
    } else {
      hide After, Taken;
      UnnamedStay(start, lines, n - 1, q, now, id);
      LineAnswered(start, lines, n - 1, q, now);
      LineLeaves(start, lines, n - 1, q, now, id);
    }
  }

  /** A cookie that is replaced, however often, keeps the time it was first made, unless a line takes it away in
      between. */
  lemma {:induction false} CreationIsKept(start: Draft, lines: seq<Parsed>, n: nat, q: Request, now: Time, id: Id)
    requires n <= |lines| && id in start.all
    requires forall j :: 0 <= j < n && lines[j].Accepted? && lines[j].cookie.id == id ==> !Expired(lines[j].cookie, now)
    ensures var all := After(start, lines, n, q, now).all; id in all && all[id].created == start.all[id].created
  {
    if n == 0 {
      AfterAll(start, lines, q, now);
    } else {
      hide After, Taken, Expired, SameButTimes;
      CreationIsKept(start, lines, n - 1, q, now, id);
      LineAnswered(start, lines, n - 1, q, now);
      LineLeaves(start, lines, n - 1, q, now, id);
    }
  }

  // ---------------------------------------------------------------- HttpOnly

  /** A document cannot touch an HttpOnly cookie: it stays as it was, and every line naming it is refused for that. */
  lemma {:induction false} HttpOnlyStays(start: Draft, lines: seq<Parsed>, n: nat, q: Request, now: Time, id: Id)
    requires n <= |lines| && !q.fromHTTP && id in start.all && start.all[id].httpOnly
    ensures var all := After(start, lines, n, q, now).all; id in all && all[id] == start.all[id]
    ensures forall k :: 0 <= k < n && lines[k].Accepted? && lines[k].cookie.id == id ==>
      RefusedFor(start, lines, k, q, now, "cookie_httponly_overwrite_denied")
  {
    if n == 0 {
      AfterAll(start, lines, q, now);
    } else {
      hide After, Taken, RefusedFor;
      HttpOnlyStays(start, lines, n - 1, q, now, id);
      LineAnswered(start, lines, n - 1, q, now);
      LineLeaves(start, lines, n - 1, q, now, id);
    }
  }

  // ---------------------------------------------------------------- the secure overlay

  /** Without a secure transport, a line that is not secure neither sets nor removes anything where it overlays a secure
      cookie. */
  lemma OverlayRefused(start: Draft, lines: seq<Parsed>, k: nat, q: Request, now: Time, id: Id)
    requires k < |lines| && !q.secureTransport && lines[k].Accepted? && !lines[k].cookie.secure
    requires var all := After(start, lines, k, q, now).all; id in all && all[id].secure && q.overlays(all[id], lines[k].cookie)
    ensures !Taken(start, lines, k, q, now) && After(start, lines, k + 1, q, now).all == After(start, lines, k, q, now).all
    ensures After(start, lines, k + 1, q, now).journal == After(start, lines, k, q, now).journal
  {
    LineAnswered(start, lines, k, q, now);
  }

  /** Lines as parsing leaves them: without a secure transport none is secure. */
  predicate PlainLines(lines: seq<Parsed>) { forall i :: 0 <= i < |lines| && lines[i].Accepted? ==> !lines[i].cookie.secure }

  /** A cookie overlays the one it would replace. */
  ghost predicate OverlaysItself(q: Request) { forall a: Cookie, b: Cookie :: a.id == b.id ==> q.overlays(a, b) }

  /** So without a secure transport every secure cookie stays as it was, and every line that overlays one is refused. */
  lemma {:induction false} SecureStays(start: Draft, lines: seq<Parsed>, n: nat, q: Request, now: Time, id: Id)
    requires n <= |lines| && !q.secureTransport && PlainLines(lines) && OverlaysItself(q)
    requires id in start.all && start.all[id].secure && start.all[id].id == id
    ensures var all := After(start, lines, n, q, now).all; id in all && all[id] == start.all[id]
    ensures forall k :: 0 <= k < n && lines[k].Accepted? && q.overlays(start.all[id], lines[k].cookie) ==>
      !Taken(start, lines, k, q, now)
  {
    if n == 0 {
      AfterAll(start, lines, q, now);
    } else {
      SecureStays(start, lines, n - 1, q, now, id);
      LineAnswered(start, lines, n - 1, q, now);
      LineLeaves(start, lines, n - 1, q, now, id);
      hide After, Taken, RefusedFor;
      if lines[n - 1].Accepted? && q.overlays(start.all[id], lines[n - 1].cookie) {
        OverlayRefused(start, lines, n - 1, q, now, id);
      }
    }
  }

  // ---------------------------------------------------------------- the jar after a write

  /** A committed write stores the rows of its site that its lines leave, and of other sites leaves alone what no line
      sets. */
  lemma WriteStores(world: World, jar: Jar, q: Request, lines: seq<Parsed>, now: Time, scan: Draft, limits: Limits, id: Id)
    requires Rooted(world, jar.rows) && Scans(world, jar, q, lines, now, scan)
    requires ScanWrite(jar, q, lines, now, scan, limits).Done?
    ensures var (all, rows) := (Lines(scan, lines, q, now).all, ScanWrite(jar, q, lines, now, scan, limits).jar.rows);
      if world.home(id) == q.site then (id in rows <==> id in all) && (id in rows ==> rows[id] == all[id])
      else !Sets(lines, id, now) ==> (id in rows <==> id in jar.rows) && (id in rows ==> rows[id] == jar.rows[id])
  {
    var d := Lines(scan, lines, q, now);
    ScanDrafts(world, jar, q, lines, now, scan);
    WrittenSplits(world, jar.rows, d.journal, q.site);
    WrittenOver(jar.rows, jar.rows, d.journal, id);
    if world.home(id) != q.site {
      ScanHasNoStranger(world, jar, q, now, scan, id);
      LinesName(scan, lines, q, now, id);
    }
    var next := Written(jar.rows, d.journal);
    hide Lines, Written, Sets, Journalled, ScanStart, Scans;
    assert id in Natives(world, d.all, q.site) <==> id in SiteRows(next, q.site);
    assert id in SiteRows(next, q.site) ==> SiteRows(next, q.site)[id] == Natives(world, d.all, q.site)[id];
  }

  lemma ScanKeepsLive(world: World, jar: Jar, q: Request, lines: seq<Parsed>, now: Time, scan: Draft, id: Id)
    requires Rooted(world, jar.rows) && Scans(world, jar, q, lines, now, scan)
    requires id in jar.rows && jar.rows[id].site == q.site && !Expired(jar.rows[id], now)
    ensures id in scan.all && scan.all[id] == jar.rows[id] && jar.rows[id].id == id && world.home(id) == q.site
  {
  }

  /** Whatever a document writes, the live HttpOnly cookies of its site are stored after it as they were before. */
  lemma DocumentsKeepHttpOnly(world: World, jar: Jar, q: Request, lines: seq<Parsed>, now: Time, scan: Draft,
                              limits: Limits, id: Id)
    requires Rooted(world, jar.rows) && Scans(world, jar, q, lines, now, scan)
    requires ScanWrite(jar, q, lines, now, scan, limits).Done? && !q.fromHTTP
    requires id in jar.rows && jar.rows[id].site == q.site && !Expired(jar.rows[id], now) && jar.rows[id].httpOnly
    ensures var rows := ScanWrite(jar, q, lines, now, scan, limits).jar.rows; id in rows && rows[id] == jar.rows[id]
  {
    hide *;
    ScanKeepsLive(world, jar, q, lines, now, scan, id);
    AfterAll(scan, lines, q, now);
    HttpOnlyStays(scan, lines, |lines|, q, now, id);
    WriteStores(world, jar, q, lines, now, scan, limits, id);
  }

  /** Whatever is written without a secure transport, the live secure cookies of the site are stored after it as they
      were before. */
  lemma PlainWritesKeepSecure(world: World, jar: Jar, q: Request, lines: seq<Parsed>, now: Time, scan: Draft,
                              limits: Limits, id: Id)
    requires Rooted(world, jar.rows) && Scans(world, jar, q, lines, now, scan)
    requires ScanWrite(jar, q, lines, now, scan, limits).Done?
    requires !q.secureTransport && PlainLines(lines) && OverlaysItself(q)
    requires id in jar.rows && jar.rows[id].site == q.site && !Expired(jar.rows[id], now) && jar.rows[id].secure
    ensures var rows := ScanWrite(jar, q, lines, now, scan, limits).jar.rows; id in rows && rows[id] == jar.rows[id]
  {
    hide *;
    ScanKeepsLive(world, jar, q, lines, now, scan, id);
    AfterAll(scan, lines, q, now);
    SecureStays(scan, lines, |lines|, q, now, id);
    WriteStores(world, jar, q, lines, now, scan, limits, id);
  }

  // ---------------------------------------------------------------- the quotas

  /** What a write of exact figures is refused for: the jar, or the site in it, would be too large. */
  lemma OverQuotaIff(world: World, jar: Jar, q: Request, lines: seq<Parsed>, now: Time, scan: Draft, limits: Limits)
    requires Inv(world, jar) && Scans(world, jar, q, lines, now, scan)
    requires Domestic(world, jar, Lines(scan, lines, q, now), q.site)
    ensures var rows := Written(jar.rows, Lines(scan, lines, q, now).journal);
      ScanWrite(jar, q, lines, now, scan, limits).OverQuota?
      <==> |rows| > limits.maxCookies || Total(rows, world.sizeOf) > limits.maxBytes
           || |SiteRows(rows, q.site)| > limits.maxCookiesPerSite
  {
    var d := Lines(scan, lines, q, now);
    ScanDrafts(world, jar, q, lines, now, scan);
    FiguresAdd(world, jar.rows, d.journal, q.site);
    hide Lines, Written, SiteRows, Lost, Strangers, Rooted, ScanStart, RootedJournal, NotAfter;
    NoRows(Lost(jar.rows, d.journal, q.site), world.sizeOf);
    NoRows(Strangers(world, d.all, q.site), world.sizeOf);
  }
}
