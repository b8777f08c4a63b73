/** The sources handed out next: each tier is read in order, page by page, and the two share the places. */
module FairSelection {
  import opened Collections
  import opened FairSchedule

  const PAGE: nat := 64

  predicate CanServe(e: Entry, now: int) { e.nextEligibleAt <= now && e.described }

  function Eligible(rows: seq<Entry>, now: int): seq<Entry> {
    if rows == [] then []
    else
      var before := Eligible(rows[..|rows| - 1], now);
      if CanServe(rows[|rows| - 1], now) then before + [rows[|rows| - 1]] else before
  }

  function Min(a: int, b: int): int { if a < b then a else b }

  function First<T>(s: seq<T>, n: nat): seq<T> { s[..Min(n, |s|)] }
  function Rest<T>(s: seq<T>, n: nat): seq<T> { s[Min(n, |s|)..] }

  /** The places of tier 0; tier 1 has the others. */
  function Share(limit: nat): nat { (limit + 1) / 2 }

  function Merged(known: seq<Entry>, unknown: seq<Entry>, limit: nat): seq<Entry> {
    var share := Share(limit);
    First(First(known, share) + First(unknown, limit - share) + Rest(known, share) + Rest(unknown, limit - share), limit)
  }

  // ---------------------------------------------------------------- reading a tier

  lemma {:induction false} EligibleSplits(rows: seq<Entry>, k: nat, now: int)
    requires k <= |rows|
    ensures Eligible(rows[..k], now) <= Eligible(rows, now)
    decreases |rows|
  {
    if k < |rows| {
      assert rows[..|rows| - 1][..k] == rows[..k];
      EligibleSplits(rows[..|rows| - 1], k, now);
    } else {
      assert rows[..k] == rows;
    }
  }

  /** The reader of one tier: pages of 64 rows of its index, each picking up behind the last row of the one before,
      until there are enough rows or no more pages. */
  method ReadTier(index: seq<Entry>, limit: nat, now: int) returns (result: seq<Entry>)
    ensures limit > 0 ==> result == First(Eligible(index, now), limit)
    ensures limit == 0 ==> result == First(Eligible(index, now), 0) || (|result| == 1 && result[0] in index)
  {
    result := [];
    var at := 0;
    while true
      invariant at <= |index| && result == Eligible(index[..at], now)
      invariant |result| < limit || (limit == 0 && at == 0)
      decreases |index| - at
    {
      var page := if at + PAGE <= |index| then PAGE else |index| - at;
      var i := 0;
      while i < page
        invariant i <= page && at + page <= |index| && result == Eligible(index[..at + i], now)
        invariant |result| < limit || (limit == 0 && at + i == 0)
      {
        var row := index[at + i];
        assert index[..at + i + 1][..at + i] == index[..at + i];
        if CanServe(row, now) { result := result + [row]; }
        assert result == Eligible(index[..at + i + 1], now);
        if |result| >= limit {
          EligibleSplits(index, at + i + 1, now);
          return;
        }
        i := i + 1;
      }
      at := at + page;
      if page < PAGE {
        assert index[..at] == index;
        return;
      }
    }
  }

  /** fairSources. */
  method FairSources(known: seq<Entry>, unknown: seq<Entry>, limit: nat, now: int) returns (result: seq<Entry>)
    ensures result == Merged(First(Eligible(known, now), limit), First(Eligible(unknown, now), limit), limit)
  {
    var k := ReadTier(known, limit, now);
    var u := ReadTier(unknown, limit, now);
    result := Merged(k, u, limit);
  }

  // ---------------------------------------------------------------- who gets a place

  /** The four runs that are put one behind the other. */
  function Laid(k: seq<Entry>, u: seq<Entry>, limit: nat): seq<Entry> {
    First(k, Share(limit)) + First(u, limit - Share(limit)) + Rest(k, Share(limit)) + Rest(u, limit - Share(limit))
  }

  predicate Distinct(k: seq<Entry>, u: seq<Entry>) {
    (forall i, j :: 0 <= i < j < |k| ==> k[i] != k[j]) && (forall i, j :: 0 <= i < j < |u| ==> u[i] != u[j])
    && forall i, j :: 0 <= i < |k| && 0 <= j < |u| ==> k[i] != u[j]
  }

  function KnownAt(k: seq<Entry>, u: seq<Entry>, limit: nat, p: nat): nat {
    if p < Share(limit) then p else Min(limit - Share(limit), |u|) + p
  }

  function UnknownAt(k: seq<Entry>, u: seq<Entry>, limit: nat, q: nat): nat {
    if q < limit - Share(limit) then Min(Share(limit), |k|) + q else |k| + q
  }

  lemma LaidAt(k: seq<Entry>, u: seq<Entry>, limit: nat, i: nat)
    requires i < |Laid(k, u, limit)|
    ensures |Laid(k, u, limit)| == |k| + |u|
    ensures (exists p: nat :: p < |k| && i == KnownAt(k, u, limit, p) && Laid(k, u, limit)[i] == k[p])
            || exists q: nat :: q < |u| && i == UnknownAt(k, u, limit, q) && Laid(k, u, limit)[i] == u[q]
  {
    var share := Share(limit);
    var a, b := Min(share, |k|), Min(limit - share, |u|);
    if i < a {
      assert i == KnownAt(k, u, limit, i) && Laid(k, u, limit)[i] == k[i];
    } else if i < a + b {
      assert i == UnknownAt(k, u, limit, i - a) && Laid(k, u, limit)[i] == u[i - a];
    } else if i < b + |k| {
      assert i == KnownAt(k, u, limit, i - b) && Laid(k, u, limit)[i] == k[i - b];
    } else {
      assert i == UnknownAt(k, u, limit, i - |k|) && Laid(k, u, limit)[i] == u[i - |k|];
    }
  }

  lemma KnownHolds(k: seq<Entry>, u: seq<Entry>, limit: nat, p: nat)
    requires p < |k|
    ensures KnownAt(k, u, limit, p) < |k| + |u| == |Laid(k, u, limit)|
    ensures Laid(k, u, limit)[KnownAt(k, u, limit, p)] == k[p]
  {
    var share := Share(limit);
    var (A, B, C) := (First(k, share), First(u, limit - share), Rest(k, share));
    if p >= share {
      assert C[p - share] == k[p];
      assert (A + B + C)[|A| + |B| + (p - share)] == k[p];
    }
  }

  lemma UnknownHolds(k: seq<Entry>, u: seq<Entry>, limit: nat, q: nat)
    requires q < |u|
    ensures UnknownAt(k, u, limit, q) < |k| + |u| == |Laid(k, u, limit)|
    ensures Laid(k, u, limit)[UnknownAt(k, u, limit, q)] == u[q]
  {
    var share := Share(limit);
    var (A, B, C, D) := (First(k, share), First(u, limit - share), Rest(k, share), Rest(u, limit - share));
    if q >= limit - share {
      assert D[q - (limit - share)] == u[q];
      assert |A + B + C| == |k| + |B|;
      assert (A + B + C + D)[|A + B + C| + (q - (limit - share))] == u[q];
    } else {
      assert B[q] == u[q];
      assert (A + B)[|A| + q] == u[q];
    }
  }

  /** A known source has a place exactly when it is among the first half of the places in its tier, or in those the
      other tier leaves over. */
  lemma KnownHasPlaceIff(k: seq<Entry>, u: seq<Entry>, limit: nat, p: nat)
    requires Distinct(k, u) && p < |k|
    ensures k[p] in Merged(k, u, limit) <==> p < Share(limit) || Min(limit - Share(limit), |u|) + p < limit
  {
    KnownHolds(k, u, limit, p);
    var laid := Laid(k, u, limit);
    assert Merged(k, u, limit) == First(laid, limit);
    if k[p] in Merged(k, u, limit) {
      var i :| 0 <= i < |Merged(k, u, limit)| && Merged(k, u, limit)[i] == k[p];
      assert laid[i] == k[p];
      LaidAt(k, u, limit, i);
      assert i == KnownAt(k, u, limit, p);
    }
    if KnownAt(k, u, limit, p) < limit {
      assert Merged(k, u, limit)[KnownAt(k, u, limit, p)] == k[p];
    }
  }

  /** The same for a source that is to be probed. */
  lemma UnknownHasPlaceIff(k: seq<Entry>, u: seq<Entry>, limit: nat, q: nat)
    requires Distinct(k, u) && q < |u|
    ensures u[q] in Merged(k, u, limit) <==> q < limit - Share(limit) || |k| + q < limit
  {
    UnknownHolds(k, u, limit, q);
    var laid := Laid(k, u, limit);
    assert Merged(k, u, limit) == First(laid, limit);
    if u[q] in Merged(k, u, limit) {
      var i :| 0 <= i < |Merged(k, u, limit)| && Merged(k, u, limit)[i] == u[q];
      assert laid[i] == u[q];
      LaidAt(k, u, limit, i);
      assert i == UnknownAt(k, u, limit, q);
    }
    if UnknownAt(k, u, limit, q) < limit {
      assert Merged(k, u, limit)[UnknownAt(k, u, limit, q)] == u[q];
    }
  }

  // ---------------------------------------------------------------- from the schedule to the places

  /** The index of a tier: its queued rows, each once, in order. */
  ghost predicate IsIndex(s: Schedule, tier: nat, rows: seq<Entry>) {
    (forall i :: 0 <= i < |rows| ==>
       rows[i].sourceId in s.rows && s.rows[rows[i].sourceId] == rows[i] && rows[i].priority == 0 && rows[i].tier == tier)
    && (forall i, j :: 0 <= i < j < |rows| ==> Ahead(rows[i], rows[j]))
    && (forall x :: x in s.rows && s.rows[x].priority == 0 && s.rows[x].tier == tier ==> s.rows[x] in rows)
  }

  lemma AheadIsStrict(e: Entry)
    ensures !Ahead(e, e)
  {
    StringsOrdered(e.sourceId, e.sourceId);
  }

  /** Who can be served, in the order of the index. */
  lemma {:induction false} EligibleRows(rows: seq<Entry>, now: int)
    requires forall i, j :: 0 <= i < j < |rows| ==> Ahead(rows[i], rows[j])
    ensures var e := Eligible(rows, now);
      (forall i, j :: 0 <= i < j < |e| ==> Ahead(e[i], e[j]))
      && (forall i :: 0 <= i < |e| ==> e[i] in rows && CanServe(e[i], now))
      && (forall i :: 0 <= i < |rows| && CanServe(rows[i], now) ==> rows[i] in e)
  {
    if rows != [] {
      var most := rows[..|rows| - 1];
      EligibleRows(most, now);
      var before, e := Eligible(most, now), Eligible(rows, now);
      forall i | 0 <= i < |before| ensures before[i] in rows && Ahead(before[i], rows[|rows| - 1]) {
        var j :| 0 <= j < |most| && most[j] == before[i];
        assert rows[j] == before[i];
      }
      forall i | 0 <= i < |rows| && CanServe(rows[i], now) ensures rows[i] in e {
        if i < |most| {
          assert most[i] in before;
          var j :| 0 <= j < |before| && before[j] == most[i];
          assert e[j] == rows[i];
        } else {
          assert e[|e| - 1] == rows[i];
        }
      }
    }
  }

  function Names(rows: seq<Entry>): set<string> { set i | 0 <= i < |rows| :: rows[i].sourceId }

  lemma NamesSplit(rows: seq<Entry>, n: nat)
    requires |rows| == n + 1
    ensures Names(rows) == Names(rows[..n]) + {rows[n].sourceId}
  {
    forall x | x in Names(rows) ensures x in Names(rows[..n]) + {rows[n].sourceId} {
      var i :| 0 <= i < |rows| && rows[i].sourceId == x;
      if i < n { assert rows[..n][i].sourceId == x; }
    }
    forall x | x in Names(rows[..n]) ensures x in Names(rows) {
      var i :| 0 <= i < n && rows[..n][i].sourceId == x;
      assert rows[i].sourceId == x;
    }
    assert rows[n].sourceId in Names(rows);
  }

  lemma LastIsNew(rows: seq<Entry>, n: nat)
    requires |rows| == n + 1 && forall i, j :: 0 <= i < j < |rows| ==> rows[i].sourceId != rows[j].sourceId
    ensures rows[n].sourceId !in Names(rows[..n])
  {
  }

  lemma {:induction false} NamesCount(rows: seq<Entry>)
    requires forall i, j :: 0 <= i < j < |rows| ==> rows[i].sourceId != rows[j].sourceId
    ensures |Names(rows)| == |rows|
  {
    if rows == [] {
      assert Names(rows) == {};
    } else {
      var n := |rows| - 1;
      NamesSplit(rows, n);
      LastIsNew(rows, n);
      hide Names;
      NamesCount(rows[..n]);
    }
  }

  /** A source that can be served has a position among those of its tier, and no more of them stand before it than
      stand before it in the whole schedule. */
  lemma PositionInTier(s: Schedule, tier: nat, index: seq<Entry>, w: string, now: int) returns (p: nat)
    requires IsIndex(s, tier, index) && w in s.rows
    requires s.rows[w].priority == 0 && s.rows[w].tier == tier && CanServe(s.rows[w], now)
    ensures p < |Eligible(index, now)| && Eligible(index, now)[p] == s.rows[w] && p <= |AheadOf(s, w)|
  {
    var e := Eligible(index, now);
    EligibleRows(index, now);
    assert s.rows[w] in index;
    assert s.rows[w] in e;
    p :| 0 <= p < |e| && e[p] == s.rows[w];
    forall i, j | 0 <= i < j < p ensures e[..p][i].sourceId != e[..p][j].sourceId {
      assert Ahead(e[i], e[j]);
      AheadIsStrict(e[i]);
      assert e[i] in index && e[j] in index;
    }
    NamesCount(e[..p]);
    forall x | x in Names(e[..p]) ensures x in AheadOf(s, w) {
      var i :| 0 <= i < p && e[..p][i].sourceId == x;
      assert e[i] in index && Ahead(e[i], e[p]);
      assert s.rows[x] == e[i];
    }
    SubsetSize(Names(e[..p]), AheadOf(s, w));
  }

  /** fairSources over the whole schedule. */
  ghost predicate HandsOut(s: Schedule, known: seq<Entry>, unknown: seq<Entry>, limit: nat, now: int,
                           result: seq<Entry>)
  {
    IsIndex(s, 0, known) && IsIndex(s, 1, unknown)
    && result == Merged(First(Eligible(known, now), limit), First(Eligible(unknown, now), limit), limit)
  }

  lemma TiersDistinct(s: Schedule, known: seq<Entry>, unknown: seq<Entry>, limit: nat, now: int)
    requires IsIndex(s, 0, known) && IsIndex(s, 1, unknown)
    ensures Distinct(First(Eligible(known, now), limit), First(Eligible(unknown, now), limit))
  {
    EligibleRows(known, now);
    EligibleRows(unknown, now);
    var k, u := Eligible(known, now), Eligible(unknown, now);
    forall i, j | 0 <= i < j < |k| ensures k[i] != k[j] { AheadIsStrict(k[i]); }
    forall i, j | 0 <= i < j < |u| ensures u[i] != u[j] { AheadIsStrict(u[i]); }
    forall i, j | 0 <= i < |k| && 0 <= j < |u| ensures k[i] != u[j] {
      assert k[i] in known && u[j] in unknown;
    }
  }

  /** A source that can be served is handed out once fewer sources stand before it than its tier has places. */
  lemma HandedOutInTurn(s: Schedule, known: seq<Entry>, unknown: seq<Entry>, limit: nat, now: int, result: seq<Entry>,
                        w: string)
    requires HandsOut(s, known, unknown, limit, now, result) && w in s.rows
    requires s.rows[w].priority == 0 && s.rows[w].tier <= 1 && s.rows[w].described && s.rows[w].nextEligibleAt <= now
    requires |AheadOf(s, w)| < if s.rows[w].tier == 0 then Share(limit) else limit - Share(limit)
    ensures s.rows[w] in result
  {
    TiersDistinct(s, known, unknown, limit, now);
    var k, u := First(Eligible(known, now), limit), First(Eligible(unknown, now), limit);
    if s.rows[w].tier == 0 {
      var p := PositionInTier(s, 0, known, w, now);
      assert k[p] == s.rows[w];
      KnownHasPlaceIff(k, u, limit, p);
    } else {
      var p := PositionInTier(s, 1, unknown, w, now);
      assert u[p] == s.rows[w];
      UnknownHasPlaceIff(k, u, limit, p);
    }
  }

  /** Put together: over a fixed set of sources, one that waits has been handed out at the latest when all but
      half the places of those that stood before it have been served from ahead of it. */
  lemma WaitingIsBounded(s: Schedule, steps: seq<Step>, w: string, known: seq<Entry>, unknown: seq<Entry>, limit: nat,
                         now: int, result: seq<Entry>)
    requires Inv(s) && w in s.rows && Waits(s, steps, w)
    requires var t := Play(s, steps);
      HandsOut(t, known, unknown, limit, now, result)
      && (w in t.rows ==> t.rows[w].priority == 0 && t.rows[w].tier <= 1
                          && t.rows[w].described && t.rows[w].nextEligibleAt <= now
                          && |AheadOf(s, w)| - AllBypasses(s, steps, w)
                             < if t.rows[w].tier == 0 then Share(limit) else limit - Share(limit))
    ensures w in Play(s, steps).rows && Play(s, steps).rows[w] in result
  {
    BypassesCountDown(s, steps, w);
    HandedOutInTurn(Play(s, steps), known, unknown, limit, now, result, w);
  }

  lemma FirstEligible(rows: seq<Entry>, n: nat, now: int, e: Entry)
    requires (forall i, j :: 0 <= i < j < |rows| ==> Ahead(rows[i], rows[j])) && e in First(Eligible(rows, now), n)
    ensures e in rows && e.described && e.nextEligibleAt <= now
  {
    EligibleRows(rows, now);
    var i :| 0 <= i < |First(Eligible(rows, now), n)| && First(Eligible(rows, now), n)[i] == e;
    assert Eligible(rows, now)[i] == e;
  }

  /** Whoever is handed out is a queued source of the schedule, can be looked at, and its time has come. */
  lemma HandedOutAreDue(s: Schedule, known: seq<Entry>, unknown: seq<Entry>, limit: nat, now: int, result: seq<Entry>,
                        i: nat)
    requires HandsOut(s, known, unknown, limit, now, result) && i < |result|
    ensures |result| <= limit
    ensures result[i].sourceId in s.rows && s.rows[result[i].sourceId] == result[i]
    ensures result[i].priority == 0 && result[i].tier <= 1 && result[i].described && result[i].nextEligibleAt <= now
  {
    var k, u := First(Eligible(known, now), limit), First(Eligible(unknown, now), limit);
    assert result == First(Laid(k, u, limit), limit);
    LaidAt(k, u, limit, i);
    if result[i] in k {
      FirstEligible(known, limit, now, result[i]);
    } else {
      FirstEligible(unknown, limit, now, result[i]);
    }
  }

  /** A source that was told when to try again is not handed out before that time, unless in between it is hinted,
      probed, served or brought a new baseline. */
  lemma NotBeforeItsTime(s: Schedule, id: string, patch: Patch, steps: seq<Step>, known: seq<Entry>,
                         unknown: seq<Entry>, limit: nat, now: int, result: seq<Entry>)
    requires patch.expectedHintVersion.Some? ==> patch.expectedHintVersion.value == RowOf(s, id).hintVersion
    requires patch.nextEligibleAt.Some? && now < patch.nextEligibleAt.value
    requires TimeIsLeft(After(s, Serve(id, patch)), steps, id)
    requires HandsOut(Play(After(s, Serve(id, patch)), steps), known, unknown, limit, now, result)
    ensures forall i :: 0 <= i < |result| ==> result[i].sourceId != id
  {
    hide *;
    RetryTimeIsKept(s, id, patch, steps);
    forall i | 0 <= i < |result| ensures result[i].sourceId != id {
      HandedOutAreDue(Play(After(s, Serve(id, patch)), steps), known, unknown, limit, now, result, i);
    }
  }
}
