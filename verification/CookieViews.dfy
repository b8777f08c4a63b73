/** What a document sees of its cookies: the visible ones that have not expired, longest path first, then oldest,
    then by identity (section 5.4 of RFC 6265), as one string. */
module CookieViews {
  import opened Collections

  type Id(!new, ==) = string
  type Time = int

  datatype Entry = Entry(id: Id, name: string, value: string, path: string, created: Time, expiresAt: Option<Time>)

  type Entries = map<Id, Entry>

  predicate Keyed(m: Entries) { forall id :: id in m ==> m[id].id == id }

  // ---------------------------------------------------------------- order

  predicate Before(a: Entry, b: Entry) {
    |a.path| > |b.path|
    || (|a.path| == |b.path| && (a.created < b.created || (a.created == b.created && StringBefore(a.id, b.id))))
  }

  lemma BeforeOrders(a: Entry, b: Entry)
    ensures a.id == b.id || Before(a, b) || Before(b, a)
    ensures !(Before(a, b) && Before(b, a)) && !Before(a, a)
  {
    StringsOrdered(a.id, b.id);
  }

  lemma BeforeTransits(a: Entry, b: Entry, c: Entry)
    requires Before(a, b) && Before(b, c)
    ensures Before(a, c)
  {
    if StringBefore(a.id, b.id) && StringBefore(b.id, c.id) {
      StringBeforeTransits(a.id, b.id, c.id);
    }
  }

  // ---------------------------------------------------------------- listings

  predicate Ordered(s: seq<Entry>) { forall i, j :: 0 <= i < j < |s| ==> Before(s[i], s[j]) }

  /** The entries of m, each once, in order. */
  predicate Listing(s: seq<Entry>, m: Entries) {
    Ordered(s) && (forall e :: e in s ==> e.id in m && m[e.id] == e) && (forall id :: id in m ==> m[id] in s)
  }

  lemma ListingHead(s: seq<Entry>, t: seq<Entry>, m: Entries)
    requires Keyed(m) && Listing(s, m) && Listing(t, m) && s != []
    ensures t != [] && s[0] == t[0]
  {
    assert s[0] in s && m[s[0].id] in t;
    assert t[0] in t && m[t[0].id] in s;
    var i :| 0 <= i < |t| && t[i] == s[0];
    var j :| 0 <= j < |s| && s[j] == t[0];
    BeforeOrders(s[0], t[0]);
    hide Before;
  }

  /** There is one listing. */
  lemma {:induction false} ListingUnique(s: seq<Entry>, t: seq<Entry>, m: Entries)
    requires Keyed(m) && Listing(s, m) && Listing(t, m)
    ensures s == t
    decreases |s|
  {
    if s == [] {
      if t != [] { ListingHead(t, s, m); }
    } else {
      ListingHead(s, t, m);
      ListingTail(s, m);
      ListingTail(t, m);
      hide Listing;
      ListingUnique(s[1..], t[1..], m - {s[0].id});
      assert s == [s[0]] + s[1..] && t == [t[0]] + t[1..];
    }
  }

  lemma ListingTail(s: seq<Entry>, m: Entries)
    requires Keyed(m) && Listing(s, m) && s != []
    ensures Listing(s[1..], m - {s[0].id})
  {
    forall e | e in s[1..]
      ensures e.id != s[0].id && e in s
    {
      var i :| 0 <= i < |s[1..]| && s[1..][i] == e;
      assert s[i + 1] == e && Before(s[0], s[i + 1]);
      BeforeOrders(s[0], e);
      assert m[e.id] == e && m[s[0].id] == s[0];
    }
    forall id | id in m - {s[0].id}
      ensures m[id] in s[1..]
    {
      assert m[id] in s && m[id] != s[0];
    }
  }

  /** Where an entry belongs in a list in order. */
  function Insert(s: seq<Entry>, e: Entry): seq<Entry> {
    if s == [] || Before(e, s[0]) then [e] + s else [s[0]] + Insert(s[1..], e)
  }

  lemma {:induction false} InsertElements(s: seq<Entry>, e: Entry)
    ensures forall x :: x in Insert(s, e) <==> x in s || x == e
    decreases |s|
  {
    if s != [] && !Before(e, s[0]) {
      InsertElements(s[1..], e);
      assert s == [s[0]] + s[1..];
    }
  }

  lemma {:induction false} InsertOrders(s: seq<Entry>, e: Entry)
    requires Ordered(s) && forall x :: x in s ==> x.id != e.id
    ensures Ordered(Insert(s, e))
    decreases |s|
  {
    if s == [] {
    } else if Before(e, s[0]) {
      var t := [e] + s;
      forall i, j | 0 <= i < j < |t|
        ensures Before(t[i], t[j])
      {
        if i == 0 && j > 1 { BeforeTransits(e, s[0], s[j - 1]); }
      }
    } else {
      var rest := Insert(s[1..], e);
      InsertOrders(s[1..], e);
      InsertElements(s[1..], e);
      BeforeOrders(e, s[0]);
      var t := [s[0]] + rest;
      forall j | 1 <= j < |t|
        ensures Before(t[0], t[j])
      {
        assert rest[j - 1] in rest;
        if rest[j - 1] in s[1..] {
          var i :| 0 <= i < |s[1..]| && s[1..][i] == rest[j - 1];
          assert s[i + 1] == t[j];
        }
      }
    }
  }

  /** Adding an entry to a map inserts it into the listing. */
  lemma InsertLists(s: seq<Entry>, m: Entries, e: Entry)
    requires Keyed(m) && Listing(s, m) && e.id !in m
    ensures Listing(Insert(s, e), m[e.id := e])
  {
    InsertElements(s, e);
    InsertOrders(s, e);
  }

  /** Down a listing paths never get longer; among paths of one length nobody is younger than whoever comes later; and
      of two of the same age the identities ascend. */
  lemma ListingDescends(s: seq<Entry>, m: Entries, i: nat, j: nat)
    requires Listing(s, m) && i < j < |s|
    ensures |s[i].path| >= |s[j].path|
    ensures |s[i].path| == |s[j].path| ==> s[i].created <= s[j].created
    ensures |s[i].path| == |s[j].path| && s[i].created == s[j].created ==> StringBefore(s[i].id, s[j].id)
  {
    assert Before(s[i], s[j]);
  }

  /** And any order of the entries in which neighbours do so is the listing. */
  lemma DescendingIsListing(s: seq<Entry>, m: Entries)
    requires (forall e :: e in s ==> e.id in m && m[e.id] == e) && forall id :: id in m ==> m[id] in s
    requires forall i :: 0 <= i < |s| - 1 ==>
      |s[i].path| >= |s[i + 1].path|
      && (|s[i].path| == |s[i + 1].path| ==> s[i].created <= s[i + 1].created)
      && (|s[i].path| == |s[i + 1].path| && s[i].created == s[i + 1].created ==> StringBefore(s[i].id, s[i + 1].id))
    ensures Listing(s, m)
  {
    forall i, j | 0 <= i < j < |s| ensures Before(s[i], s[j]) { NeighboursOrder(s, i, j); }
  }

  lemma {:induction false} NeighboursOrder(s: seq<Entry>, i: nat, j: nat)
    requires i < j < |s| && forall k :: 0 <= k < |s| - 1 ==> Before(s[k], s[k + 1])
    ensures Before(s[i], s[j])
    decreases j
  {
    assert Before(s[j - 1], s[j - 1 + 1]);
    if i < j - 1 {
      NeighboursOrder(s, i, j - 1);
      BeforeTransits(s[i], s[j - 1], s[j]);
    }
  }

  /** The sort of the entries. */
  method SortEntries(m: Entries) returns (ordered: seq<Entry>)
    requires Keyed(m)
    ensures Listing(ordered, m)
    ensures forall i, j :: 0 <= i < j < |ordered| ==>
      |ordered[i].path| >= |ordered[j].path|
      && (|ordered[i].path| == |ordered[j].path| ==> ordered[i].created <= ordered[j].created)
  {
    ordered := [];
    var left := m.Keys;
    while left != {}
      invariant left <= m.Keys && Listing(ordered, m - left)
      decreases |left|
    {
      var id :| id in left;
      InsertLists(ordered, m - left, m[id]);
      assert m - (left - {id}) == (m - left)[id := m[id]];
      ordered := Insert(ordered, m[id]);
      left := left - {id};
    }
    assert m - {} == m;
    forall i, j | 0 <= i < j < |ordered|
      ensures |ordered[i].path| >= |ordered[j].path|
      ensures |ordered[i].path| == |ordered[j].path| ==> ordered[i].created <= ordered[j].created
    {
      ListingDescends(ordered, m, i, j);
    }
  }

  lemma {:induction false} ListingExists(m: Entries) returns (s: seq<Entry>)
    requires Keyed(m)
    ensures Listing(s, m)
    decreases |m|
  {
    if m == map[] {
      s := [];
    } else {
      var id :| id in m;
      Shrinks(m, id);
      var rest := ListingExists(m - {id});
      InsertLists(rest, m - {id}, m[id]);
      assert (m - {id})[id := m[id]] == m;
      s := Insert(rest, m[id]);
    }
  }

  // ---------------------------------------------------------------- text

  function Shown(e: Entry): string { if e.name != "" then e.name + "=" + e.value else e.value }

  function Joined(s: seq<Entry>): string {
    if s == [] then "" else if |s| == 1 then Shown(s[0])
    else Joined(s[..|s| - 1]) + "; " + Shown(s[|s| - 1])
  }

  lemma SomeListing(m: Entries)
    ensures Keyed(m) ==> exists s :: Listing(s, m)
  {
    if Keyed(m) {
      var s := ListingExists(m);
    }
  }

  /** The cookie string of some entries. */
  ghost function Text(m: Entries): string {
    SomeListing(m);
    if Keyed(m) then var s :| Listing(s, m); Joined(s) else ""
  }

  lemma TextOf(s: seq<Entry>, m: Entries)
    requires Keyed(m) && Listing(s, m)
    ensures Text(m) == Joined(s)
  {
    SomeListing(m);
    var t :| Listing(t, m) && Text(m) == Joined(t);
    ListingUnique(s, t, m);
  }

  /** Joins the parts of a list. */
  method JoinParts(s: seq<Entry>) returns (value: string)
    ensures value == Joined(s)
  {
    value := "";
    var i := 0;
    while i < |s|
      invariant 0 <= i <= |s| && value == Joined(s[..i])
    {
      assert s[..i + 1][..i] == s[..i];
      value := if i == 0 then Shown(s[0]) else value + "; " + Shown(s[i]);
      i := i + 1;
    }
    assert s[..i] == s;
  }

  // ---------------------------------------------------------------- time

  predicate Gone(e: Entry, now: Time) { e.expiresAt.Some? && e.expiresAt.value <= now }

  /** The entries that have not expired. */
  function Live(m: Entries, now: Time): Entries { map id | id in m && !Gone(m[id], now) :: m[id] }

  /** The earliest expiry. */
  predicate Earliest(t: Option<Time>, m: Entries) {
    (forall id :: id in m && m[id].expiresAt.Some? ==> t.Some? && t.value <= m[id].expiresAt.value)
    && (t.Some? ==> exists id :: id in m && m[id].expiresAt == t)
  }

  /** Nothing disappears before the earliest expiry, and nothing comes back. */
  lemma LiveUntil(m: Entries, from: Time, until: Time, t: Option<Time>)
    requires from <= until && Earliest(t, Live(m, from)) && (t.Some? ==> until < t.value)
    ensures Live(m, until) == Live(m, from)
  {
    forall id
      ensures id in Live(m, until) <==> id in Live(m, from)
    {
      if id in Live(m, from) { assert Live(m, from)[id] == m[id]; }
    }
  }

  /** Finds the earliest expiry. */
  method FindEarliest(m: Entries) returns (t: Option<Time>)
    ensures Earliest(t, m)
  {
    t := None;
    var left := m.Keys;
    while left != {}
      invariant left <= m.Keys && Earliest(t, m - left)
      decreases |left|
    {
      var id :| id in left;
      ghost var seen, before := m - left, t;
      if m[id].expiresAt.Some? && (t.None? || m[id].expiresAt.value < t.value) { t := m[id].expiresAt; }
      left := left - {id};
      assert m - left == seen[id := m[id]];
      if t == before && t.Some? {
        var j :| j in seen && seen[j].expiresAt == t;
        assert j in m - left && (m - left)[j].expiresAt == t;
      } else if t.Some? {
        assert id in m - left;
      }
    }
    assert m - {} == m;
  }
}
