/** The document's own copy of its cookies (runtime/cookie-local-view.ts), kept current by the deltas of its own
    writes (runtime/local-cookie-jar-v2.ts, document().set). */
module CookieLocalView {
  import opened Collections
  import opened CookieViews

  const MOST_ENTRIES := 180

  /** An accepted line of the document: the entry it set and whether this document may see it, or a deletion. */
  datatype Change = Set(entry: Entry, visible: bool) | Delete(id: Id)

  datatype Delta = Delta(upsert: Option<Entry>, remove: Option<Id>)

  /** The delta the jar sends for an accepted change. */
  function DeltaOf(change: Change, now: Time): Delta {
    match change
    case Set(e, visible) => if visible && !Gone(e, now) then Delta(Some(e), None) else Delta(None, Some(e.id))
    case Delete(id) => Delta(None, Some(id))
  }

  /** The entries of the jar this document may see, after the change. */
  function Visible(jar: Entries, change: Change): Entries {
    match change
    case Set(e, visible) => if visible then jar[e.id := e] else jar - {e.id}
    case Delete(id) => jar - {id}
  }

  function Patched(rows: Entries, d: Delta): Entries {
    var kept := if d.remove.Some? then rows - {d.remove.value} else rows;
    if d.upsert.Some? then kept[d.upsert.value.id := d.upsert.value] else kept
  }

  /** Patching what is live with the delta gives what is live after the change, then and later. */
  lemma DeltaFollows(rows: Entries, jar: Entries, change: Change, sent: Time, now: Time)
    requires sent <= now && Live(rows, now) == Live(jar, now)
    ensures Live(Patched(rows, DeltaOf(change, sent)), now) == Live(Visible(jar, change), now)
  {
    var d := DeltaOf(change, sent);
    var r, j := Patched(rows, d), Visible(jar, change);
    forall id
      ensures id in Live(r, now) <==> id in Live(j, now)
      ensures id in Live(r, now) ==> r[id] == j[id]
    {
      assert id in Live(rows, now) <==> id in Live(jar, now);
      assert id in Live(rows, now) ==> Live(rows, now)[id] == Live(jar, now)[id];
    }
  }

  lemma LiveLater(m: Entries, j: Entries, from: Time, until: Time)
    requires from <= until && Live(m, from) == Live(j, from)
    ensures Live(m, until) == Live(j, until)
  {
    forall id
      ensures id in Live(m, until) <==> id in Live(j, until)
      ensures id in Live(m, until) ==> m[id] == j[id]
    {
      assert id in Live(m, from) <==> id in Live(j, from);
      assert id in Live(m, from) ==> Live(m, from)[id] == Live(j, from)[id];
    }
  }

  /** One of the document's writes: when the jar sent its delta and when the delta arrived. */
  datatype Write = Write(change: Change, sent: Time, heard: Time)

  predicate InOrder(writes: seq<Write>, from: Time)
    decreases |writes|
  {
    writes == [] || (writes[0].sent <= writes[0].heard && from <= writes[0].heard && InOrder(writes[1..], writes[0].heard))
  }

  function LastHeard(writes: seq<Write>, from: Time): Time
    decreases |writes|
  {
    if writes == [] then from else LastHeard(writes[1..], writes[0].heard)
  }

  /** What the document may see after its writes. */
  function Played(jar: Entries, writes: seq<Write>): Entries
    decreases |writes|
  {
    if writes == [] then jar else Played(Visible(jar, writes[0].change), writes[1..])
  }

  /** No delta of these writes leaves more entries than a view may have, given what is live when it arrives. */
  predicate Admitted(jar: Entries, writes: seq<Write>)
    decreases |writes|
  {
    writes == []
    || (|Patched(Live(jar, writes[0].heard), DeltaOf(writes[0].change, writes[0].sent))| <= MOST_ENTRIES
        && Admitted(Visible(jar, writes[0].change), writes[1..]))
  }

  class PrivateCookieLocalView {
    var rows: Entries
    var count: int
    var value: string
    var expiresAt: Option<Time>
    /** When the string was last built. */
    ghost var built: Time

    ghost predicate Valid()
      reads this
    {
      Keyed(rows) && count == |rows| && Live(rows, built) == rows && value == Text(rows) && Earliest(expiresAt, rows)
    }

    /** What is live here is what is live in the jar. */
    ghost predicate Tracks(jar: Entries, now: Time)
      reads this
    {
      built <= now && Live(rows, now) == Live(jar, now)
    }

    constructor (ghost now: Time)
      ensures Valid() && rows == map[] && built == now && Tracks(map[], now)
    {
      rows, count, value, expiresAt, built := map[], 0, "", None, now;
      new;
      TextOf([], map[]);
    }

    /** Drops what has expired, finds the next expiry, and builds the string anew. */
    method Rebuild(now: Time)
      requires Keyed(rows) && count == |rows|
      modifies this
      ensures Valid() && rows == Live(old(rows), now) && built == now
    {
      var kept := Live(rows, now);
      var left := rows.Keys;
      ghost var all := rows;
      while left != {}
        invariant left <= all.Keys && Keyed(rows) && count == |rows|
        invariant rows == map id | id in all && (id in left || !Gone(all[id], now)) :: all[id]
        decreases |left|
      {
        var id :| id in left;
        if Gone(rows[id], now) {
          Shrinks(rows, id);
          rows := rows - {id};
          count := count - 1;
        }
        left := left - {id};
      }
      assert rows == kept;
      expiresAt := FindEarliest(rows);
      var ordered := SortEntries(rows);
      TextOf(ordered, rows);
      value := JoinParts(ordered);
      built := now;
    }

    /** A snapshot replaces everything; duplicates and too many entries are refused. */
    method Replace(input: seq<Entry>, now: Time) returns (ok: bool)
      requires Valid()
      modifies this
      ensures Valid()
      ensures ok <==> |input| <= MOST_ENTRIES && Distinct(input)
      ensures ok ==> built == now && exists next :: Collected(input, next) && rows == Live(next, now)
      ensures !ok ==> rows == old(rows) && value == old(value) && expiresAt == old(expiresAt) && built == old(built)
    {
      hide Live, Earliest, Text, Collected;
      if |input| > MOST_ENTRIES { return false; }
      var next;
      ok, next := Collect(input);
      if !ok { return; }
      CollectedKeyed(input, next);
      rows := next;
      count := |input|;
      Rebuild(now);
    }

    /** A snapshot of what the jar shows makes the view track the jar. */
    method Open(input: seq<Entry>, now: Time, ghost jar: Entries) returns (ok: bool)
      requires Valid() && Keyed(jar) && Listing(input, Live(jar, now))
      modifies this
      ensures Valid() && (ok <==> |input| <= MOST_ENTRIES)
      ensures ok ==> Tracks(jar, now)
    {
      ListingDistinct(input);
      ok := Replace(input, now);
      if ok {
        ghost var next :| Collected(input, next) && rows == Live(next, now);
        SnapshotTracks(input, next, jar, now);
      }
    }

    method RemoveRow(id: Id) returns (changed: bool)
      requires Keyed(rows) && count == |rows|
      modifies this`rows, this`count
      ensures rows == old(rows) - {id} && Keyed(rows) && count == |rows|
      ensures !changed ==> rows == old(rows)
    {
      if id !in rows {
        assert rows - {id} == rows;
        return false;
      }
      Shrinks(rows, id);
      rows, count := rows - {id}, count - 1;
      return true;
    }

    method SetRow(entry: Entry) returns (changed: bool)
      requires Keyed(rows) && count == |rows|
      modifies this`rows, this`count
      ensures rows == old(rows)[entry.id := entry] && Keyed(rows) && count == |rows|
      ensures !changed ==> rows == old(rows)
    {
      if entry.id in rows && rows[entry.id] == entry {
        assert rows[entry.id := entry] == rows;
        return false;
      }
      if entry.id !in rows {
        assert rows[entry.id := entry].Keys == rows.Keys + {entry.id};
        count := count + 1;
      } else {
        assert rows[entry.id := entry].Keys == rows.Keys;
      }
      rows := rows[entry.id := entry];
      return true;
    }

    /** Removes, then sets; tells whether anything changed. */
    method ApplyDelta(input: Delta) returns (changed: bool)
      requires Keyed(rows) && count == |rows|
      modifies this`rows, this`count
      ensures rows == Patched(old(rows), input) && Keyed(rows) && count == |rows|
      ensures !changed ==> rows == old(rows)
    {
      hide Keyed;
      changed := false;
      if input.remove.Some? { changed := RemoveRow(input.remove.value); }
      if input.upsert.Some? {
        var set' := SetRow(input.upsert.value);
        changed := changed || set';
      }
    }

    /** One delta; refused only when it would leave too many entries. */
    method Update(input: Delta, now: Time) returns (ok: bool)
      requires Valid() && built <= now
      modifies this
      ensures Valid() && old(built) <= built <= now
      ensures ok <==> |Patched(Live(old(rows), now), input)| <= MOST_ENTRIES
      ensures Live(rows, now) == if ok then Live(Patched(old(rows), input), now) else Live(old(rows), now)
    {
      hide Patched, Text, Earliest;
      ghost var start := rows;
      if expiresAt.Some? && expiresAt.value <= now {
        Rebuild(now);
      } else {
        LiveUntil(rows, built, now, expiresAt);
      }
      assert rows == Live(start, now) == Live(rows, now);
      var id, upsert := input.remove, input.upsert;
      var nextCount := count - (if id.Some? && id.value in rows then 1 else 0)
                       + (if upsert.Some? && (upsert.value.id !in rows || Some(upsert.value.id) == id) then 1 else 0);
      PatchedCount(rows, input);
      if nextCount > MOST_ENTRIES { return false; }
      var changed := ApplyDelta(input);
      PatchedLive(start, input, now);
      if changed { Rebuild(now); }
      LiveTwice(Patched(Live(start, now), input), now);
      return true;
    }

    /** A change this document made, as the jar's delta brings it back. The view goes on tracking the jar, and the
        delta is not refused while the jar keeps within its own limit. */
    method Follow(change: Change, sent: Time, now: Time, ghost jar: Entries, ghost since: Time) returns (ok: bool)
      requires Valid() && Tracks(jar, since) && since <= now && sent <= now
      modifies this
      ensures Valid()
      ensures |Live(Visible(jar, change), now)| <= MOST_ENTRIES && (change.Set? && change.visible ==> !Gone(change.entry, now))
        ==> ok
      ensures ok <==> |Patched(Live(jar, now), DeltaOf(change, sent))| <= MOST_ENTRIES
      ensures ok ==> Tracks(Visible(jar, change), now)
    {
      hide Live, Visible, Patched, DeltaOf, Text, Earliest;
      LiveLater(rows, jar, since, now);
      ghost var start := rows;
      ok := Update(DeltaOf(change, sent), now);
      DeltaFollows(start, jar, change, sent, now);
      if change.Set? && change.visible ==> !Gone(change.entry, now) {
        FollowCount(start, jar, change, sent, now);
      }
    }

    /** All of a document's writes, in order: after the last of them the view still tracks the jar. It stops only at a
        delta that would leave too many entries. */
    method FollowAll(writes: seq<Write>, ghost jar: Entries, ghost since: Time) returns (followed: nat)
      requires Valid() && Tracks(jar, since) && InOrder(writes, since)
      modifies this
      ensures Valid() && followed <= |writes| && (followed == |writes| <==> Admitted(jar, writes))
      ensures followed == |writes| ==> Tracks(Played(jar, writes), LastHeard(writes, since))
    {
      hide Live, Visible, Patched, DeltaOf, Text, Earliest, Tracks;
      followed := 0;
      ghost var now, shown := since, jar;
      while followed < |writes|
        invariant followed <= |writes| && Valid() && Tracks(shown, now) && InOrder(writes[followed..], now)
        invariant Played(shown, writes[followed..]) == Played(jar, writes)
        invariant Admitted(shown, writes[followed..]) == Admitted(jar, writes)
        invariant LastHeard(writes[followed..], now) == LastHeard(writes, since)
      {
        var w := writes[followed];
        assert writes[followed..][0] == w && writes[followed..][1..] == writes[followed + 1..];
        var ok := Follow(w.change, w.sent, w.heard, shown, now);
        if !ok { return; }
        shown, now := Visible(shown, w.change), w.heard;
        followed := followed + 1;
      }
    }

    /** Until the next expiry the string is the jar's: filtered, sorted and joined. */
    lemma ShowsJar(jar: Entries, since: Time, now: Time)
      requires Valid() && Tracks(jar, since) && since <= now && (expiresAt.Some? ==> now < expiresAt.value)
      ensures value == Text(Live(jar, now))
    {
      LiveLater(rows, jar, since, now);
      LiveUntil(rows, built, now, expiresAt);
    }
  }

  predicate Distinct(input: seq<Entry>) {
    forall i, j :: 0 <= i < j < |input| ==> input[i].id != input[j].id
  }

  /** The map of a list of entries with different identities. */
  predicate Collected(input: seq<Entry>, m: Entries) {
    |m| == |input| && (forall i :: 0 <= i < |input| ==> input[i].id in m && m[input[i].id] == input[i])
    && (forall id :: id in m ==> m[id] in input && m[id].id == id)
  }

  lemma CollectedKeyed(input: seq<Entry>, m: Entries)
    requires Collected(input, m)
    ensures Keyed(m) && |m| == |input|
  {
  }

  lemma CollectedMore(input: seq<Entry>, m: Entries, e: Entry)
    requires Collected(input, m) && Distinct(input) && e.id !in m
    ensures Collected(input + [e], m[e.id := e]) && Distinct(input + [e])
  {
    assert m[e.id := e].Keys == m.Keys + {e.id};
    forall i | 0 <= i < |input|
      ensures input[i].id != e.id
    {
      assert input[i].id in m;
    }
    assert (input + [e])[|input|] == e;
  }

  /** Reads the entries of a snapshot; fails at the first repeated identity. */
  method Collect(input: seq<Entry>) returns (ok: bool, next: Entries)
    ensures ok <==> Distinct(input)
    ensures ok ==> Collected(input, next)
  {
    next := map[];
    var index := 0;
    assert input[..0] == [];
    while index < |input|
      invariant 0 <= index <= |input| && Collected(input[..index], next) && Distinct(input[..index])
    {
      var entry := input[index];
      assert input[..index + 1] == input[..index] + [entry];
      if entry.id in next {
        assert next[entry.id] in input[..index];
        var i :| 0 <= i < index && input[..index][i] == next[entry.id];
        assert input[i].id == input[index].id;
        return false, next;
      }
      CollectedMore(input[..index], next, entry);
      next := next[entry.id := entry];
      index := index + 1;
    }
    assert input[..index] == input;
    return true, next;
  }

  lemma ListingDistinct(s: seq<Entry>)
    requires Ordered(s)
    ensures forall m :: Listing(s, m) ==> Distinct(s)
  {
    forall i, j | 0 <= i < j < |s|
      ensures forall m :: Listing(s, m) ==> s[i].id != s[j].id
    {
      assert Before(s[i], s[j]);
      BeforeOrders(s[i], s[i]);
      assert forall m :: Listing(s, m) ==> s[i] in s && s[j] in s && m[s[i].id] == s[i] && m[s[j].id] == s[j];
    }
  }

  lemma LiveTwice(m: Entries, now: Time)
    ensures Live(Live(m, now), now) == Live(m, now)
  {
  }

  lemma SnapshotTracks(input: seq<Entry>, next: Entries, jar: Entries, now: Time)
    requires Keyed(jar) && Listing(input, Live(jar, now)) && Collected(input, next)
    ensures Live(Live(next, now), now) == Live(jar, now)
  {
    forall id
      ensures id in next <==> id in Live(jar, now)
      ensures id in next ==> next[id] == Live(jar, now)[id]
    {
      if id in next { assert next[id] in input; }
      if id in Live(jar, now) {
        assert Live(jar, now)[id] in input;
        var i :| 0 <= i < |input| && input[i] == Live(jar, now)[id];
        assert input[i].id in next;
      }
    }
    LiveTwice(next, now);
    LiveTwice(jar, now);
  }

  lemma PatchedCount(rows: Entries, d: Delta)
    ensures |Patched(rows, d)| == |rows| - (if d.remove.Some? && d.remove.value in rows then 1 else 0)
      + (if d.upsert.Some? && (d.upsert.value.id !in rows || Some(d.upsert.value.id) == d.remove) then 1 else 0)
  {
    var kept := if d.remove.Some? then rows - {d.remove.value} else rows;
    if d.remove.Some? {
      if d.remove.value in rows { Shrinks(rows, d.remove.value); } else { assert kept == rows; }
    }
    if d.upsert.Some? {
      var e := d.upsert.value;
      if e.id in kept {
        assert kept[e.id := e].Keys == kept.Keys;
      } else {
        assert kept[e.id := e].Keys == kept.Keys + {e.id};
      }
    }
  }

  /** Expired entries may be dropped before or after patching. */
  lemma PatchedLive(rows: Entries, d: Delta, now: Time)
    ensures Live(Patched(Live(rows, now), d), now) == Live(Patched(rows, d), now)
  {
    var a, b := Patched(Live(rows, now), d), Patched(rows, d);
    forall id
      ensures id in Live(a, now) <==> id in Live(b, now)
      ensures id in Live(a, now) ==> a[id] == b[id]
    {
    }
  }

  lemma FollowCount(rows: Entries, jar: Entries, change: Change, sent: Time, now: Time)
    requires sent <= now && Live(rows, now) == Live(jar, now) && Keyed(rows)
    requires change.Set? && change.visible ==> !Gone(change.entry, now)
    ensures Patched(Live(rows, now), DeltaOf(change, sent)) == Live(Visible(jar, change), now)
  {
    var a, b := Patched(Live(rows, now), DeltaOf(change, sent)), Live(Visible(jar, change), now);
    forall id
      ensures id in a <==> id in b
      ensures id in a ==> a[id] == b[id]
    {
      assert id in Live(rows, now) <==> id in Live(jar, now);
      assert id in Live(rows, now) ==> Live(rows, now)[id] == Live(jar, now)[id];
    }
  }
}
