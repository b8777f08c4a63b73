/** What one mutation does to what a website sees, and what every run of mutations keeps. */
module LocalStorageProof {
  import opened Collections
  import opened LocalStorage

  function Sizes(c: map<string, string>): map<string, nat> { map k | k in c :: 2 * (|k| + |c[k]|) }

  /** The bytes a namespace is charged for. */
  ghost function Bytes(c: map<string, string>): nat { Total(Sizes(c), Self) }

  /** The meaning of a mutation for what a namespace holds. */
  function Applied(c: map<string, string>, change: Change): map<string, string> {
    match change
    case SetItem(k, v) => c[k := v]
    case RemoveItem(k) => c - {k}
    case Clear => map[]
  }

  ghost predicate Placed(d: Disk) {
    forall k :: k in d.values ==> exists n, key :: k == ValueKey(n, key)
  }

  /** The ledger row of a namespace tells its bytes and the number of its items. */
  ghost predicate Exact(d: Disk, n: Namespace) {
    MetaOf(d, n).bytes == Bytes(Contents(d, n)) && MetaOf(d, n).count == |Contents(d, n)|
  }

  ghost predicate Inv(d: Disk) { Placed(d) && forall n :: Exact(d, n) }

  const EMPTY := Disk(map[], map[], map[], [])

  lemma EmptyInv()
    ensures Inv(EMPTY)
  {
    forall n ensures Exact(EMPTY, n) {
      assert Contents(EMPTY, n) == map[];
      assert Sizes(map[]) == map[];
      TotalEmpty<string, nat>(Self);
    }
  }

  // ---------------------------------------------------------------- contents and sizes

  lemma ContentsKeys(d: Disk, n: Namespace, key: string)
    ensures key in Contents(d, n) <==> ValueKey(n, key) in d.values
    ensures key in Contents(d, n) ==> Contents(d, n)[key] == d.values[ValueKey(n, key)]
  {
    assert Last(ValueKey(n, key)) == key;
  }

  lemma KeysApart(n: Namespace, m: Namespace, key: string, other: string)
    ensures ValueKey(n, key) == ValueKey(m, other) <==> n == m && key == other
  {
    if ValueKey(n, key) == ValueKey(m, other) {
      assert Last(ValueKey(n, key)) == key && Last(ValueKey(m, other)) == other;
      RangeIsNamespace(n, m, other);
      RangeIsPrefix(Prefix(n), ValueKey(n, key));
    }
  }

  /** The values written are those of the namespace, and of no other one. */
  lemma NextContents(d: Disk, d': Disk, n: Namespace, c: Change, m: Namespace)
    requires d'.values == NextValues(d.values, n, c)
    ensures Contents(d', m) == if m == n then Applied(Contents(d, n), c) else Contents(d, m)
  {
    hide InRange, Prefix;
    var expected := if m == n then Applied(Contents(d, n), c) else Contents(d, m);
    forall key
      ensures key in Contents(d', m) <==> key in expected
      ensures key in expected ==> Contents(d', m)[key] == expected[key]
    {
      ContentsKeys(d, m, key);
      ContentsKeys(d', m, key);
      hide Contents;
      RangeIsNamespace(n, m, key);
      if !c.Clear? {
        KeysApart(n, m, c.key, key);
        ContentsKeys(d, n, c.key);
      }
    }
  }

  lemma PutBytes(c: map<string, string>, k: string, v: string)
    ensures Bytes(c[k := v]) == Bytes(c) + 2 * (|k| + |v|) - ItemBytes(k, Lookup(c, k))
    ensures |c[k := v]| == |c| + 1 - Present(Lookup(c, k))
  {
    assert Sizes(c[k := v]) == Sizes(c)[k := 2 * (|k| + |v|)];
    TotalPut<string, nat>(Sizes(c), Self, k, 2 * (|k| + |v|));
    assert c[k := v].Keys == c.Keys + {k};
  }

  lemma SizesWithout(c: map<string, string>, k: string)
    ensures Sizes(c - {k}) == Sizes(c) - {k}
  {
  }

  lemma RemoveBytes(c: map<string, string>, k: string)
    ensures Bytes(c - {k}) == Bytes(c) - ItemBytes(k, Lookup(c, k))
    ensures |c - {k}| == |c| - Present(Lookup(c, k))
  {
    SizesWithout(c, k);
    if k in c {
      assert Sizes(c)[k] == ItemBytes(k, Lookup(c, k));
      hide Sizes, ItemBytes;
      TotalRemove<string, nat>(Sizes(c), Self, k);
      Shrinks(c, k);
    } else {
      assert c - {k} == c;
    }
  }

  lemma NoBytes()
    ensures Bytes(map[]) == 0
  {
    assert Sizes(map[]) == map[];
    TotalEmpty<string, nat>(Self);
  }

  /** The ledger row computed from the previous row and the previous value alone is the row of the new contents, and its
      revision goes up exactly when the contents change. */
  lemma NextMetaIsExact(d: Disk, n: Namespace, c: Change)
    requires Exact(d, n)
    ensures var was := if c.Clear? then None else Found(d, n, c.key);
      var next := NextMeta(MetaOf(d, n), c, was);
      var after := Applied(Contents(d, n), c);
      next.bytes == Bytes(after) && next.count == |after|
      && next.revision == MetaOf(d, n).revision + (if after == Contents(d, n) then 0 else 1)
  {
    hide Contents, Bytes, Sizes, Found, ValueKey;
    var before := Contents(d, n);
    if c.Clear? {
      NoBytes();
      NothingHeld(before);
    } else {
      ContentsFound(d, n, c.key);
      if c.SetItem? { PutBytes(before, c.key, c.value); } else { RemoveBytes(before, c.key); }
      AppliedSame(before, c);
    }
  }

  lemma NothingHeld(c: map<string, string>)
    ensures |c| == 0 <==> c == map[]
  {
    if c != map[] {
      var k :| k in c;
      Shrinks(c, k);
    }
  }

  lemma AppliedSame(before: map<string, string>, c: Change)
    requires !c.Clear?
    ensures Applied(before, c) == before <==> Lookup(before, c.key) == (if c.SetItem? then Some(c.value) else None)
  {
    if c.SetItem? && Lookup(before, c.key) == Some(c.value) {
      assert before[c.key := c.value] == before;
    } else if c.SetItem? {
      assert before[c.key := c.value][c.key] == c.value;
    } else if c.key in before {
      assert c.key !in before - {c.key};
    } else {
      assert before - {c.key} == before;
    }
  }

  // ---------------------------------------------------------------- one mutation

  function Most(a: int, b: int): int { if a < b then b else a }

  /** A mutation is refused exactly when it is new and what it would leave is over both the quota and what was there
      already (or beyond a safe integer). */
  ghost predicate Refused(d: Disk, n: Namespace, doc: string, sequence: nat, c: Change, quotaBytes: nat) {
    (doc, sequence) !in d.receipts
    && var after := Bytes(Applied(Contents(d, n), c));
    after > MAX_SAFE_INTEGER || after > Most(quotaBytes, Bytes(Contents(d, n)))
  }

  /** What a mutation that commits does. */
  ghost predicate Does(d: Disk, n: Namespace, doc: string, sequence: nat, c: Change, d': Disk, delta: Delta) {
    var (before, after) := (Contents(d, n), Contents(d', n));
    if (doc, sequence) in d.receipts then
      d' == d && delta == Delta(d.receipts[(doc, sequence)], None, None, None, false)
    else
      after == Applied(before, c) && (delta.changed <==> after != before) && delta.key == KeyOf(c)
      && MetaOf(d', n).revision == MetaOf(d, n).revision + (if after == before then 0 else 1) == delta.revision
      && (!c.Clear? ==> delta.oldValue == Found(d, n, c.key) && delta.newValue == Found(d', n, c.key))
      && (forall m :: m != n ==> Contents(d', m) == Contents(d, m) && MetaOf(d', m) == MetaOf(d, m))
      && d'.receipts == Receipted(d.receipts, doc, sequence, delta.revision)
      && d'.journal == d.journal + (if after == before then [] else Marked(n, c))
  }

  lemma ChangedMeans(d: Disk, d': Disk, n: Namespace, c: Change)
    requires Inv(d) && d'.values == NextValues(d.values, n, c)
    requires d'.origins == d.origins[n := NextMeta(MetaOf(d, n), c, if c.Clear? then None else Found(d, n, c.key))]
    ensures Inv(d') && Contents(d', n) == Applied(Contents(d, n), c)
    ensures forall m :: m != n ==> Contents(d', m) == Contents(d, m) && MetaOf(d', m) == MetaOf(d, m)
    ensures !c.Clear? ==> Found(d', n, c.key) == if c.SetItem? then Some(c.value) else None
  {
    hide InRange, Contents, Bytes;
    assert Exact(d, n);
    NextMetaIsExact(d, n, c);
    forall m ensures Contents(d', m) == if m == n then Applied(Contents(d, n), c) else Contents(d, m) {
      NextContents(d, d', n, c, m);
    }
    forall m ensures Exact(d', m) { assert Exact(d, m); }
    forall k | k in d'.values ensures exists m, key :: k == ValueKey(m, key) {
      if k in d.values { } else { assert k == ValueKey(n, c.key); }
    }
  }

  lemma UnchangedMeans(d: Disk, d': Disk, n: Namespace, c: Change)
    requires Inv(d) && d'.values == d.values && d'.origins == d.origins
    requires Applied(Contents(d, n), c) == Contents(d, n)
    ensures Inv(d') && forall m :: Contents(d', m) == Contents(d, m)
    ensures !c.Clear? ==> Found(d', n, c.key) == if c.SetItem? then Some(c.value) else None
  {
    forall m ensures Contents(d', m) == Contents(d, m) {
      hide Prefix;
    }
    hide Contents, Bytes;
    forall m ensures Exact(d', m) { assert Exact(d, m); }
    if !c.Clear? {
      ContentsFound(d, n, c.key);
      AppliedSame(Contents(d, n), c);
    }
  }

  lemma CommitMeans(d: Disk, n: Namespace, doc: string, sequence: nat, c: Change, quotaBytes: nat)
    requires Inv(d)
    ensures var r := Commit(d, n, doc, sequence, c, quotaBytes);
      (r.Aborted? <==> Refused(d, n, doc, sequence, c, quotaBytes))
      && (r.Committed? ==> Inv(r.disk) && Does(d, n, doc, sequence, c, r.disk, r.delta))
  {
    hide Contents, Bytes, NextMeta, NextValues, Receipted, Marked, Found, Placed, Applied;
    var r := Commit(d, n, doc, sequence, c, quotaBytes);
    if (doc, sequence) !in d.receipts {
      assert Exact(d, n);
      NextMetaIsExact(d, n, c);
      if r.Committed? && r.delta.changed {
        ChangedMeans(d, r.disk, n, c);
      } else if r.Committed? {
        UnchangedMeans(d, r.disk, n, c);
      }
    }
  }
}
