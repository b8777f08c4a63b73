/** The audit as it runs inside the website's transaction: plans worked off store by store, each record's old row
    taken back and its new one added. */
module AccountingAudit {
  import opened Collections
  import opened Accounting

  datatype Limits = Limits(quotaBytes: nat, maxRecords: nat, maxIndexEntries: nat, maxStores: nat, maxIndexes: nat)

  datatype Audited = Done(total: Usage) | Refused

  /** A database that was never audited weighs its base overhead. */
  function Start(base: Usage): Usage { if base.bytes == 0 then base.(bytes := 128) else base }

  predicate Allowed(total: Usage, base: Usage, limits: Limits) {
    total.bytes <= (if base.bytes > limits.quotaBytes then base.bytes else limits.quotaBytes)
    && total.records <= limits.maxRecords && total.indexEntries <= limits.maxIndexEntries
    && total.bytes >= 0 && total.records >= 0 && total.indexEntries >= 0
  }

  // ---------------------------------------------------------------- sorting

  predicate Ascending(s: seq<Key>) { forall i, j :: 0 <= i < j < |s| ==> s[i] <= s[j] }
  predicate Strictly(s: seq<Key>) { forall i, j :: 0 <= i < j < |s| ==> s[i] < s[j] }

  function Elements(s: seq<Key>): set<Key> { set k | k in s }

  function Inserted(s: seq<Key>, k: Key): seq<Key> {
    if s == [] || k <= s[0] then [k] + s else [s[0]] + Inserted(s[1..], k)
  }

  /** The native sort. */
  function Sorted(s: seq<Key>): seq<Key> {
    if s == [] then [] else Inserted(Sorted(s[1..]), s[0])
  }

  lemma {:induction false} InsertedSorts(s: seq<Key>, k: Key)
    requires Ascending(s)
    ensures Ascending(Inserted(s, k)) && multiset(Inserted(s, k)) == multiset(s) + multiset{k}
    ensures forall x :: x in Inserted(s, k) <==> x in s || x == k
    decreases |s|
  {
    if s != [] && k > s[0] {
      InsertedSorts(s[1..], k);
      assert s == [s[0]] + s[1..];
      var t := Inserted(s[1..], k);
      forall j | 0 <= j < |t|
        ensures s[0] <= t[j]
      {
        assert t[j] in t;
      }
    } else {
      assert [k] + s == Inserted(s, k);
    }
  }

  lemma {:induction false} SortedSorts(s: seq<Key>)
    ensures Ascending(Sorted(s)) && multiset(Sorted(s)) == multiset(s) && Elements(Sorted(s)) == Elements(s)
    decreases |s|
  {
    if s != [] {
      SortedSorts(s[1..]);
      InsertedSorts(Sorted(s[1..]), s[0]);
      assert s == [s[0]] + s[1..];
      assert Elements(s) == Elements(s[1..]) + {s[0]};
      assert forall x :: x in Sorted(s[1..]) <==> x in Elements(Sorted(s[1..]));
    }
  }

  lemma ElementsGrow(s: seq<Key>, i: nat)
    requires i < |s|
    ensures s[..i + 1] == s[..i] + [s[i]] && Elements(s[..i + 1]) == Elements(s[..i]) + {s[i]}
  {
    assert s[..i + 1] == s[..i] + [s[i]];
  }

  /** Moving a candidate that is not the last one kept behind those that are. */
  lemma Compacts(keys: seq<Key>, sorted: seq<Key>, unique: nat, i: nat)
    requires |keys| == |sorted| && unique <= i < |keys| && keys[i..] == sorted[i..] && Ascending(sorted)
    requires Strictly(keys[..unique]) && Elements(keys[..unique]) == Elements(sorted[..i])
    requires 0 < i ==> 0 < unique && keys[unique - 1] == sorted[i - 1]
    requires unique == 0 || keys[unique - 1] != keys[i]
    ensures var moved := keys[unique := keys[i]];
      moved[i + 1..] == sorted[i + 1..] && Strictly(moved[..unique + 1])
      && Elements(moved[..unique + 1]) == Elements(sorted[..i + 1])
  {
    var moved := keys[unique := keys[i]];
    assert keys[i] == keys[i..][0] == sorted[i];
    assert keys[i..][1..] == keys[i + 1..] && sorted[i..][1..] == sorted[i + 1..];
    assert moved[i + 1..] == keys[i + 1..];
    assert moved[..unique] == keys[..unique];
    ElementsGrow(moved, unique);
    ElementsGrow(sorted, i);
    if unique > 0 {
      assert keys[..unique][unique - 1] == keys[unique - 1] < keys[i];
    }
  }

  lemma Repeats(keys: seq<Key>, sorted: seq<Key>, unique: nat, i: nat)
    requires |keys| == |sorted| && 0 < unique <= i < |keys| && keys[i..] == sorted[i..]
    requires Elements(keys[..unique]) == Elements(sorted[..i]) && keys[unique - 1] == keys[i]
    ensures keys[i] == sorted[i] && keys[i + 1..] == sorted[i + 1..]
    ensures Elements(keys[..unique]) == Elements(sorted[..i + 1])
  {
    assert keys[i] == keys[i..][0] == sorted[i];
    assert keys[i..][1..] == keys[i + 1..] && sorted[i..][1..] == sorted[i + 1..];
    ElementsGrow(sorted, i);
    assert keys[..unique][unique - 1] in Elements(keys[..unique]);
  }

  /** Sorts the keys and moves the distinct ones to the front of the same list. */
  method SortCompact(all: seq<Key>) returns (keys: seq<Key>)
    ensures Strictly(keys) && Elements(keys) == Elements(all)
  {
    hide Ascending, Strictly, Elements, Sorted;
    keys := Sorted(all);
    SortedSorts(all);
    ghost var sorted := keys;
    var unique := 0;
    var i := 0;
    NothingYet(keys);
    while i < |keys|
      invariant 0 <= unique <= i <= |keys| == |sorted|
      invariant keys[i..] == sorted[i..]
      invariant Strictly(keys[..unique]) && Elements(keys[..unique]) == Elements(sorted[..i])
      invariant 0 < i ==> 0 < unique && keys[unique - 1] == sorted[i - 1]
    {
      var candidate := keys[i];
      assert candidate == keys[i..][0] == sorted[i];
      if unique == 0 || keys[unique - 1] != candidate {
        Compacts(keys, sorted, unique, i);
        keys := keys[unique := candidate];
        unique := unique + 1;
      } else {
        Repeats(keys, sorted, unique, i);
      }
      i := i + 1;
    }
    assert sorted[..i] == sorted;
    keys := keys[..unique];
  }

  lemma NothingYet(keys: seq<Key>)
    ensures Strictly(keys[..0]) && Elements(keys[..0]) == {}
  {
  }

  // ---------------------------------------------------------------- one record

  ghost function EntryRows(measures: Measures, key: Key, entries: set<Key>): map<Key, Usage> {
    map e | e in entries :: EntryUsage(measures, key, e)
  }

  /** The valid keys among the candidates, in order. */
  method ValidKeys(candidates: seq<Candidate>) returns (valid: seq<Key>)
    ensures Elements(valid) == Entries(candidates)
  {
    valid := [];
    var i := 0;
    while i < |candidates|
      invariant 0 <= i <= |candidates| && Elements(valid) == Entries(candidates[..i])
    {
      assert candidates[..i + 1] == candidates[..i] + [candidates[i]];
      if candidates[i].Valid? {
        ghost var before := valid;
        valid := valid + [candidates[i].key];
        assert Elements(valid) == Elements(before) + {candidates[i].key};
        assert Entries(candidates[..i + 1]) == Entries(candidates[..i]) + {candidates[i].key};
      } else {
        assert Entries(candidates[..i + 1]) == Entries(candidates[..i]);
      }
      i := i + 1;
    }
    assert candidates[..i] == candidates;
  }

  lemma EntryRowsGrow(measures: Measures, key: Key, seen: set<Key>, e: Key)
    requires e !in seen
    ensures Sum(EntryRows(measures, key, seen + {e}))
      == Plus(Sum(EntryRows(measures, key, seen)), EntryUsage(measures, key, e))
    ensures |seen + {e}| == |seen| + 1
  {
    SumPut(EntryRows(measures, key, seen), e, EntryUsage(measures, key, e));
    assert EntryRows(measures, key, seen + {e}) == EntryRows(measures, key, seen)[e := EntryUsage(measures, key, e)];
  }

  lemma NoEntryRows(measures: Measures, key: Key)
    ensures Sum(EntryRows(measures, key, {})) == ZERO
  {
    assert EntryRows(measures, key, {}) == map[];
  }

  /** Sorting and skipping equal neighbours counts every distinct valid key once. */
  method CountEntries(measures: Measures, key: Key, candidates: seq<Candidate>) returns (usage: Usage)
    ensures usage == Sum(EntryRows(measures, key, Entries(candidates)))
    ensures usage.indexEntries == |Entries(candidates)|
  {
    hide Sum, EntryRows, Elements, Sorted, Entries, Ascending;
    var valid := ValidKeys(candidates);
    ghost var all := valid;
    valid := Sorted(valid);
    SortedSorts(all);
    usage := ZERO;
    var i := 0;
    ghost var seen: set<Key> := {};
    NoEntryRows(measures, key);
    NothingYet(valid);
    while i < |valid|
      invariant 0 <= i <= |valid| && seen == Elements(valid[..i])
      invariant usage == Sum(EntryRows(measures, key, seen)) && usage.indexEntries == |seen|
    {
      var candidate := valid[i];
      ElementsGrow(valid, i);
      if i > 0 && valid[i - 1] == candidate {
        ElementsGrow(valid, i - 1);
        assert seen + {candidate} == seen;
      } else {
        FreshKey(valid, i);
        EntryRowsGrow(measures, key, seen, candidate);
        usage := Plus(usage, EntryUsage(measures, key, candidate));
        seen := seen + {candidate};
      }
      i := i + 1;
    }
    assert valid[..i] == valid;
  }

  lemma FreshKey(s: seq<Key>, i: nat)
    requires Ascending(s) && i < |s| && (i > 0 ==> s[i - 1] != s[i])
    ensures s[i] !in Elements(s[..i])
  {
    forall j | 0 <= j < i
      ensures s[j] != s[i]
    {
      assert s[j] <= s[i - 1] <= s[i];
    }
  }

  ghost function IndexRows(measures: Measures, key: Key, value: Value, indexes: map<Name, Index>): map<Name, Usage> {
    map n | n in indexes :: IndexUsage(measures, key, value, indexes[n])
  }

  lemma IndexRowsGrow(measures: Measures, key: Key, value: Value, done: map<Name, Index>, n: Name, index: Index)
    requires n !in done
    ensures Sum(IndexRows(measures, key, value, done[n := index]))
      == Plus(Sum(IndexRows(measures, key, value, done)), IndexUsage(measures, key, value, index))
  {
    hide IndexUsage;
    var entries := IndexUsage(measures, key, value, index);
    SumPut(IndexRows(measures, key, value, done), n, entries);
    assert IndexRows(measures, key, value, done[n := index]) == IndexRows(measures, key, value, done)[n := entries];
  }

  lemma NoIndexRows(measures: Measures, key: Key, value: Value)
    ensures Sum(IndexRows(measures, key, value, map[])) == ZERO
  {
    assert IndexRows(measures, key, value, map[]) == map[];
  }

  lemma RecordUsageIs(measures: Measures, indexes: map<Name, Index>, key: Key, value: Value)
    ensures RecordUsage(measures, indexes, key, value)
      == Plus(OwnUsage(measures, key, value), Sum(IndexRows(measures, key, value, indexes)))
  {
  }

  lemma IndexUsageIs(measures: Measures, key: Key, value: Value, index: Index)
    ensures IndexUsage(measures, key, value, index)
      == Sum(EntryRows(measures, key, Entries(Candidates(measures.extract(value, index.path), index.multiEntry))))
  {
  }

  /** One index of a record. */
  method MeasureIndex(measures: Measures, key: Key, value: Value, index: Index) returns (entries: Usage)
    ensures entries == IndexUsage(measures, key, value, index)
  {
    IndexUsageIs(measures, key, value, index);
    hide Sum, IndexUsage, EntryRows, Entries;
    var candidates := Candidates(measures.extract(value, index.path), index.multiEntry);
    entries := CountEntries(measures, key, candidates);
  }

  /** localIDBRecordUsage. */
  method MeasureRecord(measures: Measures, indexes: map<Name, Index>, key: Key, value: Value) returns (usage: Usage)
    ensures usage == RecordUsage(measures, indexes, key, value)
  {
    hide Sum, IndexRows, IndexUsage, RecordUsage, EntryRows, Entries, OwnUsage, Candidates;
    usage := OwnUsage(measures, key, value);
    var left := indexes.Keys;
    ghost var done: map<Name, Index> := map[];
    NoIndexRows(measures, key, value);
    while left != {}
      invariant left <= indexes.Keys && done == indexes - left
      invariant usage == Plus(OwnUsage(measures, key, value), Sum(IndexRows(measures, key, value, done)))
      decreases |left|
    {
      var n :| n in left;
      var index := indexes[n];
      var entries := MeasureIndex(measures, key, value, index);
      IndexRowsGrow(measures, key, value, done, n, index);
      usage := Plus(usage, entries);
      done := done[n := index];
      left := left - {n};
    }
    assert done == indexes;
    RecordUsageIs(measures, indexes, key, value);
  }

  method MeasureOverhead(measures: Measures, name: Name, s: Store) returns (usage: Usage)
    ensures usage == Overhead(measures, name, s)
  {
    usage := PartOverhead(measures, name, s.keyPath);
    var left := s.indexes.Keys;
    ghost var done: map<Name, Usage> := map[];
    while left != {}
      invariant left <= s.indexes.Keys
      invariant done == map n | n in s.indexes - left :: PartOverhead(measures, n, s.indexes[n].path)
      invariant usage == Plus(PartOverhead(measures, name, s.keyPath), Sum(done))
      decreases |left|
    {
      var n :| n in left;
      var part := PartOverhead(measures, n, s.indexes[n].path);
      SumPut(done, n, part);
      usage := Plus(usage, part);
      done := done[n := part];
      left := left - {n};
    }
    assert done == map n | n in s.indexes :: PartOverhead(measures, n, s.indexes[n].path);
  }

  // ---------------------------------------------------------------- one store

  /** Rows in which the keys already worked off agree with the store, and the others are as `old'`. */
  ghost predicate Applied(measures: Measures, db: Database, n: Name, rows: map<Key, Usage>, before: map<Key, Usage>,
                          done: set<Key>)
  {
    forall k ::
      (k in done && n in db && k in db[n].records ==>
         k in rows && rows[k] == RecordUsage(measures, db[n].indexes, k, db[n].records[k]))
      && (k in done && !(n in db && k in db[n].records) ==> k !in rows)
      && (k !in done ==> (k in rows <==> k in before) && (k in rows ==> rows[k] == before[k]))
  }

  lemma AppliedNone(measures: Measures, db: Database, n: Name, rows: map<Key, Usage>)
    ensures Applied(measures, db, n, rows, rows, {})
  {
  }

  lemma AppliedOne(measures: Measures, db: Database, n: Name, rows: map<Key, Usage>, before: map<Key, Usage>,
                   done: set<Key>, k: Key, rows': map<Key, Usage>)
    requires Applied(measures, db, n, rows, before, done)
    requires rows' == if n in db && k in db[n].records
                      then rows[k := RecordUsage(measures, db[n].indexes, k, db[n].records[k])] else rows - {k}
    ensures Applied(measures, db, n, rows', before, done + {k})
  {
  }

  lemma SumDrop<K(!new)>(rows: map<K, Usage>, k: K)
    ensures Sum(rows - {k}) == Minus(Sum(rows), if k in rows then rows[k] else ZERO)
  {
    if k in rows { SumRemove(rows, k); } else { assert rows - {k} == rows; }
  }

  class Auditor {
    const measures: Measures
    const limits: Limits
    /** The database as the transaction leaves it. */
    const db: Database
    var ledger: Ledger

    constructor (measures: Measures, limits: Limits, db: Database, ledger: Ledger)
      ensures this.measures == measures && this.limits == limits && this.db == db && this.ledger == ledger
    {
      this.measures, this.limits, this.db, this.ledger := measures, limits, db, ledger;
    }

    /** Takes a record's old row back, and adds what is stored under the key now. */
    method ApplyRecord(n: Name, key: Key, current: Usage) returns (current': Usage)
      modifies this`ledger
      ensures ledger.stores == old(ledger.stores)
      ensures forall m :: m != n ==> RowsOf(ledger, m) == RowsOf(old(ledger), m)
      ensures var rows := RowsOf(old(ledger), n);
        RowsOf(ledger, n) == if n in db && key in db[n].records
                             then rows[key := RecordUsage(measures, db[n].indexes, key, db[n].records[key])]
                             else rows - {key}
      ensures Minus(current', Sum(RowsOf(ledger, n))) == Minus(current, Sum(RowsOf(old(ledger), n)))
    {
      hide Sum, RecordUsage;
      var rows := RowsOf(ledger, n);
      SumDrop(rows, key);
      current' := current;
      if key in rows { current' := Minus(current', rows[key]); }
      if n in db && key in db[n].records {
        var usage := MeasureRecord(measures, db[n].indexes, key, db[n].records[key]);
        SumPut(rows, key, usage);
        current' := Plus(current', usage);
        ledger := ledger.(records := ledger.records[n := rows[key := usage]]);
      } else {
        ledger := ledger.(records := ledger.records[n := rows - {key}]);
      }
    }

    /** The distinct keys, one by one. */
    method ApplyKeys(n: Name, all: seq<Key>, current: Usage) returns (current': Usage)
      modifies this`ledger
      ensures ledger.stores == old(ledger.stores)
      ensures forall m :: m != n ==> RowsOf(ledger, m) == RowsOf(old(ledger), m)
      ensures Applied(measures, db, n, RowsOf(ledger, n), RowsOf(old(ledger), n), Elements(all))
      ensures Minus(current', Sum(RowsOf(ledger, n))) == Minus(current, Sum(RowsOf(old(ledger), n)))
    {
      hide Sum, RecordUsage, Applied, Elements, Strictly;
      var keys := SortCompact(all);
      var keyOffset := 0;
      current' := current;
      ghost var before := RowsOf(ledger, n);
      AppliedNone(measures, db, n, before);
      NothingYet(keys);
      while keyOffset < |keys|
        invariant 0 <= keyOffset <= |keys| && ledger.stores == old(ledger.stores)
        invariant forall m :: m != n ==> RowsOf(ledger, m) == RowsOf(old(ledger), m)
        invariant Applied(measures, db, n, RowsOf(ledger, n), before, Elements(keys[..keyOffset]))
        invariant Minus(current', Sum(RowsOf(ledger, n))) == Minus(current, Sum(before))
      {
        var key := keys[keyOffset];
        ghost var rows := RowsOf(ledger, n);
        current' := ApplyRecord(n, key, current');
        AppliedOne(measures, db, n, rows, before, Elements(keys[..keyOffset]), key, RowsOf(ledger, n));
        ElementsGrow(keys, keyOffset);
        keyOffset := keyOffset + 1;
      }
      assert keys[..keyOffset] == keys;
    }

    /** Every key a cursor finds is queued. */
    method QueueKeys(start: seq<Key>, found: set<Key>) returns (keys: seq<Key>)
      ensures Elements(keys) == Elements(start) + found
    {
      hide Elements;
      keys := start;
      var cursor := found;
      while cursor != {}
        invariant cursor <= found && Elements(keys) == Elements(start) + (found - cursor)
        decreases |cursor|
      {
        SomeKey(cursor);
        var k: Key :| k in cursor;
        ElementsSnoc(keys, k);
        keys := keys + [k];
        cursor := cursor - {k};
      }
    }

    /** The keys of a store's rows inside any of the ranges. */
    method CollectRanges(n: Name, start: seq<Key>, ranges: seq<Range>) returns (keys: seq<Key>)
      ensures Elements(keys) == Elements(start) + Ranged(RowsOf(ledger, n), ranges)
    {
      hide Elements, Ranged, InRange, RowsOf;
      keys := start;
      var i := 0;
      RangedNone(RowsOf(ledger, n));
      assert ranges[..0] == [];
      while i < |ranges|
        invariant 0 <= i <= |ranges| && Elements(keys) == Elements(start) + Ranged(RowsOf(ledger, n), ranges[..i])
      {
        var query := ranges[i];
        var cursor := set k | k in RowsOf(ledger, n) && InRange(query, k);
        RangedMore(RowsOf(ledger, n), ranges, i);
        keys := QueueKeys(keys, cursor);
        i := i + 1;
      }
      assert ranges[..i] == ranges;
    }

    /** Every record of a rebuilt store, measured again. */
    method Rebuild(n: Name, current: Usage) returns (current': Usage)
      requires n in db && RowsOf(ledger, n) == map[]
      modifies this`ledger
      ensures ledger.stores == old(ledger.stores)
      ensures forall m :: m != n ==> RowsOf(ledger, m) == RowsOf(old(ledger), m)
      ensures RowsOf(ledger, n) == RecordRows(measures, db[n])
      ensures current' == Plus(current, Sum(RecordRows(measures, db[n])))
    {
      hide Sum, RecordUsage;
      current' := current;
      var s := db[n];
      var left := s.records.Keys;
      SumNone<Key>();
      while left != {}
        invariant left <= s.records.Keys && ledger.stores == old(ledger.stores)
        invariant forall m :: m != n ==> RowsOf(ledger, m) == RowsOf(old(ledger), m)
        invariant RowsOf(ledger, n) == RecordRows(measures, s) - left
        invariant current' == Plus(current, Sum(RowsOf(ledger, n)))
        decreases |left|
      {
        SomeKey(left);
        var k: Key :| k in left;
        var usage := MeasureRecord(measures, s.indexes, k, s.records[k]);
        var rows := RowsOf(ledger, n);
        SumPut(rows, k, usage);
        current' := Plus(current', usage);
        ledger := ledger.(records := ledger.records[n := rows[k := usage]]);
        left := left - {k};
        assert rows[k := usage] == RecordRows(measures, s) - left;
      }
      assert RowsOf(ledger, n) == RecordRows(measures, s);
    }

    /** A store that was cleared, restructured or dropped: its rows go, and are measured again where it is needed. */
    method MeasureAfresh(n: Name, p: Plan, ghost before: Database) returns (ok: bool, current: Usage)
      requires StoreCovered(before, db, n, p) && (p.reset || p.rebuild || n !in db)
      modifies this`ledger
      ensures ledger.stores == old(ledger.stores)
      ensures forall m :: m != n ==> RowsOf(ledger, m) == RowsOf(old(ledger), m)
      ensures ok && n in db ==> RowsOf(ledger, n) == RecordRows(measures, db[n])
                                && current == StoreUsage(measures, n, db[n])
      ensures ok && n !in db ==> RowsOf(ledger, n) == map[] && current == ZERO
      ensures ok <==> (n in db ==> |db[n].indexes| <= limits.maxIndexes)
    {
      hide Sum, RecordRows, Overhead, Elements, StoreCovered, Applied;
      ledger := ledger.(records := ledger.records - {n});
      current := ZERO;
      SumNone<Key>();
      if n in db {
        if |db[n].indexes| > limits.maxIndexes { return false, current; }
        current := MeasureOverhead(measures, n, db[n]);
      }
      if p.rebuild && n in db {
        current := Rebuild(n, current);
      } else {
        current := ApplyKeys(n, p.keys, current);
        ResetRows(measures, before, db, n, p, RowsOf(ledger, n));
      }
      ok := true;
    }

    /** The rows of one store and its weight, brought up to date by its plan. */
    method MeasureStore(n: Name, p: Plan, ghost before: Database) returns (ok: bool, current: Usage)
      requires StoreExact(measures, ledger, before, n) && StoreCovered(before, db, n, p)
      modifies this`ledger
      ensures ledger.stores == old(ledger.stores)
      ensures forall m :: m != n ==> RowsOf(ledger, m) == RowsOf(old(ledger), m)
      ensures ok && n in db ==> RowsOf(ledger, n) == RecordRows(measures, db[n])
                                && current == StoreUsage(measures, n, db[n])
      ensures ok && n !in db ==> RowsOf(ledger, n) == map[] && current == ZERO
      ensures ok <==> ((p.reset || p.rebuild) && n in db ==> |db[n].indexes| <= limits.maxIndexes)
    {
      hide Sum, RecordRows, Overhead, Elements, Applied, Ranged;
      if p.reset || p.rebuild || n !in db {
        ok, current := MeasureAfresh(n, p, before);
        return;
      }
      current := StoreRow(ledger, n);
      var keys := CollectRanges(n, p.keys, p.ranges);
      ghost var old' := RowsOf(ledger, n);
      current := ApplyKeys(n, keys, current);
      KeptRows(measures, before, db, n, p, old', RowsOf(ledger, n), Elements(keys));
      ok := true;
    }

    /** A store's weight replaces its row and its part of the total. */
    method FinishStore(n: Name, current: Usage, total: Usage) returns (total': Usage)
      modifies this`ledger
      ensures ledger.records == old(ledger.records)
      ensures ledger.stores == if n in db then old(ledger.stores)[n := current] else old(ledger.stores) - {n}
      ensures n in db || current == ZERO ==>
        Minus(total', Sum(ledger.stores)) == Minus(total, Sum(old(ledger.stores)))
    {
      hide Sum;
      var previous := StoreRow(ledger, n);
      total' := Plus(Minus(total, previous), current);
      SumDrop(ledger.stores, n);
      if n in db {
        SumPut(ledger.stores, n, current);
        ledger := ledger.(stores := ledger.stores[n := current]);
      } else {
        ledger := ledger.(stores := ledger.stores - {n});
      }
    }

    /** auditLocalIDBChanges: from a ledger that was exact before the changes to one that is exact after them, or a
        refusal that aborts the transaction. */
    method Audit(plans: map<Name, Plan>, base: Usage, ghost before: Database) returns (r: Audited)
      requires Exact(measures, ledger, before) && Covered(before, db, plans)
      modifies this`ledger
      ensures r.Done? ==> Exact(measures, ledger, db)
      ensures r.Done? ==>
        r.total == Plus(Start(base), Minus(Recount(measures, db), Recount(measures, before)))
        && Allowed(r.total, base, limits)
      ensures r.Refused? ==>
        |db| > limits.maxStores || (exists n :: n in db && |db[n].indexes| > limits.maxIndexes)
        || !Allowed(Plus(Start(base), Minus(Recount(measures, db), Recount(measures, before))), base, limits)
    {
      hide Sum, StoreExact, StoreCovered;
      if |db| > limits.maxStores { return Refused; }
      var total := Start(base);
      var pending := plans.Keys;
      ExactStores(measures, ledger, before);
      while pending != {}
        invariant pending <= plans.Keys
        invariant forall n :: n in pending ==> StoreExact(measures, ledger, before, n)
        invariant forall n :: n in plans.Keys - pending ==> StoreExact(measures, ledger, db, n)
        invariant forall n :: n !in plans ==> StoreExact(measures, ledger, before, n)
        invariant Minus(total, Sum(ledger.stores)) == Minus(Start(base), Sum(StoreRows(measures, before)))
        decreases |pending|
      {
        var n :| n in pending;
        assert StoreCovered(before, db, n, PlanOf(plans, n));
        ghost var was := ledger;
        var ok, current := MeasureStore(n, plans[n], before);
        if !ok { return Refused; }
        total := FinishStore(n, current, total);
        StoreFinished(measures, was, ledger, before, db, n, current);
        pending := pending - {n};
      }
      forall n
        ensures StoreExact(measures, ledger, db, n)
      {
        if n !in plans { Untouched(measures, ledger, before, db, n, plans); }
      }
      ExactStores(measures, ledger, db);
      if !Allowed(total, base, limits) { return Refused; }
      return Done(total);
    }
  }

  /** An exact ledger's store rows are those of a recount. */
  lemma ExactStores(measures: Measures, l: Ledger, db: Database)
    requires Exact(measures, l, db)
    ensures l.stores == StoreRows(measures, db)
  {
    forall n
      ensures n in l.stores <==> n in db
      ensures n in db ==> l.stores[n] == StoreUsage(measures, n, db[n])
    {
      assert StoreExact(measures, l, db, n);
    }
  }

  /** Finishing one store makes its rows exact and leaves the others as they were. */
  lemma StoreFinished(measures: Measures, was: Ledger, l: Ledger, before: Database, db: Database, n: Name,
                      current: Usage)
    requires n in db ==> RowsOf(l, n) == RecordRows(measures, db[n]) && current == StoreUsage(measures, n, db[n])
    requires n !in db ==> RowsOf(l, n) == map[]
    requires l.stores == if n in db then was.stores[n := current] else was.stores - {n}
    requires forall m :: m != n ==> RowsOf(l, m) == RowsOf(was, m)
    ensures StoreExact(measures, l, db, n)
    ensures forall m :: m != n && StoreExact(measures, was, before, m) ==> StoreExact(measures, l, before, m)
    ensures forall m :: m != n && StoreExact(measures, was, db, m) ==> StoreExact(measures, l, db, m)
  {
    hide StoreUsage, RecordRows;
  }

  /** A store no plan mentions is the same after the transaction. */
  lemma Untouched(measures: Measures, l: Ledger, before: Database, db: Database, n: Name, plans: map<Name, Plan>)
    requires n !in plans && Covered(before, db, plans) && StoreExact(measures, l, before, n)
    ensures StoreExact(measures, l, db, n)
  {
    hide StoreUsage, RecordRows;
    assert StoreCovered(before, db, n, NOTHING) by {
      assert StoreCovered(before, db, n, PlanOf(plans, n));
    }
    if n in db {
      forall k: Key
        ensures k in db[n].records <==> k in before[n].records
        ensures k in db[n].records ==> db[n].records[k] == before[n].records[k]
      {
      }
      assert db[n].records == before[n].records;
      assert db[n] == before[n];
    }
  }

  lemma SomeKey(s: set<Key>)
    ensures s == {} || exists k: Key :: k in s
  {
    assert (forall k: Key :: k !in s) ==> s == {};
  }

  lemma SumNone<K(!new)>()
    ensures Sum<K>(map[]) == ZERO
  {
  }

  lemma ElementsSnoc(s: seq<Key>, k: Key)
    ensures Elements(s + [k]) == Elements(s) + {k}
  {
  }

  ghost function Ranged(rows: map<Key, Usage>, ranges: seq<Range>): set<Key> {
    set k | k in rows && exists r :: r in ranges && InRange(r, k)
  }

  lemma RangedNone(rows: map<Key, Usage>)
    ensures Ranged(rows, []) == {}
  {
  }

  lemma RangedMore(rows: map<Key, Usage>, ranges: seq<Range>, i: nat)
    requires i < |ranges|
    ensures Ranged(rows, ranges[..i + 1]) == Ranged(rows, ranges[..i]) + set k | k in rows && InRange(ranges[i], k)
  {
    assert ranges[..i + 1] == ranges[..i] + [ranges[i]];
    forall k | k in rows && InRange(ranges[i], k)
      ensures k in Ranged(rows, ranges[..i + 1])
    {
      assert ranges[i] in ranges[..i + 1];
    }
    forall k | k in Ranged(rows, ranges[..i])
      ensures k in Ranged(rows, ranges[..i + 1])
    {
      var r :| r in ranges[..i] && InRange(r, k);
      assert r in ranges[..i + 1];
    }
  }

  /** After a reset only the keys the transaction wrote can be left. */
  lemma ResetRows(measures: Measures, before: Database, db: Database, n: Name, p: Plan, rows: map<Key, Usage>)
    requires StoreCovered(before, db, n, p) && (n in db ==> p.reset && !p.rebuild)
    requires Applied(measures, db, n, rows, map[], Elements(p.keys))
    ensures rows == if n in db then RecordRows(measures, db[n]) else map[]
  {
    hide RecordUsage;
    if n in db {
      assert forall k :: k in db[n].records ==> k in Elements(p.keys);
      assert forall k :: k in rows <==> k in RecordRows(measures, db[n]);
    } else {
      assert forall k :: k !in rows;
    }
  }

  /** Without a reset the keys not worked off kept their records. */
  lemma KeptRows(measures: Measures, before: Database, db: Database, n: Name, p: Plan, old': map<Key, Usage>,
                 rows: map<Key, Usage>, done: set<Key>)
    requires StoreCovered(before, db, n, p) && n in db && !p.reset && !p.rebuild
    requires old' == RecordRows(measures, before[n])
    requires Applied(measures, db, n, rows, old', done) && done == Elements(p.keys) + Ranged(old', p.ranges)
    ensures rows == RecordRows(measures, db[n]) && Overhead(measures, n, db[n]) == Overhead(measures, n, before[n])
  {
    hide RecordUsage, Sum;
    forall k
      ensures k in rows <==> k in RecordRows(measures, db[n])
      ensures k in rows ==> rows[k] == RecordRows(measures, db[n])[k]
    {
    }
  }

  // ---------------------------------------------------------------- whole transactions

  /** A transaction's changes, audited once. */
  lemma TransactionPlans(before: Database, cs: seq<Change>)
    requires AllPossible(before, cs)
    ensures Covered(before, AllPerformed(before, cs), Plans(cs))
  {
    ChangesCovered(before, cs);
  }

  /** The total the audit reports for going from one database to another on a given base. */
  ghost function Reported(measures: Measures, base: Usage, before: Database, after: Database): Usage {
    Plus(Start(base), Minus(Recount(measures, after), Recount(measures, before)))
  }

  /** On the base the transaction began with, the audited total is the recount. */
  lemma AuditIsRecount(measures: Measures, base: Usage, before: Database, after: Database)
    requires Start(base) == Recount(measures, before)
    ensures Reported(measures, base, before, after) == Recount(measures, after)
  {
  }

  /** A second audit in the same transaction starts from the base of the first, though the rows have moved on: its
      total is the recount exactly when the first audit reported that base. */
  lemma SecondAuditIsRecountIff(measures: Measures, base: Usage, before: Database, mid: Database, after: Database)
    requires Start(base) == Recount(measures, before)
    ensures Reported(measures, base, mid, after) == Recount(measures, after)
      <==> Reported(measures, base, before, mid) == Start(base)
  {
    hide Recount;
  }

  /** One put, audited, and nothing more, audited again: the second total misses the put. */
  lemma SecondAuditMisses(measures: Measures, k: Key, v: Value)
    ensures var before: Database := map["s" := Store(0, map[], map[])];
      var mid := Performed(before, Put("s", k, v));
      Reported(measures, Recount(measures, before), mid, mid) != Recount(measures, mid)
  {
    var before: Database := map["s" := Store(0, map[], map[])];
    var mid := Performed(before, Put("s", k, v));
    assert mid == map["s" := Store(0, map[], map[k := v])];
    OneStore(measures, before, "s");
    OneStore(measures, mid, "s");
    EmptyStore(measures);
    OneRecord(measures, k, v);
    hide Recount, StoreUsage, Overhead, RecordRows, RecordUsage, Sum;
  }

  lemma EmptyStore(measures: Measures)
    ensures StoreUsage(measures, "s", Store(0, map[], map[])) == Overhead(measures, "s", Store(0, map[], map[]))
  {
    SumNone<Key>();
    assert RecordRows(measures, Store(0, map[], map[])) == map[];
  }

  lemma OneRecord(measures: Measures, k: Key, v: Value)
    ensures var s := Store(0, map[], map[k := v]);
      StoreUsage(measures, "s", s).records == 1 && Overhead(measures, "s", s).records == Overhead(measures, "s", Store(0, map[], map[])).records == 0
  {
    var s := Store(0, map[], map[k := v]);
    var row := RecordUsage(measures, map[], k, v);
    assert RecordRows(measures, s) == map[k := row];
    SumNone<Key>();
    SumRemove(map[k := row], k);
    assert map[k := row] - {k} == map[];
    NoIndexRows(measures, k, v);
    RecordUsageIs(measures, map[], k, v);
    SumNone<Name>();
    assert (map n | n in s.indexes :: PartOverhead(measures, n, s.indexes[n].path)) == map[];
  }

  lemma OneStore(measures: Measures, db: Database, n: Name)
    requires db.Keys == {n}
    ensures Recount(measures, db) == Plus(Usage(128, 0, 0), StoreUsage(measures, n, db[n]))
  {
    var rows := StoreRows(measures, db);
    SumRemove(rows, n);
    assert rows - {n} == map[];
    SumNone<Name>();
  }

  /** Notes every change in the plan of its store. */
  method PreparePlans(cs: seq<Change>) returns (plans: map<Name, Plan>)
    ensures plans == Plans(cs)
  {
    plans := map[];
    var i := 0;
    assert cs[..0] == [];
    while i < |cs|
      invariant 0 <= i <= |cs| && plans == Plans(cs[..i])
    {
      assert cs[..i + 1][..i] == cs[..i];
      plans := Noted(plans, cs[i]);
      i := i + 1;
    }
    assert cs[..i] == cs;
  }

  /** The changes of one transaction, performed and audited: the ledger is exact again and the total a recount. */
  method AuditTransaction(auditor: Auditor, ghost before: Database, cs: seq<Change>, base: Usage) returns (r: Audited)
    requires AllPossible(before, cs) && auditor.db == AllPerformed(before, cs)
    requires Exact(auditor.measures, auditor.ledger, before) && Start(base) == Recount(auditor.measures, before)
    modifies auditor
    ensures r.Done? ==> Exact(auditor.measures, auditor.ledger, auditor.db)
                        && r.total == Recount(auditor.measures, auditor.db)
  {
    TransactionPlans(before, cs);
    var plans := PreparePlans(cs);
    r := auditor.Audit(plans, base, before);
    AuditIsRecount(auditor.measures, base, before, auditor.db);
  }
}
