/** What a website database weighs (runtime/local-idb-accounting.ts): a full recount of its stores, and the ledger
    of store and record rows kept beside them. */
module Accounting {
  import opened Collections

  type Name(!new, ==) = string

  /** Native keys, in their total order. */
  type Key(!new, ==) = int

  type Value(!new, ==) = int
  type Path(!new, ==) = int

  /** Something an index might use as a key. */
  datatype Candidate = Invalid | Valid(key: Key)

  /** What a key path finds in a value: as one candidate, and as the elements of an array if it is one. */
  datatype Extracted = Extracted(whole: Candidate, parts: Option<seq<Candidate>>)

  /** The sizes and key paths the native layer answers for. */
  datatype Measures = Measures(keyBytes: Key -> nat, valueBytes: Value -> nat, pathBytes: Path -> nat,
                               extract: (Value, Path) -> Extracted)

  datatype Index = Index(path: Path, multiEntry: bool)

  datatype Store = Store(keyPath: Path, indexes: map<Name, Index>, records: map<Key, Value>)

  type Database = map<Name, Store>

  datatype Usage = Usage(bytes: int, records: int, indexEntries: int)

  const ZERO := Usage(0, 0, 0)

  function Plus(a: Usage, b: Usage): Usage {
    Usage(a.bytes + b.bytes, a.records + b.records, a.indexEntries + b.indexEntries)
  }

  function Minus(a: Usage, b: Usage): Usage {
    Usage(a.bytes - b.bytes, a.records - b.records, a.indexEntries - b.indexEntries)
  }

  // ---------------------------------------------------------------- sums

  ghost function Sum<K(!new)>(m: map<K, Usage>): Usage
    decreases |m|
  {
    if m == map[] then ZERO
    else
      var k :| k in m;
      assert |m - {k}| < |m| by { Shrinks(m, k); }
      Plus(m[k], Sum(m - {k}))
  }

  lemma {:induction false} SumRemove<K(!new)>(m: map<K, Usage>, k: K)
    requires k in m
    ensures Sum(m) == Plus(m[k], Sum(m - {k}))
    decreases |m|
  {
    var j :| j in m && Sum(m) == Plus(m[j], Sum(m - {j}));
    if j != k {
      Shrinks(m, j);
      SumRemove(m - {j}, k);
      Shrinks(m, k);
      SumRemove(m - {k}, j);
      assert m - {j} - {k} == m - {k} - {j};
      var rest := Sum(m - {j} - {k});
      assert Plus(m[j], Plus(m[k], rest)) == Plus(m[k], Plus(m[j], rest));
    }
  }

  lemma SumPut<K(!new)>(m: map<K, Usage>, k: K, u: Usage)
    ensures Sum(m[k := u]) == Plus(Minus(Sum(m), if k in m then m[k] else ZERO), u)
  {
    SumRemove(m[k := u], k);
    if k in m {
      SumRemove(m, k);
      assert m[k := u] - {k} == m - {k};
    } else {
      assert m[k := u] - {k} == m;
    }
  }

  // ---------------------------------------------------------------- one record

  function Candidates(extracted: Extracted, multiEntry: bool): seq<Candidate> {
    if multiEntry && extracted.parts.Some? then extracted.parts.value else [extracted.whole]
  }

  /** The entries a record has in an index: one for every distinct valid key. */
  function Entries(candidates: seq<Candidate>): set<Key> {
    set c | c in candidates && c.Valid? :: c.key
  }

  function EntryUsage(measures: Measures, key: Key, entry: Key): Usage {
    Usage(32 + measures.keyBytes(entry) + measures.keyBytes(key), 0, 1)
  }

  ghost function IndexUsage(measures: Measures, key: Key, value: Value, index: Index): Usage {
    var entries := Entries(Candidates(measures.extract(value, index.path), index.multiEntry));
    Sum(map e | e in entries :: EntryUsage(measures, key, e))
  }

  function OwnUsage(measures: Measures, key: Key, value: Value): Usage {
    Usage(64 + measures.keyBytes(key) + measures.valueBytes(value), 1, 0)
  }

  ghost function RecordUsage(measures: Measures, indexes: map<Name, Index>, key: Key, value: Value): Usage {
    Plus(OwnUsage(measures, key, value), Sum(map n | n in indexes :: IndexUsage(measures, key, value, indexes[n])))
  }

  // ---------------------------------------------------------------- a database

  function PartOverhead(measures: Measures, name: Name, path: Path): Usage {
    Usage(128 + 2 * |name| + measures.pathBytes(path), 0, 0)
  }

  ghost function Overhead(measures: Measures, name: Name, s: Store): Usage {
    Plus(PartOverhead(measures, name, s.keyPath),
         Sum(map n | n in s.indexes :: PartOverhead(measures, n, s.indexes[n].path)))
  }

  ghost function RecordRows(measures: Measures, s: Store): map<Key, Usage> {
    map k | k in s.records :: RecordUsage(measures, s.indexes, k, s.records[k])
  }

  ghost function StoreUsage(measures: Measures, name: Name, s: Store): Usage {
    Plus(Overhead(measures, name, s), Sum(RecordRows(measures, s)))
  }

  ghost function StoreRows(measures: Measures, db: Database): map<Name, Usage> {
    map n | n in db :: StoreUsage(measures, n, db[n])
  }

  /** A full recount. */
  ghost function Recount(measures: Measures, db: Database): Usage {
    Plus(Usage(128, 0, 0), Sum(StoreRows(measures, db)))
  }

  // ---------------------------------------------------------------- the ledger

  /** The rows kept beside the website's stores: one a store, and one a record. */
  datatype Ledger = Ledger(stores: map<Name, Usage>, records: map<Name, map<Key, Usage>>)

  function RowsOf(l: Ledger, n: Name): map<Key, Usage> {
    if n in l.records then l.records[n] else map[]
  }

  function StoreRow(l: Ledger, n: Name): Usage {
    if n in l.stores then l.stores[n] else ZERO
  }

  /** The rows of store n are exactly those of a recount. */
  ghost predicate StoreExact(measures: Measures, l: Ledger, db: Database, n: Name) {
    (n in l.stores <==> n in db)
    && (n in db ==> l.stores[n] == StoreUsage(measures, n, db[n]) && RowsOf(l, n) == RecordRows(measures, db[n]))
    && (n !in db ==> RowsOf(l, n) == map[])
  }

  ghost predicate Exact(measures: Measures, l: Ledger, db: Database) {
    forall n :: StoreExact(measures, l, db, n)
  }

  // ---------------------------------------------------------------- changes

  datatype Range = Range(lower: Option<Key>, upper: Option<Key>, lowerOpen: bool, upperOpen: bool)

  predicate InRange(r: Range, k: Key) {
    (r.lower.Some? ==> if r.lowerOpen then r.lower.value < k else r.lower.value <= k)
    && (r.upper.Some? ==> if r.upperOpen then k < r.upper.value else k <= r.upper.value)
  }

  /** What a website does to its database in one transaction. */
  datatype Change =
    | Put(store: Name, key: Key, value: Value)
    | DeleteKey(store: Name, key: Key)
    | DeleteRange(store: Name, range: Range)
    | Clear(store: Name)
    | CreateStore(store: Name, keyPath: Path)
    | DeleteStore(store: Name)
    | RenameStore(store: Name, name: Name)
    | CreateIndex(store: Name, indexName: Name, index: Index)
    | DeleteIndex(store: Name, indexName: Name)
    | RenameIndex(store: Name, indexName: Name, newName: Name)

  predicate Possible(db: Database, c: Change) {
    match c
    case CreateStore(n, _) => n !in db
    case RenameStore(n, m) => n in db && m !in db
    case CreateIndex(n, i, _) => n in db && i !in db[n].indexes
    case DeleteIndex(n, i) => n in db && i in db[n].indexes
    case RenameIndex(n, i, j) => n in db && i in db[n].indexes && j !in db[n].indexes
    case _ => c.store in db
  }

  function Performed(db: Database, c: Change): Database
    requires Possible(db, c)
  {
    match c
    case Put(n, k, v) => db[n := db[n].(records := db[n].records[k := v])]
    case DeleteKey(n, k) => db[n := db[n].(records := db[n].records - {k})]
    case DeleteRange(n, r) => db[n := db[n].(records := map k | k in db[n].records && !InRange(r, k) :: db[n].records[k])]
    case Clear(n) => db[n := db[n].(records := map[])]
    case CreateStore(n, path) => db[n := Store(path, map[], map[])]
    case DeleteStore(n) => db - {n}
    case RenameStore(n, m) => (db - {n})[m := db[n]]
    case CreateIndex(n, i, index) => db[n := db[n].(indexes := db[n].indexes[i := index])]
    case DeleteIndex(n, i) => db[n := db[n].(indexes := db[n].indexes - {i})]
    case RenameIndex(n, i, j) => db[n := db[n].(indexes := (db[n].indexes - {i})[j := db[n].indexes[i]])]
  }

  predicate AllPossible(db: Database, cs: seq<Change>)
    decreases |cs|, 0
  {
    cs == [] || (AllPossible(db, cs[..|cs| - 1]) && Possible(AllPerformed(db, cs[..|cs| - 1]), cs[|cs| - 1]))
  }

  function AllPerformed(db: Database, cs: seq<Change>): Database
    requires AllPossible(db, cs)
    decreases |cs|, 1
  {
    if cs == [] then db else Performed(AllPerformed(db, cs[..|cs| - 1]), cs[|cs| - 1])
  }

  // ---------------------------------------------------------------- plans

  datatype Plan = Plan(reset: bool, rebuild: bool, keys: seq<Key>, ranges: seq<Range>)

  const NOTHING := Plan(false, false, [], [])

  function PlanOf(plans: map<Name, Plan>, n: Name): Plan { if n in plans then plans[n] else NOTHING }

  /** The plans with one more change noted. */
  function Noted(plans: map<Name, Plan>, c: Change): map<Name, Plan> {
    var p := PlanOf(plans, c.store);
    match c
    case Put(n, k, _) => plans[n := p.(keys := p.keys + [k])]
    case DeleteKey(n, k) => plans[n := p.(keys := p.keys + [k])]
    case DeleteRange(n, r) => plans[n := p.(ranges := p.ranges + [r])]
    case Clear(n) => plans[n := p.(reset := true)]
    case RenameStore(n, m) =>
      var first := plans[n := p.(rebuild := true, reset := true)];
      first[m := PlanOf(first, m).(rebuild := true)]
    case _ => plans[c.store := p.(rebuild := true)]
  }

  function Plans(cs: seq<Change>): map<Name, Plan> {
    if cs == [] then map[] else Noted(Plans(cs[..|cs| - 1]), cs[|cs| - 1])
  }

  /** The plan of store n says where two states of it may differ. */
  predicate StoreCovered(before: Database, after: Database, n: Name, p: Plan) {
    (n in after && !p.reset && !p.rebuild ==>
       n in before && after[n].keyPath == before[n].keyPath && after[n].indexes == before[n].indexes
       && (forall k :: k in after[n].records && k !in p.keys ==>
             k in before[n].records && after[n].records[k] == before[n].records[k])
       && (forall k :: k in before[n].records && k !in after[n].records && k !in p.keys ==>
             exists r :: r in p.ranges && InRange(r, k)))
    && (n in after && p.reset && !p.rebuild ==> forall k :: k in after[n].records ==> k in p.keys)
    && (n !in after && n in before ==> p.rebuild)
  }

  ghost predicate Covered(before: Database, after: Database, plans: map<Name, Plan>) {
    forall n :: StoreCovered(before, after, n, PlanOf(plans, n))
  }

  lemma CoveredStep(before: Database, mid: Database, plans: map<Name, Plan>, c: Change, n: Name)
    requires Covered(before, mid, plans) && Possible(mid, c)
    ensures StoreCovered(before, Performed(mid, c), n, PlanOf(Noted(plans, c), n))
  {
    assert StoreCovered(before, mid, n, PlanOf(plans, n));
    var p, p' := PlanOf(plans, n), PlanOf(Noted(plans, c), n);
    if c.DeleteRange? && n == c.store && !p.reset && !p.rebuild {
      assert p'.ranges[|p.ranges|] == c.range;
      forall k | k in before[n].records && k !in Performed(mid, c)[n].records && k !in p'.keys
        ensures exists r :: r in p'.ranges && InRange(r, k)
      {
        if k in mid[n].records {
          assert c.range in p'.ranges && InRange(c.range, k);
        } else {
          var r :| r in p.ranges && InRange(r, k);
          assert r in p'.ranges;
        }
      }
    }
  }

  /** After any changes, the plans noted for them cover every difference; plans noted earlier do no harm. */
  lemma {:induction false} ChangesCovered(before: Database, cs: seq<Change>)
    requires AllPossible(before, cs)
    ensures Covered(before, AllPerformed(before, cs), Plans(cs))
    decreases |cs|
  {
    if cs != [] {
      var init := cs[..|cs| - 1];
      ChangesCovered(before, init);
      forall n
        ensures StoreCovered(before, AllPerformed(before, cs), n, PlanOf(Plans(cs), n))
      {
        CoveredStep(before, AllPerformed(before, init), Plans(init), cs[|cs| - 1], n);
      }
    }
  }

  /** Plans that cover all of a transaction's changes also cover those made after any point of it. */
  lemma {:induction false} LaterChangesCovered(before: Database, cs: seq<Change>, k: nat)
    requires k <= |cs| && AllPossible(before, cs)
    ensures AllPossible(before, cs[..k])
    ensures Covered(AllPerformed(before, cs[..k]), AllPerformed(before, cs), Plans(cs))
    decreases |cs|
  {
    if k == |cs| {
      assert cs[..k] == cs;
      ChangesCovered(before, cs);
      var mid := AllPerformed(before, cs);
      forall n
        ensures StoreCovered(mid, mid, n, PlanOf(Plans(cs), n))
      {
        assert StoreCovered(before, mid, n, PlanOf(Plans(cs), n));
      }
    } else {
      var init := cs[..|cs| - 1];
      LaterChangesCovered(before, init, k);
      assert init[..k] == cs[..k];
      forall n
        ensures StoreCovered(AllPerformed(before, cs[..k]), AllPerformed(before, cs), n, PlanOf(Plans(cs), n))
      {
        CoveredStep(AllPerformed(before, cs[..k]), AllPerformed(before, init), Plans(init), cs[|cs| - 1], n);
      }
    }
  }
}
