/** A Map as JavaScript keeps it: entries in the order they were added, each key once, the oldest first. */
module Recency {
  import opened Collections

  datatype Item<+K, +V> = Item(key: K, value: V)

  predicate Once<K(==), V>(s: seq<Item<K, V>>) {
    forall i, j :: 0 <= i < j < |s| ==> s[i].key != s[j].key
  }

  function Find<K(==), V>(s: seq<Item<K, V>>, k: K): Option<V> {
    if s == [] then None else if s[0].key == k then Some(s[0].value) else Find(s[1..], k)
  }

  function Without<K(==), V>(s: seq<Item<K, V>>, k: K): seq<Item<K, V>> {
    if s == [] then [] else if s[0].key == k then Without(s[1..], k) else [s[0]] + Without(s[1..], k)
  }

  function Weight<K, V>(s: seq<Item<K, V>>, f: V -> nat): nat {
    if s == [] then 0 else f(s[0].value) + Weight(s[1..], f)
  }

  lemma {:induction false} WithoutFinds<K, V>(s: seq<Item<K, V>>, k: K, j: K)
    ensures Find(Without(s, k), j) == if j == k then None else Find(s, j)
    decreases |s|
  {
    if s != [] {
      WithoutFinds(s[1..], k, j);
    }
  }

  lemma {:induction false} WithoutMember<K, V>(s: seq<Item<K, V>>, k: K, x: Item<K, V>)
    requires x in Without(s, k)
    ensures x in s && x.key != k
    decreases |s|
  {
    if s[0].key == k || x != s[0] {
      WithoutMember(s[1..], k, x);
    }
  }

  lemma {:induction false} WithoutOnce<K, V>(s: seq<Item<K, V>>, k: K)
    requires Once(s)
    ensures Once(Without(s, k))
    decreases |s|
  {
    if s != [] {
      WithoutOnce(s[1..], k);
      if s[0].key != k {
        var rest := Without(s[1..], k);
        var t := [s[0]] + rest;
        forall j | 1 <= j < |t|
          ensures t[0].key != t[j].key
        {
          var x := rest[j - 1];
          WithoutMember(s[1..], k, x);
          var i :| 0 <= i < |s[1..]| && s[1..][i] == x;
          assert s[i + 1] == t[j];
        }
      }
    }
  }

  /** Deleting a key takes away what it had. */
  lemma {:induction false} WithoutWeighs<K, V>(s: seq<Item<K, V>>, k: K, f: V -> nat)
    requires Once(s)
    ensures Weight(Without(s, k), f) == Weight(s, f) - (if Find(s, k).Some? then f(Find(s, k).value) else 0)
    ensures |Without(s, k)| == |s| - (if Find(s, k).Some? then 1 else 0)
    decreases |s|
  {
    if s != [] {
      WithoutWeighs(s[1..], k, f);
      if s[0].key == k {
        OnceAbsent(s);
        AbsentWithout(s[1..], k);
      }
    }
  }

  lemma OnceAbsent<K, V>(s: seq<Item<K, V>>)
    requires Once(s) && s != []
    ensures forall i :: 0 <= i < |s[1..]| ==> s[1..][i].key != s[0].key
  {
  }

  lemma {:induction false} AbsentWithout<K, V>(s: seq<Item<K, V>>, k: K)
    requires forall i :: 0 <= i < |s| ==> s[i].key != k
    ensures Without(s, k) == s && Find(s, k) == None
    decreases |s|
  {
    if s != [] {
      AbsentWithout(s[1..], k);
      assert s == [s[0]] + s[1..];
    }
  }

  lemma {:induction false} FindMember<K, V>(s: seq<Item<K, V>>, k: K)
    ensures Find(s, k).Some? ==> Item(k, Find(s, k).value) in s
    ensures (exists i :: 0 <= i < |s| && s[i].key == k) ==> Find(s, k).Some?
    decreases |s|
  {
    if s != [] && s[0].key != k {
      FindMember(s[1..], k);
      if i :| 0 <= i < |s| && s[i].key == k {
        assert s[1..][i - 1].key == k;
      }
    }
  }

  lemma {:induction false} MemberFound<K, V>(s: seq<Item<K, V>>, x: Item<K, V>)
    requires Once(s) && x in s
    ensures Find(s, x.key) == Some(x.value)
    decreases |s|
  {
    if s[0] != x {
      assert s == [s[0]] + s[1..];
      var i :| 0 <= i < |s| && s[i] == x;
      assert i > 0;
      MemberFound(s[1..], x);
    }
  }

  /** Adding a key that is not there puts it last. */
  lemma {:induction false} AppendFinds<K, V>(s: seq<Item<K, V>>, k: K, v: V, j: K)
    requires Find(s, k) == None
    ensures Find(s + [Item(k, v)], j) == if j == k then Some(v) else Find(s, j)
    decreases |s|
  {
    var t := s + [Item(k, v)];
    if s == [] {
      assert t == [Item(k, v)];
      assert t[1..] == [];
    } else {
      AppendFinds(s[1..], k, v, j);
      assert t[1..] == s[1..] + [Item(k, v)];
    }
  }

  lemma {:induction false} AppendWeighs<K, V>(s: seq<Item<K, V>>, k: K, v: V, f: V -> nat)
    ensures Weight(s + [Item(k, v)], f) == Weight(s, f) + f(v)
    decreases |s|
  {
    var t := s + [Item(k, v)];
    if s == [] {
      assert t[1..] == [];
    } else {
      AppendWeighs(s[1..], k, v, f);
      assert t[1..] == s[1..] + [Item(k, v)];
    }
  }

  lemma AppendOnce<K, V>(s: seq<Item<K, V>>, k: K, v: V)
    requires Once(s) && Find(s, k) == None
    ensures Once(s + [Item(k, v)])
  {
    FindMember(s, k);
  }

  /** Deleting a key and adding it again makes it the most recent. */
  function Renewed<K(==), V>(s: seq<Item<K, V>>, k: K, v: V): seq<Item<K, V>> {
    Without(s, k) + [Item(k, v)]
  }

  lemma RenewedIs<K, V>(s: seq<Item<K, V>>, k: K, v: V, f: V -> nat)
    requires Once(s)
    ensures Once(Renewed(s, k, v))
    ensures forall j :: Find(Renewed(s, k, v), j) == if j == k then Some(v) else Find(s, j)
    ensures Weight(Renewed(s, k, v), f) == Weight(s, f) - (if Find(s, k).Some? then f(Find(s, k).value) else 0) + f(v)
    ensures |Renewed(s, k, v)| == |s| + (if Find(s, k).Some? then 0 else 1)
  {
    WithoutOnce(s, k);
    WithoutWeighs(s, k, f);
    WithoutFinds(s, k, k);
    AppendOnce(Without(s, k), k, v);
    AppendWeighs(Without(s, k), k, v, f);
    forall j
      ensures Find(Renewed(s, k, v), j) == if j == k then Some(v) else Find(s, j)
    {
      WithoutFinds(s, k, j);
      AppendFinds(Without(s, k), k, v, j);
    }
  }

  lemma WithoutAll<K, V>(s: seq<Item<K, V>>, k: K)
    ensures forall j :: Find(Without(s, k), j) == if j == k then None else Find(s, j)
  {
    forall j
      ensures Find(Without(s, k), j) == if j == k then None else Find(s, j)
    {
      WithoutFinds(s, k, j);
    }
  }

  /** What deleting a key does. */
  lemma WithoutIs<K, V>(s: seq<Item<K, V>>, k: K, f: V -> nat)
    requires Once(s)
    ensures Once(Without(s, k))
    ensures forall j :: Find(Without(s, k), j) == if j == k then None else Find(s, j)
    ensures Weight(Without(s, k), f) == Weight(s, f) - (if Find(s, k).Some? then f(Find(s, k).value) else 0)
    ensures |Without(s, k)| == |s| - (if Find(s, k).Some? then 1 else 0)
  {
    WithoutAll(s, k);
    WithoutOnce(s, k);
    WithoutWeighs(s, k, f);
  }

  /** What adding a new key does. */
  lemma AppendIs<K, V>(s: seq<Item<K, V>>, k: K, v: V, f: V -> nat)
    requires Once(s) && Find(s, k) == None
    ensures Once(s + [Item(k, v)])
    ensures forall j :: Find(s + [Item(k, v)], j) == if j == k then Some(v) else Find(s, j)
    ensures Weight(s + [Item(k, v)], f) == Weight(s, f) + f(v)
  {
    AppendOnce(s, k, v);
    AppendWeighs(s, k, v, f);
    forall j
      ensures Find(s + [Item(k, v)], j) == if j == k then Some(v) else Find(s, j)
    {
      AppendFinds(s, k, v, j);
    }
  }

  /** The oldest entry is found. */
  lemma OldestFound<K, V>(s: seq<Item<K, V>>)
    requires s != []
    ensures Find(s, s[0].key) == Some(s[0].value)
  {
  }

  /** Deleting the oldest entry leaves the others. */
  lemma WithoutOldest<K, V>(s: seq<Item<K, V>>)
    requires Once(s) && s != []
    ensures Without(s, s[0].key) == s[1..]
  {
    OnceAbsent(s);
    AbsentWithout(s[1..], s[0].key);
  }

  /** There is room for one more entry of this weight. */
  predicate HasRoom<K, V>(s: seq<Item<K, V>>, f: V -> nat, weight: nat, mostCount: nat, mostWeight: nat) {
    |s| < mostCount && Weight(s, f) + weight <= mostWeight
  }

  /** The oldest n entries had to make room. */
  predicate MakeRoom<K, V>(s: seq<Item<K, V>>, n: nat, f: V -> nat, weight: nat, mostCount: nat, mostWeight: nat) {
    n <= |s| && HasRoom(s[n..], f, weight, mostCount, mostWeight)
    && (n > 0 ==> !HasRoom(s[n - 1..], f, weight, mostCount, mostWeight))
  }
}
