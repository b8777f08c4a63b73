/** Totals over finite maps, of which every ledger in this project is a running one, and the order of strings. */
module Collections {

  datatype Option<+T> = None | Some(value: T)

  /** The total of `f` over the rows of `m`. */
  ghost function Total<K(!new), V(!new)>(m: map<K, V>, f: V -> nat): nat
    decreases |m|
  {
    if m == map[] then 0
    else
      var k :| k in m;
      assert |m - {k}| < |m| by { Shrinks(m, k); }
      f(m[k]) + Total(m - {k}, f)
  }

  lemma Shrinks<K, V>(m: map<K, V>, k: K)
    requires k in m
    ensures |m - {k}| == |m| - 1
  {
    assert (m - {k}).Keys == m.Keys - {k};
  }

  /** Any row may be taken out first. */
  lemma {:induction false} TotalRemove<K(!new), V(!new)>(m: map<K, V>, f: V -> nat, k: K)
    requires k in m
    ensures Total(m, f) == f(m[k]) + Total(m - {k}, f)
    decreases |m|
  {
    var j :| j in m && Total(m, f) == f(m[j]) + Total(m - {j}, f);
    if j != k {
      Shrinks(m, j);
      TotalRemove(m - {j}, f, k);
      Shrinks(m, k);
      TotalRemove(m - {k}, f, j);
      assert m - {j} - {k} == m - {k} - {j};
    }
  }

  /** Writing one row replaces its own contribution. */
  lemma TotalPut<K(!new), V(!new)>(m: map<K, V>, f: V -> nat, k: K, v: V)
    ensures Total(m[k := v], f) == Total(m, f) + f(v) - (if k in m then f(m[k]) else 0)
  {
    TotalRemove(m[k := v], f, k);
    if k in m {
      TotalRemove(m, f, k);
      assert m[k := v] - {k} == m - {k};
    } else {
      assert m[k := v] - {k} == m;
    }
  }

  lemma TotalEmpty<K(!new), V(!new)>(f: V -> nat)
    ensures Total<K, V>(map[], f) == 0
  {
  }

  /** A total is the sum of the totals of a split. */
  lemma {:induction false} TotalSplit<K(!new), V(!new)>(m: map<K, V>, f: V -> nat, s: set<K>)
    ensures Total(m, f) == Total(m - s, f) + Total(m - (m.Keys - s), f)
    decreases |m|
  {
    if m == map[] {
      assert m - s == m && m - (m.Keys - s) == m;
    } else {
      var k :| k in m;
      Shrinks(m, k);
      TotalRemove(m, f, k);
      var r := m - {k};
      TotalSplit(r, f, s);
      if k in s {
        assert r - s == m - s;
        TotalRemove(m - (m.Keys - s), f, k);
        assert m - (m.Keys - s) - {k} == r - (r.Keys - s);
      } else {
        assert r - (r.Keys - s) == m - (m.Keys - s);
        TotalRemove(m - s, f, k);
        assert m - s - {k} == r - s;
      }
    }
  }

  /** Rows that are each at most their counterpart total at most as much. */
  lemma {:induction false} TotalMonotone<K(!new), V(!new), W(!new)>(m: map<K, V>, f: V -> nat, n: map<K, W>, g: W -> nat)
    requires m.Keys <= n.Keys
    requires forall k :: k in m ==> f(m[k]) <= g(n[k])
    ensures Total(m, f) <= Total(n, g)
    decreases |m|
  {
    if m != map[] {
      var k :| k in m;
      Shrinks(m, k);
      TotalRemove(m, f, k);
      TotalRemove(n, g, k);
      TotalMonotone(m - {k}, f, n - {k}, g);
    }
  }

  /** A subset is no larger. */
  lemma {:induction false} SubsetSize<T>(a: set<T>, b: set<T>)
    requires a <= b
    ensures |a| <= |b|
    decreases |a|
  {
    if a != {} {
      var x :| x in a;
      SubsetSize(a - {x}, b - {x});
    }
  }

  /** The total of numbers is their sum. */
  function Self(x: nat): nat { x }

  function AtLeastZero(n: int): nat { if n < 0 then 0 else n }

  // ---------------------------------------------------------------- strings in order

  /** Strings by their code units, a proper prefix first. */
  predicate StringBefore(a: string, b: string) {
    b != [] && (a == [] || a[0] < b[0] || (a[0] == b[0] && StringBefore(a[1..], b[1..])))
  }

  lemma {:induction false} StringsOrdered(a: string, b: string)
    ensures a == b || StringBefore(a, b) || StringBefore(b, a)
    ensures !(StringBefore(a, b) && StringBefore(b, a)) && !StringBefore(a, a)
    decreases |a|
  {
    if a != [] {
      StringsOrdered(a[1..], a[1..]);
      if b != [] && a[0] == b[0] {
        StringsOrdered(a[1..], b[1..]);
        assert a == [a[0]] + a[1..] && b == [b[0]] + b[1..];
      }
    }
  }

  lemma {:induction false} StringBeforeTransits(a: string, b: string, c: string)
    requires StringBefore(a, b) && StringBefore(b, c)
    ensures StringBefore(a, c)
    decreases |a|
  {
    if a != [] && a[0] == b[0] == c[0] {
      StringBeforeTransits(a[1..], b[1..], c[1..]);
    }
  }
}
