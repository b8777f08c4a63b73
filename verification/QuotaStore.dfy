/** The ledger's operations as they run inside their transactions, and the reconciliation loop among everybody
    else's steps. */
module QuotaStore {
  import opened Collections
  import opened QuotaModel
  import opened QuotaProof

  const MOST_ATTEMPTS := 64

  class QuotaLedger {
    var rows: map<Name, Row>
    var generations: nat

    constructor ()
      ensures rows == map[] && generations == 0
    {
      rows, generations := map[], 0;
    }

    /** What every row but one charges. */
    method TotalWithout(n: Name) returns (total: nat)
      ensures total == Total(rows - {n}, Bytes)
    {
      total := 0;
      var left := rows.Keys - {n};
      TotalEmpty<Name, Row>(Bytes);
      assert rows - {n} - left == map[];
      while left != {}
        invariant left <= rows.Keys - {n} && total == Total(rows - {n} - left, Bytes)
        decreases |left|
      {
        var m :| m in left;
        ghost var counted := rows - {n} - left;
        left := left - {m};
        assert rows - {n} - left == counted[m := rows[m]];
        TotalPut(counted, Bytes, m, rows[m]);
        total := total + rows[m].bytes;
      }
      assert rows - {n} - {} == rows - {n};
    }

    method ReserveCommit(n: Name, i: Intent, quotaBytes: nat) returns (granted: bool)
      modifies this`rows
      ensures granted <==> Affordable(old(rows), n, i, Limits(quotaBytes, 0))
      ensures rows == if granted then old(rows)[n := ReservedRow(i)] else old(rows)
    {
      if n !in rows { return false; }
      var others := TotalWithout(n);
      var bytes := if i.before < i.after then i.after else i.before;
      if others + bytes > MAX_SAFE_INTEGER { return false; }
      if i.after > i.before && others + bytes > quotaBytes { return false; }
      rows := rows[n := Row(bytes, i.token, Some(i))];
      return true;
    }

    method FinishCommit(n: Name, i: Intent, committed: bool)
      modifies this
      ensures rows == Settled(old(rows), n, i, committed, old(generations)) && generations >= old(generations)
    {
      if n in rows && rows[n].intent.Some? && rows[n].intent.value.token == i.token {
        rows := rows[n := Row(if committed then i.after else i.before, generations, None)];
        generations := generations + 1;
      }
    }

    method ReserveDatabase(n: Name, maxDatabases: nat) returns (ok: bool)
      modifies this
      ensures ok <==> n in old(rows) || |old(rows)| < maxDatabases
      ensures rows == if ok && n !in old(rows) then old(rows)[n := Row(0, old(generations), None)] else old(rows)
    {
      if n in rows { return true; }
      if |rows| >= maxDatabases { return false; }
      rows := rows[n := Row(0, generations, None)];
      generations := generations + 1;
      return true;
    }

    method RemoveDatabase(n: Name)
      modifies this`rows
      ensures rows == old(rows) - {n}
    {
      rows := rows - {n};
    }
  }

  /** A document that reconciles one database's row while others go on working. */
  class Reconciler {
    var world: World
    const limits: Limits
    /** Nobody steps in. */
    const quiet: bool

    constructor (world: World, limits: Limits, quiet: bool)
      requires Inv(world, limits)
      ensures this.world == world && this.limits == limits && this.quiet == quiet
    {
      this.world, this.limits, this.quiet := world, limits, quiet;
    }

    /** Anyone may step in between two awaits, except that the lifecycle lock stays where it is. */
    method Await()
      requires Inv(world, limits)
      modifies this
      ensures Inv(world, limits) && world.lock == old(world.lock) && (quiet ==> world == old(world))
    {
    }

    method StartLooking(n: Name)
      requires Inv(world, limits) && (world.lock == Free || world.lock == Holding(n))
      modifies this
      ensures Inv(world, limits) && world == old(world).(lock := Looking(n, RowOf(world.rows, n)))
    {
      StepKeeps(world, Look(n), limits);
      world := world.(lock := Looking(n, RowOf(world.rows, n)));
    }

    /** The database is there, and no transaction is in the way of reading it. */
    static predicate Readable(w: World, n: Name) { n in w.sources && w.sources[n].alive && w.sources[n].tx.None? }

    /** Reads the usage a database has committed, once no read-write transaction is in its way. */
    method ReadQuotaUsage(patience: nat) returns (ok: bool)
      requires Inv(world, limits) && world.lock.Looking?
      modifies this
      ensures Inv(world, limits)
      ensures ok ==> world.lock.Comparing? && world.lock.name == old(world.lock.name)
                     && world.lock.prior == old(world.lock.prior)
      ensures !ok ==> world.lock == old(world.lock)
      ensures quiet ==> (ok <==> Readable(old(world), old(world).lock.name)) && world == old(world).(lock := world.lock)
    {
      var n, turns := world.lock.name, patience;
      while turns > 0 && n in world.sources && world.sources[n].tx.Some?
        invariant Inv(world, limits) && world.lock == old(world.lock) && (quiet ==> world == old(world))
      {
        Await();
        turns := turns - 1;
      }
      if n !in world.sources || !world.sources[n].alive || world.sources[n].tx.Some? { return false; }
      StepKeeps(world, ReadUsage, limits);
      world := world.(lock := Comparing(n, world.lock.prior, world.sources[n].level));
      return true;
    }

    /** Writes the usage that was read if the row is still the one that was looked at. */
    method CompareAndSetRow() returns (ok: bool)
      requires Inv(world, limits) && world.lock.Comparing?
      modifies this
      ensures Inv(world, limits)
      ensures var n := old(world.lock.name);
        if ok then world.lock == Free && n in world.rows && n in world.sources && world.sources == old(world.sources)
                   && world.rows[n].bytes == Committed(world.sources[n]) && world.rows[n].intent == None
                   && world.rows - {n} == old(world.rows) - {n}
        else world.lock == Holding(n) && world.rows == old(world.rows)
      ensures ok <==> RowOf(old(world).rows, old(world).lock.name) == old(world).lock.prior
    {
      var n := world.lock.name;
      ok := RowOf(world.rows, n) == world.lock.prior;
      StepKeeps(world, CompareAndSet, limits);
      if ok { ReconciliationIsExact(world); }
      world := Reconciled(world);
    }

    /** reconcileQuotaSource: looks, reads and compares again until nobody has changed the row in between. */
    method Reconcile(n: Name, patience: nat) returns (ok: bool)
      requires Inv(world, limits) && world.lock == Free
      modifies this
      ensures Inv(world, limits)
      ensures ok ==> n in world.rows && n in world.sources && world.rows[n].bytes == Committed(world.sources[n])
      ensures quiet ==> (ok <==> Readable(old(world), n))
      ensures quiet && ok ==> world.sources == old(world).sources && world.rows - {n} == old(world).rows - {n}
    {
      var attempt := 0;
      while attempt < MOST_ATTEMPTS
        invariant Inv(world, limits) && (world.lock == Free || world.lock == Holding(n))
        invariant quiet ==> attempt == 0 && world == old(world)
      {
        StartLooking(n);
        Await();
        var found := ReadQuotaUsage(patience);
        if !found { return false; }
        Await();
        var done := CompareAndSetRow();
        if done { return true; }
        Await();
        attempt := attempt + 1;
      }
      return false;
    }
  }
}
