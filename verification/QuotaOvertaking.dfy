/** How much of the order of issue the quota ledger needs: operations may overtake those of other databases, but none of
    their own. */
module QuotaOvertaking {
  import opened Collections
  import opened QuotaModel
  import opened QuotaProof

  /** A step of the protocol, or an operation that takes effect from any place in the queue. */
  datatype LooseStep = Ordered(step: Step) | Take(at: nat)

  predicate LooseEnabled(w: World, s: LooseStep) {
    match s
    case Ordered(step) => Enabled(w, step)
    case Take(at) => at < |w.queue|
  }

  ghost function LooseNext(w: World, s: LooseStep, limits: Limits): World
    requires LooseEnabled(w, s)
  {
    match s
    case Ordered(step) => Next(w, step, limits)
    case Take(at) => Taken(w, at, limits)
  }

  ghost predicate LooseRuns(w: World, steps: seq<LooseStep>, limits: Limits)
    decreases |steps|
  {
    steps == [] || (LooseEnabled(w, steps[0]) && LooseRuns(LooseNext(w, steps[0], limits), steps[1..], limits))
  }

  ghost function LooseRun(w: World, steps: seq<LooseStep>, limits: Limits): World
    requires LooseRuns(w, steps, limits)
    decreases |steps|
  {
    if steps == [] then w else LooseRun(LooseNext(w, steps[0], limits), steps[1..], limits)
  }

  /** Whatever overtakes something in this run overtakes nothing of its own database. */
  ghost predicate OwnTurns(w: World, steps: seq<LooseStep>, limits: Limits)
    requires LooseRuns(w, steps, limits)
    decreases |steps|
  {
    steps == [] || ((steps[0].Take? ==> InTurn(w.queue, steps[0].at))
                    && OwnTurns(LooseNext(w, steps[0], limits), steps[1..], limits))
  }

  lemma LooseStepKeeps(w: World, s: LooseStep, limits: Limits)
    requires Inv(w, limits) && LooseEnabled(w, s) && (s.Take? ==> InTurn(w.queue, s.at))
    ensures Inv(LooseNext(w, s, limits), limits)
  {
    match s
    case Ordered(step) => StepKeeps(w, step, limits);
    case Take(at) =>
      TakeKeeps(w, at, limits);
      TakeSum(w, at, limits);
  }

  lemma {:induction false} LooseRunKeeps(w: World, steps: seq<LooseStep>, limits: Limits)
    requires Inv(w, limits) && LooseRuns(w, steps, limits) && OwnTurns(w, steps, limits)
    ensures Inv(LooseRun(w, steps, limits), limits)
    decreases |steps|
  {
    hide Inv, LooseEnabled, LooseNext, InTurn;
    if steps != [] {
      LooseStepKeeps(w, steps[0], limits);
      LooseRunKeeps(LooseNext(w, steps[0], limits), steps[1..], limits);
    }
  }

  /** Order within each database is enough: every database stays charged at least its committed bytes, and together
      they never hold more than the quota. */
  lemma OrderPerDatabaseSuffices(steps: seq<LooseStep>, limits: Limits)
    requires LooseRuns(EMPTY, steps, limits) && OwnTurns(EMPTY, steps, limits)
    ensures var w := LooseRun(EMPTY, steps, limits);
      (forall n :: n in w.sources ==> n in w.rows && Committed(w.sources[n]) <= w.rows[n].bytes)
      && Total(w.sources, Committed) <= Total(w.rows, Bytes) <= limits.quotaBytes
  {
    EmptyInv(limits);
    LooseRunKeeps(EMPTY, steps, limits);
    var w := LooseRun(EMPTY, steps, limits);
    TotalMonotone(w.sources, Committed, w.rows, Bytes);
  }

  // ---------------------------------------------------------------- why a database's own order matters

  const FIRST := Intent(2, 0, 1)
  const SECOND := Intent(3, 0, 10)

  function Creating(n: Name): seq<LooseStep> { [Ordered(LockOpen(n)), Ordered(Apply), Ordered(Create(n))] }

  function Created(n: Name): World { World(map[n := Row(0, 1, None)], map[n := Source(0, true, None)], [], {}, Free, 2) }

  /** A transaction asks for one byte and gives up before it has an answer; the next asks for ten. */
  function Asking(n: Name): seq<LooseStep> {
    [Ordered(Begin(n)), Ordered(Issue(n, 1)), Ordered(Abort(n)), Ordered(Begin(n)), Ordered(Issue(n, 10))]
  }

  function Asked(n: Name): World {
    World(map[n := Row(0, 1, None)], map[n := Source(0, true, Some(Tx(0, Reserving(SECOND), None)))],
          [Ticket(2, Reserve(n, FIRST)), Ticket(3, Reserve(n, SECOND))], {}, Free, 4)
  }

  /** The ten are reserved ahead of the one, granted and committed. */
  function Committing(n: Name): seq<LooseStep> {
    [Take(1), Ordered(Hear(Granted(n, SECOND))), Ordered(Publish(n)), Ordered(Commit(n))]
  }

  function Holding10(n: Name): World {
    World(map[n := Row(10, 3, Some(SECOND))], map[n := Source(10, true, None)],
          [Ticket(2, Reserve(n, FIRST)), Ticket(4, Finish(n, SECOND, true))], {}, Free, 5)
  }

  /** Then the one is reserved. */
  function Hasty(n: Name): seq<LooseStep> {
    Creating(n) + (Asking(n) + (Committing(n) + [Ordered(Apply)]))
  }

  ghost predicate Leads(w: World, steps: seq<LooseStep>, w': World, limits: Limits) {
    LooseRuns(w, steps, limits) && LooseRun(w, steps, limits) == w'
  }

  lemma LeadsOn(w: World, s: LooseStep, mid: World, rest: seq<LooseStep>, w': World, limits: Limits)
    requires LooseEnabled(w, s) && LooseNext(w, s, limits) == mid && Leads(mid, rest, w', limits)
    ensures Leads(w, [s] + rest, w', limits)
  {
    hide LooseEnabled, LooseNext;
    assert ([s] + rest)[1..] == rest;
  }

  lemma {:induction false} LeadsJoin(w: World, first: seq<LooseStep>, mid: World, rest: seq<LooseStep>, w': World,
                                     limits: Limits)
    requires Leads(w, first, mid, limits) && Leads(mid, rest, w', limits)
    ensures Leads(w, first + rest, w', limits)
    decreases |first|
  {
    hide LooseEnabled, LooseNext;
    if first == [] {
      assert first + rest == rest;
    } else {
      assert (first + rest)[1..] == first[1..] + rest;
      LeadsJoin(LooseNext(w, first[0], limits), first[1..], mid, rest, w', limits);
    }
  }

  lemma Affords(n: Name, row: Row, i: Intent, limits: Limits)
    requires i.before <= 10 && i.after <= 10 <= limits.quotaBytes
    ensures Affordable(map[n := row], n, i, limits)
  {
    assert map[n := row] - {n} == map[];
    TotalEmpty<Name, Row>(Bytes);
  }

  lemma CreatingLeads(n: Name, limits: Limits)
    requires limits.maxDatabases > 0
    ensures Leads(EMPTY, Creating(n), Created(n), limits)
  {
    var w1 := EMPTY.(lock := Opening(n, 0), queue := [Ticket(0, Open(n))], next := 1);
    var w2 := World(map[n := Row(0, 1, None)], map[n := Source(0, false, None)], [], {}, Opened(n), 2);
    var a, b, c := Ordered(LockOpen(n)), Ordered(Apply), Ordered(Create(n));
    assert LooseNext(EMPTY, a, limits) == w1 && LooseNext(w1, b, limits) == w2;
    assert LooseNext(w2, c, limits) == Created(n);
    hide LooseNext;
    LeadsOn(w2, c, Created(n), [], Created(n), limits);
    LeadsOn(w1, b, w2, [c] + [], Created(n), limits);
    LeadsOn(EMPTY, a, w1, [b] + ([c] + []), Created(n), limits);
    assert [a] + ([b] + ([c] + [])) == Creating(n);
  }

  lemma AskingLeads(n: Name, limits: Limits)
    ensures Leads(Created(n), Asking(n), Asked(n), limits)
  {
    var w := Created(n);
    var w1 := w.(sources := map[n := Source(0, true, Some(Tx(0, Working, None)))]);
    var first := [Ticket(2, Reserve(n, FIRST))];
    var w2 := w1.(sources := map[n := Source(0, true, Some(Tx(0, Reserving(FIRST), None)))], queue := first, next := 3);
    var w3 := w.(queue := first, next := 3);
    var w4 := w1.(queue := first, next := 3);
    var a, b, c, d := Ordered(Begin(n)), Ordered(Issue(n, 1)), Ordered(Abort(n)), Ordered(Issue(n, 10));
    assert LooseNext(w, a, limits) == w1 && LooseNext(w1, b, limits) == w2;
    assert LooseNext(w2, c, limits) == w3 && LooseNext(w3, a, limits) == w4;
    assert LooseNext(w4, d, limits) == Asked(n);
    hide LooseNext;
    LeadsOn(w4, d, Asked(n), [], Asked(n), limits);
    LeadsOn(w3, a, w4, [d] + [], Asked(n), limits);
    LeadsOn(w2, c, w3, [a] + ([d] + []), Asked(n), limits);
    LeadsOn(w1, b, w2, [c] + ([a] + ([d] + [])), Asked(n), limits);
    LeadsOn(w, a, w1, [b] + ([c] + ([a] + ([d] + []))), Asked(n), limits);
    assert [a] + ([b] + ([c] + ([a] + ([d] + [])))) == Asking(n);
  }

  lemma CommittingLeads(n: Name, limits: Limits)
    requires limits.quotaBytes >= 10
    ensures Leads(Asked(n), Committing(n), Holding10(n), limits)
  {
    var w := Asked(n);
    var row, first := Row(10, 3, Some(SECOND)), [Ticket(2, Reserve(n, FIRST))];
    Affords(n, Row(0, 1, None), SECOND, limits);
    var w1 := w.(rows := map[n := row], replies := {Granted(n, SECOND)}, queue := first);
    var w2 := w1.(sources := map[n := Source(0, true, Some(Tx(0, Reserved(SECOND), Some(SECOND))))], replies := {});
    var w3 := w2.(sources := map[n := Source(0, true, Some(Tx(0, Published(SECOND), Some(SECOND))))]);
    var a, b, c, d := Take(1), Ordered(Hear(Granted(n, SECOND))), Ordered(Publish(n)), Ordered(Commit(n));
    assert LooseNext(w, a, limits) == w1 && LooseNext(w1, b, limits) == w2;
    assert LooseNext(w2, c, limits) == w3 && LooseNext(w3, d, limits) == Holding10(n);
    hide LooseNext;
    LeadsOn(w3, d, Holding10(n), [], Holding10(n), limits);
    LeadsOn(w2, c, w3, [d] + [], Holding10(n), limits);
    LeadsOn(w1, b, w2, [c] + ([d] + []), Holding10(n), limits);
    LeadsOn(w, a, w1, [b] + ([c] + ([d] + [])), Holding10(n), limits);
    assert [a] + ([b] + ([c] + ([d] + []))) == Committing(n);
  }

  /** A reservation that overtakes an older one of its own database: in this run from the empty origin the database ends
      up holding ten bytes and charged for one. */
  lemma OvertakingUndercharges(n: Name, limits: Limits)
    requires limits.quotaBytes >= 10 && limits.maxDatabases > 0
    ensures LooseRuns(EMPTY, Hasty(n), limits) && !OwnTurns(EMPTY, Hasty(n), limits)
    ensures var w := LooseRun(EMPTY, Hasty(n), limits);
      n in w.rows && n in w.sources && w.rows[n].bytes == 1 && Committed(w.sources[n]) == 10
  {
    var w := Holding10(n);
    Affords(n, Row(10, 3, Some(SECOND)), FIRST, limits);
    var last := LooseNext(w, Ordered(Apply), limits);
    assert last.rows == map[n := Row(1, 2, Some(FIRST))] && last.sources == w.sources;
    hide LooseNext, Creating, Asking, Committing;
    LeadsOn(w, Ordered(Apply), last, [], last, limits);
    assert [Ordered(Apply)] + [] == [Ordered(Apply)];
    CommittingLeads(n, limits);
    LeadsJoin(Asked(n), Committing(n), w, [Ordered(Apply)], last, limits);
    AskingLeads(n, limits);
    LeadsJoin(Created(n), Asking(n), Asked(n), Committing(n) + [Ordered(Apply)], last, limits);
    CreatingLeads(n, limits);
    LeadsJoin(EMPTY, Creating(n), Created(n), Asking(n) + (Committing(n) + [Ordered(Apply)]), last, limits);
    if OwnTurns(EMPTY, Hasty(n), limits) {
      OrderPerDatabaseSuffices(Hasty(n), limits);
      assert false;
    }
  }
}
