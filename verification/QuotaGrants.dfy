/** When a transaction is let through: one that does not grow its database always is, even over a quota that has been
    lowered, and one that does is let through exactly when the charges with it fit. */
module QuotaGrants {
  import opened Collections
  import opened QuotaModel
  import opened QuotaProof

  /** What reserveQuotaCommit asks, over what the other databases are charged. */
  ghost predicate Fits(rows: map<Name, Row>, n: Name, before: nat, after: nat, limits: Limits) {
    after <= before || Total(rows - {n}, Bytes) + after <= limits.quotaBytes
  }

  ghost predicate Countable(limits: Limits) { limits.quotaBytes <= MAX_SAFE_INTEGER }

  /** The charges of the others and the larger of the two sizes stay countable if they did and the quota is. */
  lemma AffordableIff(w: World, n: Name, i: Intent, was: Limits, now: Limits)
    requires Charged(w) && Total(w.rows, Bytes) <= was.quotaBytes && Countable(was) && Countable(now)
    requires n in w.rows && n in w.sources && i.before == w.sources[n].level
    ensures Affordable(w.rows, n, i, now) <==> Fits(w.rows, n, i.before, i.after, now)
  {
    TotalRemove(w.rows, Bytes, n);
  }

  /** In every reachable world, whatever the quota was and is now, the reservation at the head of the queue is granted
      if it does not grow the database or the charges with it are within the quota, and is refused otherwise, with
      nothing charged. */
  lemma AnsweredIff(w: World, was: Limits, now: Limits)
    requires Inv(w, was) && Countable(was) && Countable(now) && w.queue != [] && w.queue[0].op.Reserve?
    ensures var (n, i, t) := (w.queue[0].op.name, w.queue[0].op.intent, Next(w, Apply, now));
      if Fits(w.rows, n, i.before, i.after, now)
      then Granted(n, i) in t.replies && t.rows == w.rows[n := Row(if i.before < i.after then i.after else i.before, i.token, Some(i))]
      else Refused(n, i) in t.replies && t.rows == w.rows
  {
    var (n, i) := (w.queue[0].op.name, w.queue[0].op.intent);
    assert w.queue[0] in w.queue && TicketFits(w, w.queue[0].op);
    AffordableIff(w, n, i, was, now);
    hide Affordable, Fits;
  }

  // ---------------------------------------------------------------- a transaction from its reservation to its end

  ghost predicate Leads(w: World, steps: seq<Step>, w': World, limits: Limits) {
    Runs(w, steps, limits) && Run(w, steps, limits) == w'
  }

  lemma LeadsOn(w: World, s: Step, mid: World, rest: seq<Step>, w': World, limits: Limits)
    requires Enabled(w, s) && Next(w, s, limits) == mid && Leads(mid, rest, w', limits)
    ensures Leads(w, [s] + rest, w', limits)
  {
    hide Enabled, Next;
    assert ([s] + rest)[1..] == rest;
  }

  /** The intent a transaction asks for next. */
  function IntentOf(w: World, n: Name, after: nat): Intent
    requires Active(w, n)
  {
    Intent(w.next, TxOf(w, n).base, after)
  }

  function Asking(w: World, n: Name, after: nat): World
    requires Active(w, n)
  {
    var i := IntentOf(w, n, after);
    w.(sources := w.sources[n := w.sources[n].(tx := Some(Tx(i.before, Reserving(i), TxOf(w, n).held)))],
       queue := [Ticket(w.next, Reserve(n, i))], next := w.next + 1)
  }

  /** The world once the transaction has been granted what it asked for and has heard so. */
  function Allowed(w: World, n: Name, after: nat): World
    requires Active(w, n)
  {
    var i := IntentOf(w, n, after);
    w.(rows := w.rows[n := ReservedRow(i)],
       sources := w.sources[n := w.sources[n].(tx := Some(Tx(i.before, Reserved(i), Some(i))))], next := w.next + 1)
  }

  predicate Ready(w: World, n: Name) {
    Active(w, n) && TxOf(w, n).phase == Working && w.queue == [] && w.replies == {}
  }

  lemma AskingSteps(w: World, n: Name, after: nat, limits: Limits)
    requires Ready(w, n)
    ensures Enabled(w, Issue(n, after)) && Next(w, Issue(n, after), limits) == Asking(w, n, after)
  {
  }

  lemma HearingSteps(w: World, n: Name, after: nat, limits: Limits)
    requires Ready(w, n) && Affordable(w.rows, n, IntentOf(w, n, after), limits)
    ensures var (i, asked) := (IntentOf(w, n, after), Asking(w, n, after));
      Leads(asked, [Apply] + ([Hear(Granted(n, i))] + []), Allowed(w, n, after), limits)
  {
    var (i, asked) := (IntentOf(w, n, after), Asking(w, n, after));
    var granted := asked.(queue := [], rows := w.rows[n := ReservedRow(i)], replies := {Granted(n, i)});
    assert Next(asked, Apply, limits) == granted by { hide Affordable; }
    assert Next(granted, Hear(Granted(n, i)), limits) == Allowed(w, n, after) by { hide Affordable; }
    hide Next, Affordable;
    LeadsOn(granted, Hear(Granted(n, i)), Allowed(w, n, after), [], Allowed(w, n, after), limits);
    LeadsOn(asked, Apply, granted, [Hear(Granted(n, i))] + [], Allowed(w, n, after), limits);
  }

  function Closing(n: Name, i: Intent): seq<Step> { [Publish(n)] + ([Commit(n)] + ([Apply] + [])) }

  /** What is left once it has committed and its charge is settled. */
  function Closed(w: World, n: Name, after: nat): World
    requires Active(w, n)
  {
    w.(rows := w.rows[n := Row(after, w.next + 2, None)],
       sources := w.sources[n := Source(after, w.sources[n].alive, None)], next := w.next + 3)
  }

  lemma ClosingSteps(w: World, n: Name, after: nat, limits: Limits)
    requires Ready(w, n)
    ensures Leads(Allowed(w, n, after), Closing(n, IntentOf(w, n, after)), Closed(w, n, after), limits)
  {
    var (i, w0) := (IntentOf(w, n, after), Allowed(w, n, after));
    var w1 := w0.(sources := w.sources[n := w.sources[n].(tx := Some(Tx(i.before, Published(i), Some(i))))]);
    var w2 := w0.(sources := w.sources[n := Source(after, w.sources[n].alive, None)],
                  queue := [Ticket(w.next + 1, Finish(n, i, true))], next := w.next + 2);
    assert Enabled(w0, Publish(n)) && Next(w0, Publish(n), limits) == w1;
    assert Enabled(w1, Commit(n)) && Next(w1, Commit(n), limits) == w2;
    assert Enabled(w2, Apply) && Next(w2, Apply, limits) == Closed(w, n, after);
    hide Next, Enabled;
    LeadsOn(w2, Apply, Closed(w, n, after), [], Closed(w, n, after), limits);
    LeadsOn(w1, Commit(n), w2, [Apply] + [], Closed(w, n, after), limits);
    LeadsOn(w0, Publish(n), w1, [Commit(n)] + ([Apply] + []), Closed(w, n, after), limits);
  }

  lemma {:induction false} LeadsJoin(w: World, first: seq<Step>, mid: World, rest: seq<Step>, w': World, limits: Limits)
    requires Leads(w, first, mid, limits) && Leads(mid, rest, w', limits)
    ensures Leads(w, first + rest, w', limits)
    decreases |first|
  {
    hide Enabled, Next;
    if first == [] {
      assert first + rest == rest;
    } else {
      assert (first + rest)[1..] == first[1..] + rest;
      LeadsJoin(Next(w, first[0], limits), first[1..], mid, rest, w', limits);
    }
  }

  /** A transaction that asks for what fits is let through: from every reachable world in which the ledger is idle there
      is a run that commits it, under whatever quota holds now, after which the database holds what was asked for, is
      charged exactly that, and every other database is charged as before. */
  lemma FittingCommitGoesThrough(w: World, n: Name, after: nat, was: Limits, now: Limits)
    returns (steps: seq<Step>, t: World)
    requires Inv(w, was) && Countable(was) && Countable(now) && Ready(w, n)
    requires after <= w.sources[n].level || Total(w.rows - {n}, Bytes) + after <= now.quotaBytes
    ensures Runs(w, steps, now) && Run(w, steps, now) == t
    ensures n in t.sources && Committed(t.sources[n]) == after && t.sources[n].tx.None?
    ensures n in t.rows && t.rows[n].bytes == after && t.rows[n].intent.None? && t.rows - {n} == w.rows - {n}
  {
    var i := IntentOf(w, n, after);
    assert TxFits(w, n);
    AffordableIff(w, n, i, was, now);
    AskingSteps(w, n, after, now);
    HearingSteps(w, n, after, now);
    ClosingSteps(w, n, after, now);
    var heard := [Apply] + ([Hear(Granted(n, i))] + []);
    LeadsJoin(Asking(w, n, after), heard, Allowed(w, n, after), Closing(n, i), Closed(w, n, after), now);
    LeadsOn(w, Issue(n, after), Asking(w, n, after), heard + Closing(n, i), Closed(w, n, after), now);
    ClosedMeans(w, n, after);
    steps, t := [Issue(n, after)] + (heard + Closing(n, i)), Closed(w, n, after);
    hide Inv, Runs, Run, Closed;
  }

  lemma ClosedMeans(w: World, n: Name, after: nat)
    requires Ready(w, n) && w.sources[n].alive
    ensures var t := Closed(w, n, after);
      n in t.sources && n in t.rows && Committed(t.sources[n]) == after && t.rows - {n} == w.rows - {n}
      && t.sources[n].tx.None? && t.rows[n].bytes == after && t.rows[n].intent.None?
  {
  }

  /** One that asks for more than fits ends with nothing changed: what its database holds, what every database is
      charged. */
  lemma GreedyCommitIsUndone(w: World, n: Name, after: nat, was: Limits, now: Limits)
    returns (steps: seq<Step>, t: World)
    requires Inv(w, was) && Countable(was) && Countable(now) && Ready(w, n)
    requires after > w.sources[n].level && Total(w.rows - {n}, Bytes) + after > now.quotaBytes
    ensures Runs(w, steps, now) && Run(w, steps, now) == t
    ensures t.rows == w.rows && t.sources == w.sources[n := w.sources[n].(tx := None)]
  {
    var i := IntentOf(w, n, after);
    assert TxFits(w, n);
    AffordableIff(w, n, i, was, now);
    AskingSteps(w, n, after, now);
    hide *;
    steps, t := RefusingSteps(w, n, after, now);
  }

  lemma RefusedApplies(w: World, n: Name, after: nat, limits: Limits)
    requires Ready(w, n) && !Affordable(w.rows, n, IntentOf(w, n, after), limits)
    ensures var (i, asked) := (IntentOf(w, n, after), Asking(w, n, after));
      Enabled(asked, Apply) && Next(asked, Apply, limits) == asked.(queue := [], replies := {Refused(n, i)})
  {
    hide Affordable;
  }

  lemma RefusingSteps(w: World, n: Name, after: nat, limits: Limits) returns (steps: seq<Step>, t: World)
    requires Ready(w, n) && !Affordable(w.rows, n, IntentOf(w, n, after), limits)
    ensures Leads(w, steps, t, limits)
    ensures t.rows == w.rows && t.sources == w.sources[n := w.sources[n].(tx := None)]
  {
    AskingSteps(w, n, after, limits);
    RefusedApplies(w, n, after, limits);
    RefusedEnds(w, n, after, limits);
    var (i, asked) := (IntentOf(w, n, after), Asking(w, n, after));
    var refused := asked.(queue := [], replies := {Refused(n, i)});
    hide Next, Enabled, Affordable, Ready;
    t := Next(refused, Hear(Refused(n, i)), limits);
    steps := [Issue(n, after)] + ([Apply] + ([Hear(Refused(n, i))] + []));
    LeadsOn(refused, Hear(Refused(n, i)), t, [], t, limits);
    LeadsOn(asked, Apply, refused, [Hear(Refused(n, i))] + [], t, limits);
    LeadsOn(w, Issue(n, after), asked, [Apply] + ([Hear(Refused(n, i))] + []), t, limits);
  }

  lemma RefusedEnds(w: World, n: Name, after: nat, limits: Limits)
    requires Ready(w, n)
    ensures var i := IntentOf(w, n, after);
      var refused := Asking(w, n, after).(queue := [], replies := {Refused(n, i)});
      Enabled(refused, Hear(Refused(n, i)))
      && Next(refused, Hear(Refused(n, i)), limits).rows == w.rows
      && Next(refused, Hear(Refused(n, i)), limits).sources == w.sources[n := w.sources[n].(tx := None)]
  {
    hide Affordable;
  }

  // ---------------------------------------------------------------- what is given back

  /** A transaction that has been granted its growth and aborts gives it back: two steps later its database is charged
      what it holds, and nobody else is charged differently. */
  lemma AbortGivesBack(w: World, n: Name, was: Limits, now: Limits) returns (steps: seq<Step>, t: World)
    requires Inv(w, was) && Active(w, n) && w.queue == [] && (TxOf(w, n).phase.Reserved? || TxOf(w, n).phase.Published?)
    ensures Runs(w, steps, now) && Run(w, steps, now) == t
    ensures n in t.rows && t.rows[n].bytes == w.sources[n].level && t.rows[n].intent.None? && t.rows - {n} == w.rows - {n}
    ensures t.sources == w.sources[n := w.sources[n].(tx := None)]
  {
    assert TxFits(w, n);
    steps, t := GivingBack(w, n, now);
    hide *;
  }

  lemma GivingBack(w: World, n: Name, limits: Limits) returns (steps: seq<Step>, t: World)
    requires Active(w, n) && w.queue == [] && n in w.rows && TxOf(w, n).held.Some?
    requires w.rows[n].intent == TxOf(w, n).held && TxOf(w, n).held.value.before == w.sources[n].level
    ensures Leads(w, steps, t, limits)
    ensures n in t.rows && t.rows[n].bytes == w.sources[n].level && t.rows[n].intent.None? && t.rows - {n} == w.rows - {n}
    ensures t.sources == w.sources[n := w.sources[n].(tx := None)]
  {
    var i := TxOf(w, n).held.value;
    var aborted := w.(sources := w.sources[n := w.sources[n].(tx := None)],
                      queue := [Ticket(w.next, Finish(n, i, false))], next := w.next + 1);
    t := aborted.(queue := [], rows := w.rows[n := Row(i.before, w.next + 1, None)], next := w.next + 2);
    assert Enabled(w, Abort(n)) && Next(w, Abort(n), limits) == aborted;
    assert Enabled(aborted, Apply) && Next(aborted, Apply, limits) == t;
    steps := [Abort(n)] + ([Apply] + []);
    hide Next, Enabled;
    LeadsOn(aborted, Apply, t, [], t, limits);
    LeadsOn(w, Abort(n), aborted, [Apply] + [], t, limits);
  }

  /** And one that dies leaves a charge that the next reconciliation brings down to what the database holds. */
  lemma DeathIsReconciled(w: World, n: Name, was: Limits, now: Limits) returns (steps: seq<Step>, t: World)
    requires Inv(w, was) && Active(w, n) && w.lock == Free
    ensures Runs(w, steps, now) && Run(w, steps, now) == t
    ensures n in t.rows && t.rows[n].bytes == w.sources[n].level && t.rows[n].intent.None? && t.rows - {n} == w.rows - {n}
    ensures t.sources == w.sources[n := w.sources[n].(tx := None)] && t.lock == Free
  {
    assert TxFits(w, n);
    steps, t := Reconciling(w, n, now);
    hide *;
  }

  lemma Reconciling(w: World, n: Name, limits: Limits) returns (steps: seq<Step>, t: World)
    requires Active(w, n) && w.lock == Free && n in w.rows && w.sources[n].alive
    ensures Leads(w, steps, t, limits)
    ensures n in t.rows && t.rows[n].bytes == w.sources[n].level && t.rows[n].intent.None? && t.rows - {n} == w.rows - {n}
    ensures t.sources == w.sources[n := w.sources[n].(tx := None)] && t.lock == Free
  {
    var w1 := w.(sources := w.sources[n := w.sources[n].(tx := None)]);
    var w2 := w1.(lock := Looking(n, Some(w.rows[n])));
    var w3 := w1.(lock := Comparing(n, Some(w.rows[n]), w.sources[n].level));
    t := w1.(rows := w.rows[n := Row(w.sources[n].level, w.next, None)], next := w.next + 1);
    assert Enabled(w, Die(n)) && Next(w, Die(n), limits) == w1;
    assert Enabled(w1, Look(n)) && Next(w1, Look(n), limits) == w2;
    assert Enabled(w2, ReadUsage) && Next(w2, ReadUsage, limits) == w3;
    assert Enabled(w3, CompareAndSet) && Next(w3, CompareAndSet, limits) == t;
    steps := [Die(n)] + ([Look(n)] + ([ReadUsage] + ([CompareAndSet] + [])));
    hide Next, Enabled;
    LeadsOn(w3, CompareAndSet, t, [], t, limits);
    LeadsOn(w2, ReadUsage, w3, [CompareAndSet] + [], t, limits);
    LeadsOn(w1, Look(n), w2, [ReadUsage] + ([CompareAndSet] + []), t, limits);
    LeadsOn(w, Die(n), w1, [Look(n)] + ([ReadUsage] + ([CompareAndSet] + [])), t, limits);
  }
}
