/** Over every run: a database is always charged at least what it holds, the charges of an origin stay within its
    quota, and reconciliation writes exactly what is stored. */
module QuotaProof {
  import opened Collections
  import opened QuotaModel

  // ---------------------------------------------------------------- invariants

  predicate HasToken(p: Phase) { !p.Working? }

  ghost predicate Numbered(w: World) {
    (forall j, k :: 0 <= j < k < |w.queue| ==> w.queue[j].id < w.queue[k].id)
    && (forall t :: t in w.queue ==> t.id < w.next && (t.op.Reserve? ==> t.op.intent.token == t.id)
                                     && (t.op.Finish? ==> t.op.intent.token < w.next))
    && (forall n :: n in w.rows ==> w.rows[n].generation < w.next)
    && (forall n :: Active(w, n) ==> TxNumbered(TxOf(w, n), w.next))
    && (forall r :: r in w.replies ==> r.intent.token < w.next)
    && match w.lock
       case Opening(_, id) => id < w.next
       case Removing(_, id) => id < w.next
       case Looking(_, prior) => prior.Some? ==> prior.value.generation < w.next
       case Comparing(_, prior, _) => prior.Some? ==> prior.value.generation < w.next
       case _ => true
  }

  predicate TxNumbered(tx: Tx, next: nat) {
    (HasToken(tx.phase) ==> tx.phase.intent.token < next) && (tx.held.Some? ==> tx.held.value.token < next)
  }

  /** Every row charges at least its database's usage, and an open intent is what it charges for. */
  ghost predicate Charged(w: World) {
    w.rows.Keys == w.sources.Keys
    && forall n :: n in w.rows ==>
      w.rows[n].bytes >= w.sources[n].level
      && (w.rows[n].intent.Some? ==> w.rows[n].bytes == Larger(w.rows[n].intent.value.before, w.rows[n].intent.value.after)
                                     && w.rows[n].generation == w.rows[n].intent.value.token)
  }

  /** Intent i, if the row of n carries its token, is the row's intent. */
  predicate Faithful(w: World, n: Name, i: Intent) {
    n in w.rows && w.rows[n].intent.Some? && w.rows[n].intent.value.token == i.token ==> w.rows[n].intent.value == i
  }

  /** The row of n carries the token of i. */
  predicate Carries(w: World, n: Name, i: Intent) {
    n in w.rows && w.rows[n].intent.Some? && w.rows[n].intent.value.token == i.token
  }

  predicate TxFits(w: World, n: Name)
    requires Active(w, n)
  {
    var tx := TxOf(w, n);
    n in w.rows && w.sources[n].alive && tx.base == w.sources[n].level
    && (HasToken(tx.phase) ==> tx.phase.intent.before == tx.base)
    && (tx.held.Some? ==> tx.held.value.before == tx.base && Faithful(w, n, tx.held.value))
    && (tx.phase.Reserved? || tx.phase.Published? ==>
          tx.held == Some(tx.phase.intent) && w.rows[n].intent == Some(tx.phase.intent))
    && (tx.phase.Reserving? && Granted(n, tx.phase.intent) in w.replies ==>
          w.rows[n].intent == Some(tx.phase.intent))
    && (tx.phase.Reserving? && tx.held.Some? ==> tx.phase.intent.token != tx.held.value.token)
  }

  ghost predicate Transacting(w: World) { forall n :: Active(w, n) ==> TxFits(w, n) }

  /** An intent waiting in the queue is newer than everything granted, and reserves for the usage there is. */
  predicate ReserveFits(w: World, n: Name, i: Intent) {
    n in w.rows && n in w.sources && i.before == w.sources[n].level && i.token != w.rows[n].generation
    && (Active(w, n) ==>
          var tx := TxOf(w, n);
          !tx.phase.Reserved? && !tx.phase.Published?
          && (tx.phase.Reserving? ==> i.token <= tx.phase.intent.token
                                      && Granted(n, tx.phase.intent) !in w.replies
                                      && (i.token == tx.phase.intent.token ==> i == tx.phase.intent))
          && (tx.held.Some? ==> i.token != tx.held.value.token))
  }

  /** A settlement on its way either comes too late or writes at least the usage there is. */
  predicate FinishFits(w: World, n: Name, i: Intent, committed: bool) {
    (Carries(w, n, i) && n in w.sources ==>
       w.rows[n].intent.value == i && (if committed then i.after else i.before) >= w.sources[n].level)
    && (Active(w, n) ==>
          var tx := TxOf(w, n);
          (HasToken(tx.phase) ==> i.token != tx.phase.intent.token) && (tx.held.Some? ==> i.token != tx.held.value.token))
  }

  predicate TicketFits(w: World, op: Op) {
    match op
    case Open(n) => true
    case Remove(n) => n in w.sources ==> !w.sources[n].alive
    case Reserve(n, i) => ReserveFits(w, n, i)
    case Finish(n, i, committed) => FinishFits(w, n, i, committed)
  }

  ghost predicate Pending(w: World) {
    (forall t :: t in w.queue ==> TicketFits(w, t.op))
    && (forall j, k :: 0 <= j < k < |w.queue| && w.queue[j].op.Remove? ==>
          !(w.queue[k].op.Reserve? && w.queue[k].op.name == w.queue[j].op.name))
    && (forall t, u :: t in w.queue && u in w.queue && t.op.Reserve? && u.op.Finish? && t.op.name == u.op.name ==>
          t.op.intent.token != u.op.intent.token)
  }

  /** An answer on its way is for an intent that is neither queued nor heard of. */
  predicate ReplyFits(w: World, r: Reply) {
    (r.Granted? && Carries(w, r.name, r.intent) && r.name in w.sources ==>
       w.rows[r.name].intent.value == r.intent && r.intent.before >= w.sources[r.name].level)
    && (Active(w, r.name) ==>
          var tx := TxOf(w, r.name);
          (tx.phase.Reserved? || tx.phase.Published? ==> tx.phase.intent.token != r.intent.token)
          && (tx.held.Some? ==> tx.held.value.token != r.intent.token)
          && (tx.phase.Reserving? && tx.phase.intent.token == r.intent.token ==> tx.phase.intent == r.intent))
  }

  ghost predicate Answering(w: World) {
    (forall r :: r in w.replies ==> ReplyFits(w, r))
    && (forall r, t :: r in w.replies && t in w.queue && (t.op.Reserve? || t.op.Finish?) && r.name == t.op.name ==>
          r.intent.token != t.op.intent.token)
    && (forall r, q :: r in w.replies && q in w.replies && r.name == q.name && r.intent.token == q.intent.token ==>
          r == q)
  }

  predicate Reserves(t: Ticket, n: Name) { t.op.Reserve? && t.op.name == n }
  predicate Removes(t: Ticket, n: Name) { t.op.Remove? && t.op.name == n }
  predicate Dead(w: World, n: Name) { n in w.sources ==> !w.sources[n].alive }

  /** No intent still queued made the row that was looked at. */
  ghost predicate Unlike(w: World, n: Name, prior: Option<Row>) {
    prior.Some? ==> forall t :: t in w.queue && Reserves(t, n) ==> t.op.intent.token != prior.value.generation
  }

  ghost predicate Locked(w: World) {
    match w.lock
    case Opening(n, id) =>
      forall t :: t in w.queue ==> (Removes(t, n) || (Reserves(t, n) && Dead(w, n)) ==> t.id < id)
    case Opened(n) =>
      n in w.rows && forall t :: t in w.queue ==> !Removes(t, n) && !(Reserves(t, n) && Dead(w, n))
    case Looking(n, prior) => Unlike(w, n, prior)
    case Comparing(n, prior, bytes) =>
      Unlike(w, n, prior) && n in w.rows && n in w.sources && w.sources[n].alive
      && (prior == Some(w.rows[n]) ==>
            bytes == w.sources[n].level
            && (Active(w, n) && HasToken(TxOf(w, n).phase) ==> TxOf(w, n).phase.intent.token != w.rows[n].generation))
    case _ => true
  }

  ghost predicate Shape(w: World) {
    Numbered(w) && Charged(w) && Transacting(w) && Pending(w) && Answering(w) && Locked(w)
  }

  ghost predicate Inv(w: World, limits: Limits) {
    Shape(w) && Total(w.rows, Bytes) <= limits.quotaBytes
  }

  // ---------------------------------------------------------------- transactions

  /** Only the transaction of n may differ. */
  ghost predicate OthersStay(w: World, w': World, n: Name) {
    forall m {:trigger Active(w', m)} {:trigger Active(w, m)} ::
      m != n ==> (Active(w', m) <==> Active(w, m)) && (Active(w, m) ==> TxOf(w', m) == TxOf(w, m))
  }

  lemma BeginNumberedCharged(w: World, n: Name, limits: Limits)
    requires Shape(w) && Enabled(w, Begin(n))
    ensures var w' := Next(w, Begin(n), limits); Numbered(w') && Charged(w')
  {
    var w' := Next(w, Begin(n), limits);
    assert OthersStay(w, w', n);
    hide Pending, Answering, Locked, Transacting;
  }

  lemma BeginTransacting(w: World, n: Name, limits: Limits)
    requires Shape(w) && Enabled(w, Begin(n))
    ensures var w' := Next(w, Begin(n), limits); Transacting(w')
  {
    var w' := Next(w, Begin(n), limits);
    assert OthersStay(w, w', n);
    hide Pending, Answering, Locked, Numbered;
  }

  lemma BeginAnswering(w: World, n: Name, limits: Limits)
    requires Shape(w) && Enabled(w, Begin(n))
    ensures var w' := Next(w, Begin(n), limits); Answering(w')
  {
    var w' := Next(w, Begin(n), limits);
    assert OthersStay(w, w', n);
    hide Pending, Locked, Numbered, Charged, Transacting;
    forall r | r in w'.replies
      ensures ReplyFits(w', r)
    {
      assert ReplyFits(w, r);
    }
  }

  lemma BeginPending(w: World, n: Name, limits: Limits)
    requires Shape(w) && Enabled(w, Begin(n))
    ensures var w' := Next(w, Begin(n), limits); Pending(w')
  {
    var w' := Next(w, Begin(n), limits);
    assert OthersStay(w, w', n);
    hide Answering, Locked, Numbered, Charged, Transacting;
    forall t | t in w'.queue
      ensures TicketFits(w', t.op)
    {
      assert TicketFits(w, t.op);
    }
  }

  lemma BeginLocked(w: World, n: Name, limits: Limits)
    requires Shape(w) && Enabled(w, Begin(n))
    ensures var w' := Next(w, Begin(n), limits); Locked(w')
  {
    var w' := Next(w, Begin(n), limits);
    assert OthersStay(w, w', n);
    hide Pending, Answering, Numbered, Transacting;
  }

  lemma BeginKeeps(w: World, n: Name, limits: Limits)
    requires Shape(w) && Enabled(w, Begin(n))
    ensures Shape(Next(w, Begin(n), limits))
  {
    BeginNumberedCharged(w, n, limits);
    BeginTransacting(w, n, limits);
    BeginAnswering(w, n, limits);
    BeginPending(w, n, limits);
    BeginLocked(w, n, limits);
    hide Answering, Charged, Locked, Numbered, Pending, Transacting;
  }

  lemma IssueNumbered(w: World, n: Name, after: nat, limits: Limits)
    requires Numbered(w) && Enabled(w, Issue(n, after))
    ensures Numbered(Next(w, Issue(n, after), limits))
  {
    assert OthersStay(w, Next(w, Issue(n, after), limits), n);
  }

  lemma IssueTransacts(w: World, n: Name, after: nat, limits: Limits)
    requires Numbered(w) && Charged(w) && Transacting(w) && Enabled(w, Issue(n, after))
    ensures Charged(Next(w, Issue(n, after), limits)) && Transacting(Next(w, Issue(n, after), limits))
  {
    assert OthersStay(w, Next(w, Issue(n, after), limits), n);
  }

  /** What is already queued still fits once n reserves with a fresh token. */
  lemma IssueFits(w: World, n: Name, after: nat, limits: Limits, op: Op)
    requires Numbered(w) && Transacting(w) && Enabled(w, Issue(n, after)) && TicketFits(w, op)
    requires (op.Reserve? || op.Finish?) ==> op.intent.token < w.next
    ensures TicketFits(Next(w, Issue(n, after), limits), op)
  {
    assert OthersStay(w, Next(w, Issue(n, after), limits), n);
    if Granted(n, Intent(w.next, TxOf(w, n).base, after)) in w.replies {
      assert false;
    }
  }

  lemma IssuePends(w: World, n: Name, after: nat, limits: Limits)
    requires Numbered(w) && Charged(w) && Transacting(w) && Pending(w) && Enabled(w, Issue(n, after))
    ensures Pending(Next(w, Issue(n, after), limits))
  {
    hide Transacting, TicketFits;
    var w' := Next(w, Issue(n, after), limits);
    forall t | t in w'.queue
      ensures TicketFits(w', t.op)
    {
      if t in w.queue {
        IssueFits(w, n, after, limits, t.op);
      } else {
        IssuedFits(w, n, after, limits);
      }
    }
    IssueRemoves(w, n, after, limits);
    forall t, u | t in w'.queue && u in w'.queue && t.op.Reserve? && u.op.Finish? && t.op.name == u.op.name
      ensures t.op.intent.token != u.op.intent.token
    {
      assert u in w.queue && u.op.intent.token < w.next;
    }
    forall j, k | 0 <= j < k < |w'.queue| && w'.queue[j].op.Remove?
      ensures !(w'.queue[k].op.Reserve? && w'.queue[k].op.name == w'.queue[j].op.name)
    {
      assert w'.queue[j] == w.queue[j];
      assert k == |w.queue| ==> !Removes(w.queue[j], n);
    }
  }

  lemma IssuedFits(w: World, n: Name, after: nat, limits: Limits)
    requires Numbered(w) && Charged(w) && Transacting(w) && Enabled(w, Issue(n, after))
    ensures TicketFits(Next(w, Issue(n, after), limits), Reserve(n, Intent(w.next, TxOf(w, n).base, after)))
  {
    if Granted(n, Intent(w.next, TxOf(w, n).base, after)) in w.replies {
      assert false;
    }
  }

  lemma IssueRemoves(w: World, n: Name, after: nat, limits: Limits)
    requires Transacting(w) && Pending(w) && Enabled(w, Issue(n, after))
    ensures forall t :: t in w.queue ==> !Removes(t, n)
  {
    forall t | t in w.queue
      ensures !Removes(t, n)
    {
      assert TicketFits(w, t.op) && TxFits(w, n);
    }
  }

  lemma IssueAnswers(w: World, n: Name, after: nat, limits: Limits)
    requires Numbered(w) && Transacting(w) && Answering(w) && Enabled(w, Issue(n, after))
    ensures Answering(Next(w, Issue(n, after), limits))
  {
    var w' := Next(w, Issue(n, after), limits);
    assert OthersStay(w, w', n);
    forall r | r in w'.replies
      ensures ReplyFits(w', r)
    {
      assert ReplyFits(w, r);
    }
  }

  lemma IssueLocks(w: World, n: Name, after: nat, limits: Limits)
    requires Numbered(w) && Transacting(w) && Locked(w) && Charged(w) && Enabled(w, Issue(n, after))
    ensures Locked(Next(w, Issue(n, after), limits))
  {
    assert OthersStay(w, Next(w, Issue(n, after), limits), n);
    assert TxFits(w, n);
  }

  lemma IssueKeeps(w: World, n: Name, after: nat, limits: Limits)
    requires Shape(w) && Enabled(w, Issue(n, after))
    ensures Shape(Next(w, Issue(n, after), limits))
  {
    hide Numbered, Charged, Transacting, Pending, Answering, Locked;
    IssueNumbered(w, n, after, limits);
    IssueTransacts(w, n, after, limits);
    IssuePends(w, n, after, limits);
    IssueAnswers(w, n, after, limits);
    IssueLocks(w, n, after, limits);
  }

  lemma PublishNumberedChargedTransacting(w: World, n: Name, limits: Limits)
    requires Shape(w) && Enabled(w, Publish(n))
    ensures var w' := Next(w, Publish(n), limits); Numbered(w') && Charged(w') && Transacting(w')
  {
    var w' := Next(w, Publish(n), limits);
    assert OthersStay(w, w', n);
    assert TxFits(w, n);
    hide Pending, Answering, Locked;
  }

  lemma PublishAnswering(w: World, n: Name, limits: Limits)
    requires Shape(w) && Enabled(w, Publish(n))
    ensures var w' := Next(w, Publish(n), limits); Answering(w')
  {
    var w' := Next(w, Publish(n), limits);
    assert OthersStay(w, w', n);
    assert TxFits(w, n);
    hide Pending, Locked, Numbered, Charged, Transacting;
    forall r | r in w'.replies
      ensures ReplyFits(w', r)
    {
      assert ReplyFits(w, r);
    }
  }

  lemma PublishPending(w: World, n: Name, limits: Limits)
    requires Shape(w) && Enabled(w, Publish(n))
    ensures var w' := Next(w, Publish(n), limits); Pending(w')
  {
    var w' := Next(w, Publish(n), limits);
    assert OthersStay(w, w', n);
    assert TxFits(w, n);
    hide Answering, Locked, Numbered, Charged, Transacting;
    forall t | t in w'.queue
      ensures TicketFits(w', t.op)
    {
      assert TicketFits(w, t.op);
    }
  }

  lemma PublishKeeps(w: World, n: Name, limits: Limits)
    requires Shape(w) && Enabled(w, Publish(n))
    ensures Shape(Next(w, Publish(n), limits))
  {
    PublishNumberedChargedTransacting(w, n, limits);
    PublishAnswering(w, n, limits);
    PublishPending(w, n, limits);
    hide Answering, Charged, Numbered, Pending, Transacting;
  }

  lemma WriteNumberedChargedTransacting(w: World, n: Name, limits: Limits)
    requires Shape(w) && Enabled(w, Write(n))
    ensures var w' := Next(w, Write(n), limits); Numbered(w') && Charged(w') && Transacting(w')
  {
    var w' := Next(w, Write(n), limits);
    assert OthersStay(w, w', n);
    assert TxFits(w, n);
    hide Pending, Answering, Locked;
  }

  lemma WriteAnswering(w: World, n: Name, limits: Limits)
    requires Shape(w) && Enabled(w, Write(n))
    ensures var w' := Next(w, Write(n), limits); Answering(w')
  {
    var w' := Next(w, Write(n), limits);
    assert OthersStay(w, w', n);
    assert TxFits(w, n);
    hide Pending, Locked, Numbered, Charged, Transacting;
    forall r | r in w'.replies
      ensures ReplyFits(w', r)
    {
      assert ReplyFits(w, r);
    }
  }

  lemma WritePending(w: World, n: Name, limits: Limits)
    requires Shape(w) && Enabled(w, Write(n))
    ensures var w' := Next(w, Write(n), limits); Pending(w')
  {
    var w' := Next(w, Write(n), limits);
    assert OthersStay(w, w', n);
    assert TxFits(w, n);
    hide Answering, Locked, Numbered, Charged, Transacting;
    forall t | t in w'.queue
      ensures TicketFits(w', t.op)
    {
      assert TicketFits(w, t.op);
    }
  }

  lemma WriteLocked(w: World, n: Name, limits: Limits)
    requires Shape(w) && Enabled(w, Write(n))
    ensures var w' := Next(w, Write(n), limits); Locked(w')
  {
    var w' := Next(w, Write(n), limits);
    assert OthersStay(w, w', n);
    assert TxFits(w, n);
    hide Pending, Answering, Numbered, Transacting;
  }

  lemma WriteKeeps(w: World, n: Name, limits: Limits)
    requires Shape(w) && Enabled(w, Write(n))
    ensures Shape(Next(w, Write(n), limits))
  {
    WriteNumberedChargedTransacting(w, n, limits);
    WriteAnswering(w, n, limits);
    WritePending(w, n, limits);
    WriteLocked(w, n, limits);
    hide Answering, Charged, Locked, Numbered, Pending, Transacting;
  }

  lemma DieNumberedCharged(w: World, n: Name, limits: Limits)
    requires Shape(w) && Enabled(w, Die(n))
    ensures var w' := Next(w, Die(n), limits); Numbered(w') && Charged(w')
  {
    var w' := Next(w, Die(n), limits);
    assert OthersStay(w, w', n);
    hide Pending, Answering, Locked, Transacting;
  }

  lemma DieTransacting(w: World, n: Name, limits: Limits)
    requires Shape(w) && Enabled(w, Die(n))
    ensures var w' := Next(w, Die(n), limits); Transacting(w')
  {
    var w' := Next(w, Die(n), limits);
    assert OthersStay(w, w', n);
    hide Pending, Answering, Locked, Numbered, Charged;
    forall m | Active(w', m)
      ensures TxFits(w', m)
    {
      assert TxFits(w, m);
    }
  }

  lemma DieAnswering(w: World, n: Name, limits: Limits)
    requires Shape(w) && Enabled(w, Die(n))
    ensures var w' := Next(w, Die(n), limits); Answering(w')
  {
    var w' := Next(w, Die(n), limits);
    assert OthersStay(w, w', n);
    hide Pending, Locked, Numbered, Charged, Transacting;
    forall r | r in w'.replies
      ensures ReplyFits(w', r)
    {
      assert ReplyFits(w, r);
    }
  }

  lemma DiePending(w: World, n: Name, limits: Limits)
    requires Shape(w) && Enabled(w, Die(n))
    ensures var w' := Next(w, Die(n), limits); Pending(w')
  {
    var w' := Next(w, Die(n), limits);
    assert OthersStay(w, w', n);
    hide Answering, Locked, Numbered, Charged, Transacting;
    forall t | t in w'.queue
      ensures TicketFits(w', t.op)
    {
      assert TicketFits(w, t.op);
    }
  }

  lemma DieLocked(w: World, n: Name, limits: Limits)
    requires Shape(w) && Enabled(w, Die(n))
    ensures var w' := Next(w, Die(n), limits); Locked(w')
  {
    var w' := Next(w, Die(n), limits);
    assert OthersStay(w, w', n);
    hide Pending, Answering, Numbered, Transacting;
  }

  lemma DieKeeps(w: World, n: Name, limits: Limits)
    requires Shape(w) && Enabled(w, Die(n))
    ensures Shape(Next(w, Die(n), limits))
  {
    DieNumberedCharged(w, n, limits);
    DieTransacting(w, n, limits);
    DieAnswering(w, n, limits);
    DiePending(w, n, limits);
    DieLocked(w, n, limits);
    hide Answering, Charged, Locked, Numbered, Pending, Transacting;
  }

  /** Nothing else about intent i of n is queued or on its way. */
  ghost predicate Alone(w: World, n: Name, i: Intent) {
    (forall t :: t in w.queue && Reserves(t, n) ==> t.op.intent.token != i.token)
    && (forall r :: r in w.replies && r.name == n ==> r.intent.token != i.token)
  }

  lemma FinishPends(w: World, n: Name, i: Intent, committed: bool)
    requires Numbered(w) && Pending(w) && FinishFits(w, n, i, committed) && Alone(w, n, i)
    ensures Pending(Queued(w, Finish(n, i, committed)))
  {
    var w' := Queued(w, Finish(n, i, committed));
    assert forall m :: Active(w', m) <==> Active(w, m);
    forall t | t in w'.queue
      ensures TicketFits(w', t.op)
    {
      assert t in w.queue ==> TicketFits(w, t.op);
    }
    forall t, u | t in w'.queue && u in w'.queue && t.op.Reserve? && u.op.Finish? && t.op.name == u.op.name
      ensures t.op.intent.token != u.op.intent.token
    {
      assert t in w.queue;
      assert t.op.name == n ==> Reserves(t, n);
    }
  }

  lemma FinishAnswers(w: World, n: Name, i: Intent, committed: bool)
    requires Answering(w) && Alone(w, n, i)
    ensures Answering(Queued(w, Finish(n, i, committed)))
  {
    var w' := Queued(w, Finish(n, i, committed));
    forall r | r in w'.replies
      ensures ReplyFits(w', r)
    {
      assert ReplyFits(w, r);
    }
  }

  /** A settlement may join the queue. */
  lemma FinishQueued(w: World, n: Name, i: Intent, committed: bool)
    requires Shape(w) && i.token < w.next && FinishFits(w, n, i, committed) && Alone(w, n, i)
    ensures Shape(Queued(w, Finish(n, i, committed)))
  {
    hide TicketFits, ReplyFits, FinishFits;
    var w' := Queued(w, Finish(n, i, committed));
    FinishPends(w, n, i, committed);
    FinishAnswers(w, n, i, committed);
    assert forall m :: Active(w', m) <==> Active(w, m);
    assert Numbered(w') by {
      hide Pending, Answering, Locked, Charged, Transacting;
    }
    assert Transacting(w') by {
      hide Pending, Answering, Locked, Charged, Numbered;
      forall m | Active(w', m)
        ensures TxFits(w', m)
      {
        assert Active(w, m) && TxFits(w, m);
      }
    }
    assert Locked(w') by {
      hide Pending, Answering, Transacting, Charged;
    }
  }

  /** The commit itself, before its settlement is issued. */
  function Landed(w: World, n: Name): World
    requires Active(w, n) && TxOf(w, n).phase.Published?
  {
    w.(sources := w.sources[n := w.sources[n].(level := TxOf(w, n).phase.intent.after, tx := None)])
  }

  lemma LandedNumberedChargedTransacting(w: World, n: Name)
    requires Shape(w) && Active(w, n) && TxOf(w, n).phase.Published?
    ensures var w' := Landed(w, n); Numbered(w') && Charged(w') && Transacting(w')
  {
    var w' := Landed(w, n);
    var i := TxOf(w, n).phase.intent;
    assert OthersStay(w, w', n);
    assert TxFits(w, n);
    hide Pending, Answering, Locked;
  }

  lemma LandedPending(w: World, n: Name)
    requires Shape(w) && Active(w, n) && TxOf(w, n).phase.Published?
    ensures var w' := Landed(w, n); Pending(w')
  {
    var w' := Landed(w, n);
    var i := TxOf(w, n).phase.intent;
    assert OthersStay(w, w', n);
    assert TxFits(w, n);
    hide Answering, Locked, Numbered, Charged, Transacting;
    forall t | t in w'.queue
      ensures TicketFits(w', t.op)
    {
      assert TicketFits(w, t.op);
    }
  }

  lemma LandedAnswering(w: World, n: Name)
    requires Shape(w) && Active(w, n) && TxOf(w, n).phase.Published?
    ensures var w' := Landed(w, n); Answering(w')
  {
    var w' := Landed(w, n);
    var i := TxOf(w, n).phase.intent;
    assert OthersStay(w, w', n);
    assert TxFits(w, n);
    hide Pending, Locked, Numbered, Charged, Transacting;
    forall r | r in w'.replies
      ensures ReplyFits(w', r)
    {
      assert ReplyFits(w, r);
    }
  }

  lemma LandedLocked(w: World, n: Name)
    requires Shape(w) && Active(w, n) && TxOf(w, n).phase.Published?
    ensures var w' := Landed(w, n); Locked(w')
  {
    var w' := Landed(w, n);
    var i := TxOf(w, n).phase.intent;
    assert OthersStay(w, w', n);
    assert TxFits(w, n);
    hide Pending, Answering, Numbered, Transacting;
  }

  lemma LandedKeeps(w: World, n: Name)
    requires Shape(w) && Active(w, n) && TxOf(w, n).phase.Published?
    ensures Shape(Landed(w, n))
  {
    LandedNumberedChargedTransacting(w, n);
    LandedPending(w, n);
    LandedAnswering(w, n);
    LandedLocked(w, n);
    hide Answering, Charged, Locked, Numbered, Pending, Transacting;
  }

  /** Nothing queued or on its way carries the token a transaction holds. */
  lemma HeldIsAlone(w: World, n: Name)
    requires Pending(w) && Answering(w) && Active(w, n) && TxOf(w, n).held.Some?
    ensures Alone(w, n, TxOf(w, n).held.value)
  {
    forall r | r in w.replies && r.name == n
      ensures r.intent.token != TxOf(w, n).held.value.token
    {
      assert ReplyFits(w, r);
    }
    forall t | t in w.queue && Reserves(t, n)
      ensures t.op.intent.token != TxOf(w, n).held.value.token
    {
      assert TicketFits(w, t.op);
    }
  }

  lemma CommitKeeps(w: World, n: Name, limits: Limits)
    requires Shape(w) && Enabled(w, Commit(n))
    ensures Shape(Next(w, Commit(n), limits))
  {
    var i := TxOf(w, n).phase.intent;
    HeldIsAlone(w, n);
    assert TxFits(w, n);
    LandedKeeps(w, n);
    var w1 := Landed(w, n);
    assert Alone(w1, n, i);
    assert i.token < w.next;
    hide Shape, Alone;
    FinishQueued(w1, n, i, true);
  }

  lemma AbortKeeps(w: World, n: Name)
    requires Shape(w) && Active(w, n)
    ensures Shape(Aborted(w, n))
  {
    DieKeeps(w, n, Limits(0, 0));
    var held := TxOf(w, n).held;
    if held.Some? {
      HeldIsAlone(w, n);
      assert TxFits(w, n);
      var w1 := WithTx(w, n, None);
      assert Alone(w1, n, held.value);
      assert held.value.token < w.next;
      hide Shape, Alone;
      FinishQueued(w1, n, held.value, false);
    }
  }

  // ---------------------------------------------------------------- answers and losses

  /** The world without the ticket at a place in the queue. */
  function Without(w: World, at: nat): World
    requires at < |w.queue|
  {
    w.(queue := w.queue[..at] + w.queue[at + 1..])
  }

  lemma WithoutPlaces(w: World, at: nat)
    requires at < |w.queue|
    ensures var q := Without(w, at).queue;
      |q| == |w.queue| - 1 && forall k :: 0 <= k < |q| ==> q[k] == w.queue[if k < at then k else k + 1]
    ensures forall t :: t in Without(w, at).queue ==> t in w.queue
  {
  }

  lemma WithoutNumbered(w: World, at: nat)
    requires Numbered(w) && at < |w.queue|
    ensures Numbered(Without(w, at))
  {
    WithoutPlaces(w, at);
    var w' := Without(w, at);
    forall j, k | 0 <= j < k < |w'.queue|
      ensures w'.queue[j].id < w'.queue[k].id
    {
      assert w'.queue[j] == w.queue[if j < at then j else j + 1];
      assert w'.queue[k] == w.queue[if k < at then k else k + 1];
    }
    assert forall m :: Active(w', m) <==> Active(w, m);
  }

  lemma WithoutPends(w: World, at: nat)
    requires Pending(w) && at < |w.queue|
    ensures Pending(Without(w, at))
  {
    WithoutPlaces(w, at);
    var w' := Without(w, at);
    forall t | t in w'.queue
      ensures TicketFits(w', t.op)
    {
      assert TicketFits(w, t.op);
    }
    forall j, k | 0 <= j < k < |w'.queue| && w'.queue[j].op.Remove?
      ensures !(w'.queue[k].op.Reserve? && w'.queue[k].op.name == w'.queue[j].op.name)
    {
      assert w'.queue[j] == w.queue[if j < at then j else j + 1];
      assert w'.queue[k] == w.queue[if k < at then k else k + 1];
    }
  }

  lemma WithoutKeeps(w: World, at: nat)
    requires Shape(w) && at < |w.queue|
    ensures Shape(Without(w, at))
  {
    var w' := Without(w, at);
    WithoutNumbered(w, at);
    WithoutPends(w, at);
    WithoutPlaces(w, at);
    assert forall m :: Active(w', m) <==> Active(w, m);
    assert Charged(w') && Locked(w') by {
      hide Pending, Answering, Transacting, Numbered;
    }
    assert Transacting(w') by {
      hide Pending, Answering, Locked, Numbered, Charged;
      assert forall m :: Active(w', m) ==> TxFits(w, m);
    }
    assert Answering(w') by {
      hide Pending, Locked, Numbered, Charged, Transacting;
      forall r | r in w'.replies
        ensures ReplyFits(w', r)
      {
        assert ReplyFits(w, r);
      }
    }
  }

  lemma LoseReplyKeeps(w: World, reply: Reply, limits: Limits)
    requires Shape(w) && Enabled(w, LoseReply(reply))
    ensures Shape(Next(w, LoseReply(reply), limits))
  {
    var w' := Next(w, LoseReply(reply), limits);
    assert forall m :: Active(w', m) <==> Active(w, m);
    assert Numbered(w') && Charged(w') && Locked(w') by {
      hide Pending, Answering, Transacting;
    }
    assert Transacting(w') by {
      hide Pending, Answering, Locked, Numbered, Charged;
      assert forall m :: Active(w', m) ==> TxFits(w, m);
    }
    assert Pending(w') by {
      hide Answering, Locked, Numbered, Charged, Transacting;
      forall t | t in w'.queue
        ensures TicketFits(w', t.op)
      {
        assert TicketFits(w, t.op);
      }
    }
    assert Answering(w') by {
      hide Pending, Locked, Numbered, Charged, Transacting;
      forall r | r in w'.replies
        ensures ReplyFits(w', r)
      {
        assert ReplyFits(w, r);
      }
    }
  }

  /** The waiting transaction takes its intent. */
  lemma GrantNumberedCharged(w: World, n: Name, i: Intent)
    requires Shape(w) && Granted(n, i) in w.replies && Active(w, n) && TxOf(w, n).phase == Reserving(i)
    ensures var w' := WithPhase(w.(replies := w.replies - {Granted(n, i)}), n, Reserved(i), Some(i)); Numbered(w') && Charged(w')
  {
    var w' := WithPhase(w.(replies := w.replies - {Granted(n, i)}), n, Reserved(i), Some(i));
    assert OthersStay(w, w', n);
    assert TxFits(w, n) && ReplyFits(w, Granted(n, i));
    hide Pending, Answering, Locked, Transacting;
  }

  lemma GrantTransacting(w: World, n: Name, i: Intent)
    requires Shape(w) && Granted(n, i) in w.replies && Active(w, n) && TxOf(w, n).phase == Reserving(i)
    ensures var w' := WithPhase(w.(replies := w.replies - {Granted(n, i)}), n, Reserved(i), Some(i)); Transacting(w')
  {
    var w' := WithPhase(w.(replies := w.replies - {Granted(n, i)}), n, Reserved(i), Some(i));
    assert OthersStay(w, w', n);
    assert TxFits(w, n) && ReplyFits(w, Granted(n, i));
    hide Pending, Answering, Locked, Numbered, Charged;
    forall m | Active(w', m)
      ensures TxFits(w', m)
    {
      assert TxFits(w, m);
    }
  }

  lemma GrantPending(w: World, n: Name, i: Intent)
    requires Shape(w) && Granted(n, i) in w.replies && Active(w, n) && TxOf(w, n).phase == Reserving(i)
    ensures var w' := WithPhase(w.(replies := w.replies - {Granted(n, i)}), n, Reserved(i), Some(i)); Pending(w')
  {
    var w' := WithPhase(w.(replies := w.replies - {Granted(n, i)}), n, Reserved(i), Some(i));
    assert OthersStay(w, w', n);
    assert TxFits(w, n) && ReplyFits(w, Granted(n, i));
    hide Locked, Numbered, Charged, Transacting;
    forall t | t in w'.queue
      ensures TicketFits(w', t.op)
    {
      assert TicketFits(w, t.op);
    }
  }

  lemma GrantAnswering(w: World, n: Name, i: Intent)
    requires Shape(w) && Granted(n, i) in w.replies && Active(w, n) && TxOf(w, n).phase == Reserving(i)
    ensures var w' := WithPhase(w.(replies := w.replies - {Granted(n, i)}), n, Reserved(i), Some(i)); Answering(w')
  {
    var w' := WithPhase(w.(replies := w.replies - {Granted(n, i)}), n, Reserved(i), Some(i));
    assert OthersStay(w, w', n);
    assert TxFits(w, n) && ReplyFits(w, Granted(n, i));
    hide Pending, Locked, Numbered, Charged, Transacting;
    forall r | r in w'.replies
      ensures ReplyFits(w', r)
    {
      assert ReplyFits(w, r);
    }
  }

  lemma GrantLocked(w: World, n: Name, i: Intent)
    requires Shape(w) && Granted(n, i) in w.replies && Active(w, n) && TxOf(w, n).phase == Reserving(i)
    ensures var w' := WithPhase(w.(replies := w.replies - {Granted(n, i)}), n, Reserved(i), Some(i)); Locked(w')
  {
    var w' := WithPhase(w.(replies := w.replies - {Granted(n, i)}), n, Reserved(i), Some(i));
    assert OthersStay(w, w', n);
    assert TxFits(w, n) && ReplyFits(w, Granted(n, i));
    hide Pending, Answering, Numbered, Transacting;
  }

  lemma GrantKeeps(w: World, n: Name, i: Intent)
    requires Shape(w) && Granted(n, i) in w.replies && Active(w, n) && TxOf(w, n).phase == Reserving(i)
    ensures Shape(WithPhase(w.(replies := w.replies - {Granted(n, i)}), n, Reserved(i), Some(i)))
  {
    GrantNumberedCharged(w, n, i);
    GrantTransacting(w, n, i);
    GrantPending(w, n, i);
    GrantAnswering(w, n, i);
    GrantLocked(w, n, i);
    hide Answering, Charged, Locked, Numbered, Pending, Transacting;
  }

  lemma HearKeeps(w: World, reply: Reply, limits: Limits)
    requires Shape(w) && Enabled(w, Hear(reply))
    ensures Shape(Next(w, Hear(reply), limits))
  {
    var n, i := reply.name, reply.intent;
    var rest := w.(replies := w.replies - {reply});
    LoseReplyKeeps(w, reply, limits);
    if Active(w, n) && TxOf(w, n).phase == Reserving(i) {
      if reply.Granted? {
        GrantKeeps(w, n, i);
      } else {
        AbortKeeps(rest, n);
      }
    } else if reply.Granted? {
      LateFits(w, n, i);
      assert i.token < w.next;
      hide Shape, Alone, FinishFits;
      FinishQueued(rest, n, i, false);
    }
  }

  /** An answer nobody waits for any more may be given back. */
  lemma LateFits(w: World, n: Name, i: Intent)
    requires Shape(w) && Granted(n, i) in w.replies && !(Active(w, n) && TxOf(w, n).phase == Reserving(i))
    ensures var rest := w.(replies := w.replies - {Granted(n, i)});
      FinishFits(rest, n, i, false) && Alone(rest, n, i)
  {
    assert ReplyFits(w, Granted(n, i));
    assert Active(w, n) ==> TxFits(w, n);
  }

  // ---------------------------------------------------------------- operations taking effect

  /** A ticket taken from the queue is the oldest of its database. */
  predicate Ahead(t: Ticket, u: Ticket) {
    (t.op.name == u.op.name ==> t.id < u.id)
    && (t.op.Reserve? ==> t.id != u.id)
    && (t.op.Remove? ==> !Reserves(u, t.op.name))
    && (t.op.Reserve? && u.op.Finish? && u.op.name == t.op.name ==> u.op.intent.token != t.op.intent.token)
  }

  /** What a popped ticket says of the rest of the world. */
  ghost predicate Popped(w: World, t: Ticket) {
    TicketFits(w, t.op) && t.id < w.next
    && (t.op.Reserve? ==> t.op.intent.token == t.id)
    && (forall u :: u in w.queue ==> Ahead(t, u))
    && (t.op.Reserve? || t.op.Finish? ==>
          forall r :: r in w.replies && r.name == t.op.name ==> r.intent.token != t.op.intent.token)
  }

  /** What the lock says of a popped ticket. */
  predicate Unlocked(w: World, t: Ticket) {
    match w.lock
    case Opening(n, id) => Removes(t, n) || (Reserves(t, n) && Dead(w, n)) ==> t.id < id
    case Opened(n) => !Removes(t, n) && !(Reserves(t, n) && Dead(w, n))
    case Looking(n, prior) => prior.Some? && Reserves(t, n) ==> t.op.intent.token != prior.value.generation
    case Comparing(n, prior, bytes) => prior.Some? && Reserves(t, n) ==> t.op.intent.token != prior.value.generation
    case _ => true
  }

  /** No ticket of the same database stands ahead of the one at this place. */
  predicate InTurn(queue: seq<Ticket>, at: nat) {
    at < |queue| && forall j :: 0 <= j < at ==> queue[j].op.name != queue[at].op.name
  }

  lemma TurnAhead(w: World, at: nat)
    requires Numbered(w) && Pending(w) && InTurn(w.queue, at)
    ensures forall u :: u in Without(w, at).queue ==> Ahead(w.queue[at], u)
  {
    WithoutPlaces(w, at);
    var q := Without(w, at).queue;
    forall u | u in q
      ensures Ahead(w.queue[at], u)
    {
      var k :| 0 <= k < |q| && q[k] == u;
      assert u == w.queue[if k < at then k else k + 1];
    }
  }

  lemma TurnPopped(w: World, at: nat)
    requires Shape(w) && InTurn(w.queue, at)
    ensures Shape(Without(w, at)) && Popped(Without(w, at), w.queue[at]) && Unlocked(Without(w, at), w.queue[at])
  {
    WithoutKeeps(w, at);
    TurnAhead(w, at);
    WithoutPlaces(w, at);
    var t := w.queue[at];
    assert t in w.queue;
    assert TicketFits(w, t.op);
  }

  lemma RefuseKeeps(w: World, n: Name, i: Intent, id: nat)
    requires Shape(w) && Popped(w, Ticket(id, Reserve(n, i)))
    ensures Shape(w.(replies := w.replies + {Refused(n, i)}))
  {
    var w' := w.(replies := w.replies + {Refused(n, i)});
    assert forall m :: Active(w', m) <==> Active(w, m);
    assert Transacting(w') by {
      hide Pending, Answering, Locked, Numbered, Charged;
      assert forall m :: Active(w', m) ==> TxFits(w, m);
    }
    assert Pending(w') by {
      hide Answering, Locked, Numbered, Charged, Transacting;
      forall t | t in w'.queue
        ensures TicketFits(w', t.op)
      {
        assert TicketFits(w, t.op);
      }
    }
    ReplyJoins(w, Refused(n, i), id);
  }

  lemma ReplyJoins(w: World, r: Reply, id: nat)
    requires Numbered(w) && Answering(w) && Popped(w, Ticket(id, Reserve(r.name, r.intent))) && r.Refused?
    ensures Answering(w.(replies := w.replies + {r})) && Numbered(w.(replies := w.replies + {r}))
  {
    var w' := w.(replies := w.replies + {r});
    assert forall m :: Active(w', m) <==> Active(w, m);
    forall q | q in w'.replies
      ensures ReplyFits(w', q)
    {
      assert q in w.replies ==> ReplyFits(w, q);
    }
    forall q, t | q in w'.replies && t in w'.queue && (t.op.Reserve? || t.op.Finish?) && q.name == t.op.name
      ensures q.intent.token != t.op.intent.token
    {
      assert q == r && t.op.Reserve? ==> t.op.intent.token == t.id;
    }
  }

  /** The world once intent i has been charged. */
  function Charging(w: World, n: Name, i: Intent): World {
    w.(rows := w.rows[n := ReservedRow(i)], replies := w.replies + {Granted(n, i)})
  }

  lemma ChargeTransacts(w: World, n: Name, i: Intent, id: nat)
    requires Numbered(w) && Charged(w) && Transacting(w) && Popped(w, Ticket(id, Reserve(n, i)))
    ensures Numbered(Charging(w, n, i)) && Charged(Charging(w, n, i)) && Transacting(Charging(w, n, i))
  {
    var w' := Charging(w, n, i);
    forall m | Active(w', m)
      ensures TxFits(w', m) && TxNumbered(TxOf(w', m), w'.next)
    {
      assert Active(w, m) && TxFits(w, m);
    }
  }

  lemma ChargePends(w: World, n: Name, i: Intent, id: nat)
    requires Numbered(w) && Pending(w) && Popped(w, Ticket(id, Reserve(n, i)))
    ensures Pending(Charging(w, n, i))
  {
    var w' := Charging(w, n, i);
    assert forall m :: Active(w', m) <==> Active(w, m);
    forall t | t in w'.queue
      ensures TicketFits(w', t.op)
    {
      assert TicketFits(w, t.op) && Ahead(Ticket(id, Reserve(n, i)), t);
      assert t.op.Reserve? ==> t.op.intent.token == t.id;
    }
  }

  lemma ChargeAnswers(w: World, n: Name, i: Intent, id: nat)
    requires Numbered(w) && Answering(w) && Popped(w, Ticket(id, Reserve(n, i)))
    ensures Answering(Charging(w, n, i))
  {
    var w' := Charging(w, n, i);
    assert forall m :: Active(w', m) <==> Active(w, m);
    forall q | q in w'.replies
      ensures ReplyFits(w', q)
    {
      assert q in w.replies ==> ReplyFits(w, q);
    }
    forall q, t | q in w'.replies && t in w'.queue && (t.op.Reserve? || t.op.Finish?) && q.name == t.op.name
      ensures q.intent.token != t.op.intent.token
    {
      assert Ahead(Ticket(id, Reserve(n, i)), t);
      assert t.op.Reserve? ==> t.op.intent.token == t.id;
    }
  }

  lemma ChargeKeeps(w: World, n: Name, i: Intent, id: nat)
    requires Shape(w) && Popped(w, Ticket(id, Reserve(n, i))) && Unlocked(w, Ticket(id, Reserve(n, i)))
    ensures Shape(Charging(w, n, i))
  {
    ChargeTransacts(w, n, i, id);
    ChargePends(w, n, i, id);
    ChargeAnswers(w, n, i, id);
    hide Numbered, Charged, Transacting, Pending, Answering;
    assert forall m :: Active(Charging(w, n, i), m) <==> Active(w, m);
    assert TicketFits(w, Reserve(n, i));
  }

  /** The world once a settlement has been written. */
  function Settling(w: World, n: Name, i: Intent, committed: bool): World {
    w.(rows := Settled(w.rows, n, i, committed, w.next), next := w.next + 1)
  }

  lemma SettleTransacts(w: World, n: Name, i: Intent, committed: bool)
    requires Numbered(w) && Charged(w) && Transacting(w) && FinishFits(w, n, i, committed)
    ensures Numbered(Settling(w, n, i, committed)) && Charged(Settling(w, n, i, committed))
    ensures Transacting(Settling(w, n, i, committed))
  {
    var w' := Settling(w, n, i, committed);
    forall m | Active(w', m)
      ensures TxFits(w', m) && TxNumbered(TxOf(w', m), w'.next)
    {
      assert Active(w, m) && TxFits(w, m);
    }
  }

  lemma SettlePends(w: World, n: Name, i: Intent, committed: bool)
    requires Numbered(w) && Pending(w) && Answering(w) && FinishFits(w, n, i, committed)
    ensures Pending(Settling(w, n, i, committed)) && Answering(Settling(w, n, i, committed))
  {
    var w' := Settling(w, n, i, committed);
    assert forall m :: Active(w', m) <==> Active(w, m);
    forall t | t in w'.queue
      ensures TicketFits(w', t.op)
    {
      assert TicketFits(w, t.op);
      assert t.op.Reserve? ==> t.op.intent.token == t.id < w.next;
    }
    forall q | q in w'.replies
      ensures ReplyFits(w', q)
    {
      assert ReplyFits(w, q);
    }
  }

  lemma SettleKeeps(w: World, n: Name, i: Intent, committed: bool)
    requires Shape(w) && FinishFits(w, n, i, committed)
    ensures Shape(Settling(w, n, i, committed))
  {
    var w' := Settling(w, n, i, committed);
    SettleTransacts(w, n, i, committed);
    SettlePends(w, n, i, committed);
    assert forall m :: Active(w', m) <==> Active(w, m);
    assert Locked(w') by {
      hide Charged, Transacting, Pending, Answering;
    }
  }

  // ---------------------------------------------------------------- database lifecycle

  lemma ActiveAlive(w: World)
    requires Transacting(w)
    ensures forall n :: Active(w, n) ==> n in w.rows && w.sources[n].alive
  {
    forall n | Active(w, n)
      ensures n in w.rows && w.sources[n].alive
    {
      assert TxFits(w, n);
    }
  }

  /** A new row, empty and uncharged. */
  function NewRow(w: World, n: Name, lock: Lock): World {
    w.(rows := w.rows[n := Row(0, w.next, None)], sources := w.sources[n := Source(0, false, None)], lock := lock,
       next := w.next + 1)
  }

  lemma OpenNumberedCharged(w: World, n: Name, id: nat, lock: Lock)
    requires Shape(w) && n !in w.rows && Popped(w, Ticket(id, Open(n)))
    requires lock == if w.lock == Opening(n, id) then Opened(n) else w.lock
    ensures var w' := NewRow(w, n, lock); Numbered(w') && Charged(w')
  {
    var w' := NewRow(w, n, lock);
    assert forall m :: Active(w', m) <==> Active(w, m);
    hide Pending, Answering, Transacting, Locked;
  }

  lemma OpenTransacting(w: World, n: Name, id: nat, lock: Lock)
    requires Shape(w) && n !in w.rows && Popped(w, Ticket(id, Open(n)))
    requires lock == if w.lock == Opening(n, id) then Opened(n) else w.lock
    ensures var w' := NewRow(w, n, lock); Transacting(w')
  {
    var w' := NewRow(w, n, lock);
    assert forall m :: Active(w', m) <==> Active(w, m);
    hide Pending, Answering, Locked, Numbered, Charged;
    forall m | Active(w', m)
      ensures TxFits(w', m)
    {
      assert TxFits(w, m);
    }
  }

  lemma OpenPending(w: World, n: Name, id: nat, lock: Lock)
    requires Shape(w) && n !in w.rows && Popped(w, Ticket(id, Open(n)))
    requires lock == if w.lock == Opening(n, id) then Opened(n) else w.lock
    ensures var w' := NewRow(w, n, lock); Pending(w')
  {
    var w' := NewRow(w, n, lock);
    assert forall m :: Active(w', m) <==> Active(w, m);
    hide Answering, Locked, Numbered, Transacting;
    forall t | t in w'.queue
      ensures TicketFits(w', t.op)
    {
      assert TicketFits(w, t.op);
    }
  }

  lemma OpenAnswering(w: World, n: Name, id: nat, lock: Lock)
    requires Shape(w) && n !in w.rows && Popped(w, Ticket(id, Open(n)))
    requires lock == if w.lock == Opening(n, id) then Opened(n) else w.lock
    ensures var w' := NewRow(w, n, lock); Answering(w')
  {
    var w' := NewRow(w, n, lock);
    assert forall m :: Active(w', m) <==> Active(w, m);
    hide Pending, Locked, Numbered, Transacting;
    forall r | r in w'.replies
      ensures ReplyFits(w', r)
    {
      assert ReplyFits(w, r);
    }
  }

  lemma OpenKeeps(w: World, n: Name, id: nat, lock: Lock)
    requires Shape(w) && n !in w.rows && Popped(w, Ticket(id, Open(n)))
    requires lock == if w.lock == Opening(n, id) then Opened(n) else w.lock
    ensures Shape(NewRow(w, n, lock))
  {
    OpenNumberedCharged(w, n, id, lock);
    OpenTransacting(w, n, id, lock);
    OpenPending(w, n, id, lock);
    OpenAnswering(w, n, id, lock);
    OpenLocks(w, n, id, lock);
    hide Locked;
    hide Answering, Charged, Numbered, Pending, Transacting;
  }

  lemma OpenLocks(w: World, n: Name, id: nat, lock: Lock)
    requires Numbered(w) && Locked(w) && Pending(w) && Charged(w) && n !in w.rows && Popped(w, Ticket(id, Open(n)))
    requires lock == if w.lock == Opening(n, id) then Opened(n) else w.lock
    ensures Locked(NewRow(w, n, lock))
  {
    var w' := NewRow(w, n, lock);
    assert forall m :: m != n ==> (Active(w', m) <==> Active(w, m));
    forall t | t in w'.queue
      ensures !Reserves(t, n) && Ahead(Ticket(id, Open(n)), t)
    {
      assert TicketFits(w, t.op);
    }
  }

  lemma UnlockKeeps(w: World, lock: Lock)
    requires Shape(w) && (lock == Free || lock.Holding?)
    ensures Shape(w.(lock := lock))
  {
    var w' := w.(lock := lock);
    assert forall m :: Active(w', m) <==> Active(w, m);
    assert Numbered(w') && Charged(w') by {
      hide Pending, Answering, Transacting, Locked;
    }
    RelockKeeps(w, lock);
  }

  /** The lock plays no part in transactions, the queue and the answers. */
  lemma RelockKeeps(w: World, lock: Lock)
    requires Transacting(w) && Pending(w) && Answering(w)
    ensures var w' := w.(lock := lock); Transacting(w') && Pending(w') && Answering(w')
  {
    var w' := w.(lock := lock);
    assert forall m :: Active(w', m) <==> Active(w, m);
    forall m | Active(w', m)
      ensures TxFits(w', m)
    {
      assert TxFits(w, m);
    }
    forall t | t in w'.queue
      ensures TicketFits(w', t.op)
    {
      assert TicketFits(w, t.op);
    }
    forall r | r in w'.replies
      ensures ReplyFits(w', r)
    {
      assert ReplyFits(w, r);
    }
  }

  /** The open that was waited for has taken effect on a row that was there already. */
  lemma ReopenKeeps(w: World, n: Name, id: nat)
    requires Shape(w) && n in w.rows && Popped(w, Ticket(id, Open(n))) && w.lock == Opening(n, id)
    ensures Shape(w.(lock := Opened(n)))
  {
    var w' := w.(lock := Opened(n));
    assert forall m :: Active(w', m) <==> Active(w, m);
    RelockKeeps(w, Opened(n));
    hide Transacting, Pending, Answering;
    assert forall t :: t in w.queue ==> Ahead(Ticket(id, Open(n)), t);
  }

  /** A row and its database's record are dropped together. */
  function Dropping(w: World, n: Name, lock: Lock): World {
    w.(rows := w.rows - {n}, sources := w.sources - {n}, lock := lock)
  }

  lemma DropNumberedCharged(w: World, n: Name, id: nat, lock: Lock)
    requires Shape(w) && Popped(w, Ticket(id, Remove(n))) && Unlocked(w, Ticket(id, Remove(n)))
    requires lock == if w.lock == Removing(n, id) then Free else w.lock
    ensures var w' := Dropping(w, n, lock); Numbered(w') && Charged(w')
  {
    var w' := Dropping(w, n, lock);
    assert TicketFits(w, Remove(n));
    ActiveAlive(w);
    assert forall m :: Active(w', m) <==> Active(w, m);
    hide Pending, Answering, Transacting, Locked;
  }

  lemma DropTransacting(w: World, n: Name, id: nat, lock: Lock)
    requires Shape(w) && Popped(w, Ticket(id, Remove(n))) && Unlocked(w, Ticket(id, Remove(n)))
    requires lock == if w.lock == Removing(n, id) then Free else w.lock
    ensures var w' := Dropping(w, n, lock); Transacting(w')
  {
    var w' := Dropping(w, n, lock);
    assert TicketFits(w, Remove(n));
    ActiveAlive(w);
    assert forall m :: Active(w', m) <==> Active(w, m);
    hide Pending, Answering, Locked, Numbered, Charged;
    forall m | Active(w', m)
      ensures TxFits(w', m)
    {
      assert TxFits(w, m);
    }
  }

  lemma DropPending(w: World, n: Name, id: nat, lock: Lock)
    requires Shape(w) && Popped(w, Ticket(id, Remove(n))) && Unlocked(w, Ticket(id, Remove(n)))
    requires lock == if w.lock == Removing(n, id) then Free else w.lock
    ensures var w' := Dropping(w, n, lock); Pending(w')
  {
    var w' := Dropping(w, n, lock);
    assert TicketFits(w, Remove(n));
    ActiveAlive(w);
    assert forall m :: Active(w', m) <==> Active(w, m);
    hide Answering, Locked, Numbered, Transacting;
    forall t | t in w'.queue
      ensures TicketFits(w', t.op)
    {
      assert TicketFits(w, t.op) && Ahead(Ticket(id, Remove(n)), t);
    }
  }

  lemma DropAnswering(w: World, n: Name, id: nat, lock: Lock)
    requires Shape(w) && Popped(w, Ticket(id, Remove(n))) && Unlocked(w, Ticket(id, Remove(n)))
    requires lock == if w.lock == Removing(n, id) then Free else w.lock
    ensures var w' := Dropping(w, n, lock); Answering(w')
  {
    var w' := Dropping(w, n, lock);
    assert TicketFits(w, Remove(n));
    ActiveAlive(w);
    assert forall m :: Active(w', m) <==> Active(w, m);
    hide Pending, Locked, Numbered, Transacting;
    forall r | r in w'.replies
      ensures ReplyFits(w', r)
    {
      assert ReplyFits(w, r);
    }
  }

  lemma DropLocked(w: World, n: Name, id: nat, lock: Lock)
    requires Shape(w) && Popped(w, Ticket(id, Remove(n))) && Unlocked(w, Ticket(id, Remove(n)))
    requires lock == if w.lock == Removing(n, id) then Free else w.lock
    ensures var w' := Dropping(w, n, lock); Locked(w')
  {
    var w' := Dropping(w, n, lock);
    assert TicketFits(w, Remove(n));
    ActiveAlive(w);
    assert forall m :: Active(w', m) <==> Active(w, m);
    hide Answering, Transacting, Pending;
    assert forall t :: t in w.queue ==> Ahead(Ticket(id, Remove(n)), t);
  }

  lemma DropKeeps(w: World, n: Name, id: nat, lock: Lock)
    requires Shape(w) && Popped(w, Ticket(id, Remove(n))) && Unlocked(w, Ticket(id, Remove(n)))
    requires lock == if w.lock == Removing(n, id) then Free else w.lock
    ensures Shape(Dropping(w, n, lock))
  {
    DropNumberedCharged(w, n, id, lock);
    DropTransacting(w, n, id, lock);
    DropPending(w, n, id, lock);
    DropAnswering(w, n, id, lock);
    DropLocked(w, n, id, lock);
    hide Answering, Charged, Locked, Numbered, Pending, Transacting;
  }

  /** The operation at this place in the queue takes effect. */
  ghost function Taken(w: World, at: nat, limits: Limits): World
    requires at < |w.queue|
  {
    Applied(Without(w, at), w.queue[at], limits)
  }

  lemma ApplyTakes(w: World, limits: Limits)
    requires w.queue != []
    ensures Next(w, Apply, limits) == Taken(w, 0, limits) && InTurn(w.queue, 0)
  {
    hide Applied;
    assert w.queue[..0] + w.queue[1..] == w.queue[1..];
  }

  lemma TakeKeeps(w: World, at: nat, limits: Limits)
    requires Shape(w) && InTurn(w.queue, at)
    ensures Shape(Taken(w, at, limits))
  {
    TurnPopped(w, at);
    var w1, t := Without(w, at), w.queue[at];
    hide Shape, Popped, Unlocked;
    match t.op
    case Open(n) =>
      if n in w1.rows {
        if w1.lock == Opening(n, t.id) { ReopenKeeps(w1, n, t.id); }
      } else if |w1.rows| >= limits.maxDatabases {
        if w1.lock == Opening(n, t.id) { UnlockKeeps(w1, Free); }
      } else {
        OpenKeeps(w1, n, t.id, if w1.lock == Opening(n, t.id) then Opened(n) else w1.lock);
      }
    case Remove(n) =>
      DropKeeps(w1, n, t.id, if w1.lock == Removing(n, t.id) then Free else w1.lock);
    case Reserve(n, i) =>
      if Affordable(w1.rows, n, i, limits) { ChargeKeeps(w1, n, i, t.id); } else { RefuseKeeps(w1, n, i, t.id); }
    case Finish(n, i, committed) =>
      PoppedFinish(w1, t);
      SettleKeeps(w1, n, i, committed);
  }

  lemma PoppedFinish(w: World, t: Ticket)
    requires Popped(w, t) && t.op.Finish?
    ensures FinishFits(w, t.op.name, t.op.intent, t.op.committed)
  {
    assert TicketFits(w, t.op);
  }

  /** An open or a removal may join the queue. */
  lemma LifecycleQueued(w: World, op: Op, lock: Lock)
    requires Shape(w) && (op.Open? || (op.Remove? && Dead(w, op.name)))
    requires lock == if op.Open? then Opening(op.name, w.next) else Removing(op.name, w.next)
    ensures Shape(Queued(w.(lock := lock), op))
  {
    var w' := Queued(w.(lock := lock), op);
    assert forall m :: Active(w', m) <==> Active(w, m);
    assert Charged(w');
    LifecycleNumbered(w, op, lock);
    assert Transacting(w') by {
      hide Pending, Answering, Locked, Numbered, Charged;
      forall m | Active(w', m)
        ensures TxFits(w', m)
      {
        assert TxFits(w, m);
      }
    }
    LifecyclePends(w, op, lock);
    assert Answering(w') by {
      hide Pending, Locked, Numbered, Transacting;
      forall r | r in w'.replies
        ensures ReplyFits(w', r)
      {
        assert ReplyFits(w, r);
      }
    }
  }

  lemma LifecyclePends(w: World, op: Op, lock: Lock)
    requires Pending(w) && (op.Open? || (op.Remove? && Dead(w, op.name)))
    ensures Pending(Queued(w.(lock := lock), op))
  {
    var w' := Queued(w.(lock := lock), op);
    assert forall m :: Active(w', m) <==> Active(w, m);
    forall t | t in w'.queue
      ensures TicketFits(w', t.op)
    {
      assert t in w.queue ==> TicketFits(w, t.op);
    }
    forall j, k | 0 <= j < k < |w'.queue| && w'.queue[j].op.Remove?
      ensures !(w'.queue[k].op.Reserve? && w'.queue[k].op.name == w'.queue[j].op.name)
    {
      assert w'.queue[j] == w.queue[j] && (k < |w.queue| ==> w'.queue[k] == w.queue[k]);
    }
  }

  lemma LifecycleNumbered(w: World, op: Op, lock: Lock)
    requires Numbered(w) && (op.Open? || op.Remove?)
    requires lock == if op.Open? then Opening(op.name, w.next) else Removing(op.name, w.next)
    ensures Numbered(Queued(w.(lock := lock), op)) && Locked(Queued(w.(lock := lock), op))
  {
    var w' := Queued(w.(lock := lock), op);
    assert forall m :: Active(w', m) <==> Active(w, m);
  }

  /** Deleting the native database, before its row is removed. */
  lemma KillNumberedCharged(w: World, n: Name)
    requires Shape(w) && n in w.sources && w.sources[n].tx.None? && w.lock == Free
    ensures var w' := w.(sources := w.sources[n := w.sources[n].(alive := false)]); Numbered(w') && Charged(w')
  {
    var w' := w.(sources := w.sources[n := w.sources[n].(alive := false)]);
    assert forall m :: Active(w', m) <==> Active(w, m);
    KillPends(w, n);
    hide Pending, Answering, Transacting, Locked;
  }

  lemma KillTransacting(w: World, n: Name)
    requires Shape(w) && n in w.sources && w.sources[n].tx.None? && w.lock == Free
    ensures var w' := w.(sources := w.sources[n := w.sources[n].(alive := false)]); Transacting(w')
  {
    var w' := w.(sources := w.sources[n := w.sources[n].(alive := false)]);
    assert forall m :: Active(w', m) <==> Active(w, m);
    KillPends(w, n);
    hide Pending, Answering, Locked, Numbered, Charged;
    forall m | Active(w', m)
      ensures TxFits(w', m)
    {
      assert TxFits(w, m);
    }
  }

  lemma KillKeeps(w: World, n: Name)
    requires Shape(w) && n in w.sources && w.sources[n].tx.None? && w.lock == Free
    ensures Shape(w.(sources := w.sources[n := w.sources[n].(alive := false)]))
  {
    KillNumberedCharged(w, n);
    KillTransacting(w, n);
    KillPends(w, n);
    hide Pending, Answering;
    hide Charged, Numbered, Transacting;
  }

  lemma KillPends(w: World, n: Name)
    requires Pending(w) && Answering(w) && n in w.sources && w.sources[n].tx.None?
    ensures var w' := w.(sources := w.sources[n := w.sources[n].(alive := false)]); Pending(w') && Answering(w')
  {
    var w' := w.(sources := w.sources[n := w.sources[n].(alive := false)]);
    assert forall m :: Active(w', m) <==> Active(w, m);
    forall t | t in w'.queue
      ensures TicketFits(w', t.op)
    {
      assert TicketFits(w, t.op);
    }
    forall r | r in w'.replies
      ensures ReplyFits(w', r)
    {
      assert ReplyFits(w, r);
    }
  }

  lemma DeleteKeeps(w: World, n: Name, limits: Limits)
    requires Shape(w) && Enabled(w, Delete(n))
    ensures Shape(Next(w, Delete(n), limits))
  {
    KillKeeps(w, n);
    hide Shape;
    LifecycleQueued(w.(sources := w.sources[n := w.sources[n].(alive := false)]), Remove(n), Removing(n, w.next));
  }

  /** The native database of an opened row comes into being, empty. */
  lemma BirthNumberedCharged(w: World, n: Name)
    requires Shape(w) && w.lock == Opened(n) && n in w.sources && !w.sources[n].alive
    ensures var w' := w.(sources := w.sources[n := Source(0, true, None)], lock := Free); Numbered(w') && Charged(w')
  {
    var w' := w.(sources := w.sources[n := Source(0, true, None)], lock := Free);
    ActiveAlive(w);
    assert forall m :: Active(w', m) <==> Active(w, m);
    hide Pending, Answering, Transacting, Locked;
  }

  lemma BirthTransacting(w: World, n: Name)
    requires Shape(w) && w.lock == Opened(n) && n in w.sources && !w.sources[n].alive
    ensures var w' := w.(sources := w.sources[n := Source(0, true, None)], lock := Free); Transacting(w')
  {
    var w' := w.(sources := w.sources[n := Source(0, true, None)], lock := Free);
    ActiveAlive(w);
    assert forall m :: Active(w', m) <==> Active(w, m);
    hide Pending, Answering, Locked, Numbered, Charged;
    forall m | Active(w', m)
      ensures TxFits(w', m)
    {
      assert TxFits(w, m);
    }
  }

  lemma BirthPending(w: World, n: Name)
    requires Shape(w) && w.lock == Opened(n) && n in w.sources && !w.sources[n].alive
    ensures var w' := w.(sources := w.sources[n := Source(0, true, None)], lock := Free); Pending(w')
  {
    var w' := w.(sources := w.sources[n := Source(0, true, None)], lock := Free);
    ActiveAlive(w);
    assert forall m :: Active(w', m) <==> Active(w, m);
    hide Answering, Numbered, Transacting;
    forall t | t in w'.queue
      ensures TicketFits(w', t.op)
    {
      assert TicketFits(w, t.op) && !Removes(t, n) && !Reserves(t, n);
    }
  }

  lemma BirthAnswering(w: World, n: Name)
    requires Shape(w) && w.lock == Opened(n) && n in w.sources && !w.sources[n].alive
    ensures var w' := w.(sources := w.sources[n := Source(0, true, None)], lock := Free); Answering(w')
  {
    var w' := w.(sources := w.sources[n := Source(0, true, None)], lock := Free);
    ActiveAlive(w);
    assert forall m :: Active(w', m) <==> Active(w, m);
    hide Pending, Locked, Numbered, Transacting;
    forall r | r in w'.replies
      ensures ReplyFits(w', r)
    {
      assert ReplyFits(w, r);
    }
  }

  lemma BirthKeeps(w: World, n: Name)
    requires Shape(w) && w.lock == Opened(n) && n in w.sources && !w.sources[n].alive
    ensures Shape(w.(sources := w.sources[n := Source(0, true, None)], lock := Free))
  {
    BirthNumberedCharged(w, n);
    BirthTransacting(w, n);
    BirthPending(w, n);
    BirthAnswering(w, n);
    hide Answering, Charged, Numbered, Pending, Transacting;
  }

  lemma CreateKeeps(w: World, n: Name, limits: Limits)
    requires Shape(w) && Enabled(w, Create(n))
    ensures Shape(Next(w, Create(n), limits))
  {
    if w.sources[n].alive {
      assert w.sources[n := w.sources[n]] == w.sources;
      UnlockKeeps(w, Free);
    } else {
      BirthKeeps(w, n);
    }
  }

  // ---------------------------------------------------------------- reconciliation

  /** No queued intent made the row as it is. */
  lemma UnlikeNow(w: World, n: Name)
    requires Pending(w)
    ensures Unlike(w, n, RowOf(w.rows, n))
  {
    forall t | t in w.queue && Reserves(t, n)
      ensures n in w.rows && t.op.intent.token != w.rows[n].generation
    {
      assert TicketFits(w, t.op);
    }
  }

  lemma LookKeeps(w: World, n: Name, limits: Limits)
    requires Shape(w) && Enabled(w, Look(n))
    ensures Shape(Next(w, Look(n), limits))
  {
    var lock := Looking(n, RowOf(w.rows, n));
    var w' := w.(lock := lock);
    assert forall m :: Active(w', m) <==> Active(w, m);
    RelockKeeps(w, lock);
    UnlikeNow(w, n);
    hide Transacting, Pending, Answering;
  }

  lemma ReadUsageKeeps(w: World, limits: Limits)
    requires Shape(w) && Enabled(w, ReadUsage)
    ensures Shape(Next(w, ReadUsage, limits))
  {
    var n := w.lock.name;
    var lock := Comparing(n, w.lock.prior, w.sources[n].level);
    var w' := w.(lock := lock);
    assert forall m :: Active(w', m) <==> Active(w, m);
    RelockKeeps(w, lock);
    hide Transacting, Pending, Answering;
  }

  /** When the compare-and-set succeeds, what it writes is what the database holds at that moment. */
  lemma ReconciliationIsExact(w: World)
    requires Shape(w) && w.lock.Comparing? && RowOf(w.rows, w.lock.name) == w.lock.prior
    ensures w.lock.name in w.sources && w.sources[w.lock.name].alive
    ensures w.lock.bytes == w.sources[w.lock.name].level == Committed(w.sources[w.lock.name])
    ensures Reconciled(w).rows == w.rows[w.lock.name := Row(w.sources[w.lock.name].level, w.next, None)]
  {
  }

  lemma CompareTransacts(w: World)
    requires Shape(w) && w.lock.Comparing? && RowOf(w.rows, w.lock.name) == w.lock.prior
    ensures Transacting(Reconciled(w)) && Numbered(Reconciled(w)) && Charged(Reconciled(w))
  {
    var w', n := Reconciled(w), w.lock.name;
    hide Pending, Answering;
    forall m | Active(w', m)
      ensures TxFits(w', m) && TxNumbered(TxOf(w', m), w'.next)
    {
      assert Active(w, m) && TxFits(w, m);
    }
  }

  lemma ComparePends(w: World)
    requires Shape(w) && w.lock.Comparing? && RowOf(w.rows, w.lock.name) == w.lock.prior
    ensures Pending(Reconciled(w)) && Answering(Reconciled(w))
  {
    var w', n := Reconciled(w), w.lock.name;
    hide Transacting, Locked;
    assert forall m :: Active(w', m) <==> Active(w, m);
    forall t | t in w'.queue
      ensures TicketFits(w', t.op)
    {
      assert TicketFits(w, t.op);
      assert t.op.Reserve? ==> t.op.intent.token == t.id < w.next;
    }
    forall q | q in w'.replies
      ensures ReplyFits(w', q)
    {
      assert ReplyFits(w, q);
    }
  }

  lemma CompareKeeps(w: World, limits: Limits)
    requires Shape(w) && Enabled(w, CompareAndSet)
    ensures Shape(Next(w, CompareAndSet, limits))
  {
    if RowOf(w.rows, w.lock.name) == w.lock.prior {
      CompareTransacts(w);
      ComparePends(w);
    } else {
      UnlockKeeps(w, Holding(w.lock.name));
    }
  }

  lemma ShapeKept(w: World, s: Step, limits: Limits)
    requires Shape(w) && Enabled(w, s)
    ensures Shape(Next(w, s, limits))
  {
    hide Shape;
    match s
    case Begin(n) => BeginKeeps(w, n, limits);
    case Issue(n, after) => IssueKeeps(w, n, after, limits);
    case Apply => ApplyTakes(w, limits); TakeKeeps(w, 0, limits);
    case Lose(at) => WithoutKeeps(w, at);
    case Hear(reply) => HearKeeps(w, reply, limits);
    case LoseReply(reply) => LoseReplyKeeps(w, reply, limits);
    case Publish(n) => PublishKeeps(w, n, limits);
    case Write(n) => WriteKeeps(w, n, limits);
    case Commit(n) => CommitKeeps(w, n, limits);
    case Abort(n) => AbortKeeps(w, n);
    case Die(n) => DieKeeps(w, n, limits);
    case LockOpen(n) => LifecycleQueued(w, Open(n), Opening(n, w.next));
    case Create(n) => CreateKeeps(w, n, limits);
    case Delete(n) => DeleteKeeps(w, n, limits);
    case Look(n) => LookKeeps(w, n, limits);
    case ReadUsage => ReadUsageKeeps(w, limits);
    case CompareAndSet => CompareKeeps(w, limits);
    case Unlock => UnlockKeeps(w, Free);
  }

  // ---------------------------------------------------------------- the quota

  /** No step charges past the quota. */
  lemma SumKept(w: World, s: Step, limits: Limits)
    requires Inv(w, limits) && Enabled(w, s)
    ensures Total(Next(w, s, limits).rows, Bytes) <= limits.quotaBytes
  {
    if s == Apply {
      ApplyTakes(w, limits);
      TakeSum(w, 0, limits);
    } else if s == CompareAndSet && RowOf(w.rows, w.lock.name) == w.lock.prior {
      ReconciliationIsExact(w);
      var n := w.lock.name;
      TotalPut(w.rows, Bytes, n, Row(w.lock.bytes, w.next, None));
    }
  }

  /** What a ticket does to the rows. */
  lemma TakenRows(w: World, at: nat, limits: Limits)
    requires at < |w.queue|
    ensures var rows, rows', op := w.rows, Taken(w, at, limits).rows, w.queue[at].op;
      match op
      case Open(n) => rows' == rows || (n !in rows && rows' == rows[n := Row(0, w.next, None)])
      case Remove(n) => rows' == rows - {n}
      case Reserve(n, i) => rows' == if Affordable(rows, n, i, limits) then rows[n := ReservedRow(i)] else rows
      case Finish(n, i, committed) => rows' == Settled(rows, n, i, committed, w.next)
  {
    hide Affordable, Settled;
  }

  lemma TakeSum(w: World, at: nat, limits: Limits)
    requires Charged(w) && Pending(w) && Total(w.rows, Bytes) <= limits.quotaBytes && at < |w.queue|
    ensures Total(Taken(w, at, limits).rows, Bytes) <= limits.quotaBytes
  {
    TakenRows(w, at, limits);
    assert w.queue[at] in w.queue;
    assert TicketFits(w, w.queue[at].op);
    hide Charged, ReserveFits, FinishFits, Affordable, Settled, Taken, Pending;
    match w.queue[at].op
    case Open(n) =>
      TotalPut(w.rows, Bytes, n, Row(0, w.next, None));
    case Remove(n) =>
      if n in w.rows { TotalRemove(w.rows, Bytes, n); } else { assert w.rows - {n} == w.rows; }
    case Reserve(n, i) =>
      if Affordable(w.rows, n, i, limits) { ReserveSum(w, n, i, limits); }
    case Finish(n, i, committed) =>
      FinishSum(w, n, i, committed, limits);
  }

  lemma ReserveSum(w: World, n: Name, i: Intent, limits: Limits)
    requires Charged(w) && Total(w.rows, Bytes) <= limits.quotaBytes && ReserveFits(w, n, i)
    requires Affordable(w.rows, n, i, limits)
    ensures Total(w.rows[n := ReservedRow(i)], Bytes) <= limits.quotaBytes
  {
    TotalRemove(w.rows, Bytes, n);
    TotalPut(w.rows, Bytes, n, ReservedRow(i));
  }

  lemma FinishSum(w: World, n: Name, i: Intent, committed: bool, limits: Limits)
    requires Charged(w) && Total(w.rows, Bytes) <= limits.quotaBytes && FinishFits(w, n, i, committed)
    ensures Total(Settled(w.rows, n, i, committed, w.next), Bytes) <= limits.quotaBytes
  {
    if Carries(w, n, i) {
      TotalPut(w.rows, Bytes, n, Row(if committed then i.after else i.before, w.next, None));
    }
  }

  lemma StepKeeps(w: World, s: Step, limits: Limits)
    requires Inv(w, limits) && Enabled(w, s)
    ensures Inv(Next(w, s, limits), limits)
  {
    SumKept(w, s, limits);
    ShapeKept(w, s, limits);
  }

  lemma EmptyInv(limits: Limits)
    ensures Inv(EMPTY, limits)
  {
    TotalEmpty<Name, Row>(Bytes);
  }

  lemma {:induction false} RunKeeps(w: World, steps: seq<Step>, limits: Limits)
    requires Inv(w, limits) && Runs(w, steps, limits)
    ensures Inv(Run(w, steps, limits), limits)
    decreases |steps|
  {
    if steps != [] {
      StepKeeps(w, steps[0], limits);
      RunKeeps(Next(w, steps[0], limits), steps[1..], limits);
    }
  }

  /** Whatever transactions, aborts, lost operations, crashes, creations and deletions an origin goes through, each
      database is charged at least its committed bytes, and together they never hold more than the quota. */
  lemma QuotaHolds(steps: seq<Step>, limits: Limits)
    requires Runs(EMPTY, steps, limits)
    ensures var w := Run(EMPTY, steps, limits);
      (forall n :: n in w.sources ==> n in w.rows && Committed(w.sources[n]) <= w.rows[n].bytes)
      && Total(w.sources, Committed) <= Total(w.rows, Bytes) <= limits.quotaBytes
  {
    EmptyInv(limits);
    RunKeeps(EMPTY, steps, limits);
    var w := Run(EMPTY, steps, limits);
    TotalMonotone(w.sources, Committed, w.rows, Bytes);
  }

  /** Over every run, a reconciliation that succeeds charges exactly what the database then holds. */
  lemma RunsReconcileExactly(steps: seq<Step>, limits: Limits)
    requires Runs(EMPTY, steps, limits)
    requires var w := Run(EMPTY, steps, limits); w.lock.Comparing? && RowOf(w.rows, w.lock.name) == w.lock.prior
    ensures var w := Run(EMPTY, steps, limits);
      var n := w.lock.name;
      n in w.sources && Next(w, CompareAndSet, limits).rows[n].bytes == Committed(w.sources[n])
  {
    EmptyInv(limits);
    RunKeeps(EMPTY, steps, limits);
    ReconciliationIsExact(Run(EMPTY, steps, limits));
  }
}
