/** The quota ledger of one website origin (runtime/local-idb-quota.ts) and the source transactions that drive it
    (runtime/local-idb-backend-v2.ts). The ledger and the databases it charges for commit separately: operations on
    the ledger are issued, and take effect later in the order issued, or never. */
module QuotaModel {
  import opened Collections

  type Name(!new, ==) = string

  const MAX_SAFE_INTEGER: nat := 0x1F_FFFF_FFFF_FFFF

  datatype Intent = Intent(token: nat, before: nat, after: nat)

  datatype Row = Row(bytes: nat, generation: nat, intent: Option<Intent>)

  datatype Op =
    | Open(name: Name)
    | Remove(name: Name)
    | Reserve(name: Name, intent: Intent)
    | Finish(name: Name, intent: Intent, committed: bool)

  datatype Ticket = Ticket(id: nat, op: Op)

  /** A read-write transaction on a database. `base` is the usage it read first; `held` the last intent it was
      granted. */
  datatype Phase = Working | Reserving(intent: Intent) | Reserved(intent: Intent) | Published(intent: Intent)
  datatype Tx = Tx(base: nat, phase: Phase, held: Option<Intent>)

  /** A database: its committed usage and its one active read-write transaction. A deleted one keeps its last usage
      here until its row is removed. */
  datatype Source = Source(level: nat, alive: bool, tx: Option<Tx>)

  datatype Reply = Granted(name: Name, intent: Intent) | Refused(name: Name, intent: Intent)

  /** Who holds the lifecycle lock, and how far it is. */
  datatype Lock =
    | Free
    | Opening(name: Name, id: nat)
    | Opened(name: Name)
    | Removing(name: Name, id: nat)
    | Holding(name: Name)
    | Looking(name: Name, prior: Option<Row>)
    | Comparing(name: Name, prior: Option<Row>, bytes: nat)

  datatype World = World(rows: map<Name, Row>, sources: map<Name, Source>, queue: seq<Ticket>, replies: set<Reply>,
                         lock: Lock, next: nat)

  datatype Limits = Limits(quotaBytes: nat, maxDatabases: nat)

  function Bytes(r: Row): nat { r.bytes }

  /** What a database weighs in the browser: nothing once deleted. */
  function Committed(s: Source): nat { if s.alive then s.level else 0 }

  function RowOf(rows: map<Name, Row>, n: Name): Option<Row> { if n in rows then Some(rows[n]) else None }

  function Larger(a: nat, b: nat): nat { if a < b then b else a }

  // ---------------------------------------------------------------- ledger operations

  /** reserveQuotaCommit: the row is charged for whichever of before and after is larger, unless growth would pass the
      quota. */
  ghost predicate Affordable(rows: map<Name, Row>, n: Name, i: Intent, limits: Limits) {
    n in rows
    && var total := Total(rows - {n}, Bytes) + Larger(i.before, i.after);
      total <= MAX_SAFE_INTEGER && (i.after > i.before ==> total <= limits.quotaBytes)
  }

  function ReservedRow(i: Intent): Row { Row(Larger(i.before, i.after), i.token, Some(i)) }

  /** finishQuotaCommit: only the row that still carries the intent is settled. */
  function Settled(rows: map<Name, Row>, n: Name, i: Intent, committed: bool, fresh': nat): map<Name, Row> {
    if n in rows && rows[n].intent.Some? && rows[n].intent.value.token == i.token
    then rows[n := Row(if committed then i.after else i.before, fresh', None)]
    else rows
  }

  // ---------------------------------------------------------------- steps

  datatype Step =
    | Begin(name: Name)
    | Issue(name: Name, after: nat)
    | Apply
    | Lose(at: nat)
    | Hear(reply: Reply)
    | LoseReply(reply: Reply)
    | Publish(name: Name)
    | Write(name: Name)
    | Commit(name: Name)
    | Abort(name: Name)
    | Die(name: Name)
    | LockOpen(name: Name)
    | Create(name: Name)
    | Delete(name: Name)
    | Look(name: Name)
    | ReadUsage
    | CompareAndSet
    | Unlock

  predicate Active(w: World, n: Name) { n in w.sources && w.sources[n].tx.Some? }

  function TxOf(w: World, n: Name): Tx
    requires Active(w, n)
  {
    w.sources[n].tx.value
  }

  predicate Enabled(w: World, s: Step) {
    match s
    case Begin(n) => n in w.sources && w.sources[n].alive && w.sources[n].tx.None?
    case Issue(n, after) => Active(w, n) && TxOf(w, n).phase == Working
    case Apply => w.queue != []
    case Lose(at) => at < |w.queue|
    case Hear(reply) => reply in w.replies
    case LoseReply(reply) => reply in w.replies
    case Publish(n) => Active(w, n) && TxOf(w, n).phase.Reserved?
    case Write(n) => Active(w, n) && TxOf(w, n).phase.Published?
    case Commit(n) => Active(w, n) && TxOf(w, n).phase.Published?
    case Abort(n) => Active(w, n)
    case Die(n) => Active(w, n)
    case LockOpen(n) => w.lock == Free
    case Create(n) => w.lock == Opened(n) && n in w.sources
    case Delete(n) => w.lock == Free && n in w.sources && w.sources[n].alive && w.sources[n].tx.None?
    case Look(n) => w.lock == Free || w.lock == Opened(n) || w.lock == Holding(n)
    case ReadUsage =>
      // Reads of the usage row wait for an active read-write transaction; without a database they fail.
      w.lock.Looking? && w.lock.name in w.sources && w.sources[w.lock.name].alive && w.sources[w.lock.name].tx.None?
    case CompareAndSet => w.lock.Comparing?
    case Unlock => true
  }

  function Queued(w: World, op: Op): World {
    w.(queue := w.queue + [Ticket(w.next, op)], next := w.next + 1)
  }

  function WithTx(w: World, n: Name, tx: Option<Tx>): World
    requires n in w.sources
  {
    w.(sources := w.sources[n := w.sources[n].(tx := tx)])
  }

  function WithPhase(w: World, n: Name, phase: Phase, held: Option<Intent>): World
    requires Active(w, n)
  {
    WithTx(w, n, Some(TxOf(w, n).(phase := phase, held := held)))
  }

  /** The transaction ends without committing and gives back the intent it holds. */
  function Aborted(w: World, n: Name): World
    requires Active(w, n)
  {
    var held := TxOf(w, n).held;
    var ended := WithTx(w, n, None);
    if held.Some? then Queued(ended, Finish(n, held.value, false)) else ended
  }

  /** The operation at the head of the queue takes effect. */
  ghost function Applied(w: World, t: Ticket, limits: Limits): World {
    match t.op
    case Open(n) =>
      var mine := w.lock == Opening(n, t.id);
      if n in w.rows then w.(lock := if mine then Opened(n) else w.lock)
      else if |w.rows| >= limits.maxDatabases then w.(lock := if mine then Free else w.lock)
      else w.(rows := w.rows[n := Row(0, w.next, None)], sources := w.sources[n := Source(0, false, None)],
              lock := if mine then Opened(n) else w.lock, next := w.next + 1)
    case Remove(n) =>
      w.(rows := w.rows - {n}, sources := w.sources - {n}, lock := if w.lock == Removing(n, t.id) then Free else w.lock)
    case Reserve(n, i) =>
      if Affordable(w.rows, n, i, limits)
      then w.(rows := w.rows[n := ReservedRow(i)], replies := w.replies + {Granted(n, i)})
      else w.(replies := w.replies + {Refused(n, i)})
    case Finish(n, i, committed) =>
      w.(rows := Settled(w.rows, n, i, committed, w.next), next := w.next + 1)
  }

  function Heard(w: World, reply: Reply): World {
    var n := reply.name;
    var waiting := Active(w, n) && TxOf(w, n).phase == Reserving(reply.intent);
    match reply
    case Granted(_, i) =>
      if waiting then WithPhase(w, n, Reserved(i), Some(i)) else Queued(w, Finish(n, i, false))
    case Refused(_, i) =>
      if waiting then Aborted(w, n) else w
  }

  /** The compare-and-set of reconcileQuotaSource. */
  function Reconciled(w: World): World
    requires w.lock.Comparing?
  {
    var n := w.lock.name;
    if RowOf(w.rows, n) == w.lock.prior
    then w.(rows := w.rows[n := Row(w.lock.bytes, w.next, None)], lock := Free, next := w.next + 1)
    else w.(lock := Holding(n))
  }

  ghost function Next(w: World, s: Step, limits: Limits): World
    requires Enabled(w, s)
  {
    match s
    case Begin(n) => WithTx(w, n, Some(Tx(w.sources[n].level, Working, None)))
    case Issue(n, after) =>
      var i := Intent(w.next, TxOf(w, n).base, after);
      Queued(WithPhase(w, n, Reserving(i), TxOf(w, n).held), Reserve(n, i))
    case Apply => Applied(w.(queue := w.queue[1..]), w.queue[0], limits)
    case Lose(at) => w.(queue := w.queue[..at] + w.queue[at + 1..])
    case Hear(reply) => Heard(w.(replies := w.replies - {reply}), reply)
    case LoseReply(reply) => w.(replies := w.replies - {reply})
    case Publish(n) => WithPhase(w, n, Published(TxOf(w, n).phase.intent), TxOf(w, n).held)
    case Write(n) => WithPhase(w, n, Working, TxOf(w, n).held)
    case Commit(n) =>
      var i := TxOf(w, n).phase.intent;
      Queued(w.(sources := w.sources[n := w.sources[n].(level := i.after, tx := None)]), Finish(n, i, true))
    case Abort(n) => Aborted(w, n)
    case Die(n) => WithTx(w, n, None)
    case LockOpen(n) => Queued(w.(lock := Opening(n, w.next)), Open(n))
    case Create(n) =>
      var s := w.sources[n];
      w.(sources := w.sources[n := if s.alive then s else Source(0, true, None)], lock := Free)
    case Delete(n) =>
      Queued(w.(sources := w.sources[n := w.sources[n].(alive := false)], lock := Removing(n, w.next)), Remove(n))
    case Look(n) => w.(lock := Looking(n, RowOf(w.rows, n)))
    case ReadUsage => w.(lock := Comparing(w.lock.name, w.lock.prior, w.sources[w.lock.name].level))
    case CompareAndSet => Reconciled(w)
    case Unlock => w.(lock := Free)
  }

  ghost predicate Runs(w: World, steps: seq<Step>, limits: Limits)
    decreases |steps|
  {
    steps == [] || (Enabled(w, steps[0]) && Runs(Next(w, steps[0], limits), steps[1..], limits))
  }

  ghost function Run(w: World, steps: seq<Step>, limits: Limits): World
    requires Runs(w, steps, limits)
    decreases |steps|
  {
    if steps == [] then w else Run(Next(w, steps[0], limits), steps[1..], limits)
  }

  /** An origin without databases. */
  const EMPTY := World(map[], map[], [], {}, Free, 0)
}
