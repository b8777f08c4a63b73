/** What every run of mutations keeps, from every tab and document, refused ones included. */
module LocalStorageRuns {
  import opened Collections
  import opened LocalStorage
  import opened LocalStorageProof

  datatype Step = Step(n: Namespace, doc: string, sequence: nat, change: Change, quotaBytes: nat)

  function After(d: Disk, s: Step): Disk {
    var r := Commit(d, s.n, s.doc, s.sequence, s.change, s.quotaBytes);
    if r.Committed? then r.disk else d
  }

  function Play(d: Disk, steps: seq<Step>): Disk
    decreases |steps|
  {
    if steps == [] then d else Play(After(d, steps[0]), steps[1..])
  }

  lemma StepMeans(d: Disk, s: Step)
    requires Inv(d)
    ensures Inv(After(d, s))
  {
    CommitMeans(d, s.n, s.doc, s.sequence, s.change, s.quotaBytes);
  }

  lemma {:induction false} RunKeepsLedgers(d: Disk, steps: seq<Step>)
    requires Inv(d)
    ensures Inv(Play(d, steps))
    decreases |steps|
  {
    if steps != [] {
      StepMeans(d, steps[0]);
      RunKeepsLedgers(After(d, steps[0]), steps[1..]);
    }
  }

  // ---------------------------------------------------------------- revisions

  /** How often a run changes what a namespace holds. */
  ghost function Changes(d: Disk, steps: seq<Step>, n: Namespace): nat
    decreases |steps|
  {
    if steps == [] then 0
    else
      var next := After(d, steps[0]);
      (if Contents(next, n) == Contents(d, n) then 0 else 1) + Changes(next, steps[1..], n)
  }

  lemma StepRevision(d: Disk, s: Step, n: Namespace)
    requires Inv(d)
    ensures MetaOf(After(d, s), n).revision
      == MetaOf(d, n).revision + (if Contents(After(d, s), n) == Contents(d, n) then 0 else 1)
  {
    CommitMeans(d, s.n, s.doc, s.sequence, s.change, s.quotaBytes);
    hide Commit, Contents, Receipted, Applied, Found;
  }

  /** A revision counts the changes: no change is missed and nothing else is counted. */
  lemma {:induction false} RevisionCountsChanges(d: Disk, steps: seq<Step>, n: Namespace)
    requires Inv(d)
    ensures MetaOf(Play(d, steps), n).revision == MetaOf(d, n).revision + Changes(d, steps, n)
    decreases |steps|
  {
    hide After, Inv, MetaOf, Contents;
    if steps != [] {
      StepRevision(d, steps[0], n);
      StepMeans(d, steps[0]);
      RevisionCountsChanges(After(d, steps[0]), steps[1..], n);
    }
  }

  // ---------------------------------------------------------------- quota

  lemma StepQuota(d: Disk, s: Step, n: Namespace)
    requires Inv(d)
    ensures Bytes(Contents(After(d, s), n)) <= Most(if s.n == n then s.quotaBytes else 0, Bytes(Contents(d, n)))
  {
    CommitMeans(d, s.n, s.doc, s.sequence, s.change, s.quotaBytes);
    hide Commit, Contents, Bytes, Receipted, Found, Applied, Inv, MetaOf, Marked;
  }

  /** A namespace never outgrows the larger of its quota and what it held to begin with. */
  lemma {:induction false} RunsStayWithinQuota(d: Disk, steps: seq<Step>, n: Namespace, quotaBytes: nat)
    requires Inv(d) && forall i :: 0 <= i < |steps| && steps[i].n == n ==> steps[i].quotaBytes <= quotaBytes
    ensures Bytes(Contents(Play(d, steps), n)) <= Most(quotaBytes, Bytes(Contents(d, n)))
    decreases |steps|
  {
    hide After, Inv, Bytes, Contents;
    if steps != [] {
      StepQuota(d, steps[0], n);
      StepMeans(d, steps[0]);
      RunsStayWithinQuota(After(d, steps[0]), steps[1..], n, quotaBytes);
    }
  }

  // ---------------------------------------------------------------- receipts

  /** A new mutation that commits drops the receipts of its document that are eight or more behind it, and no other. */
  lemma ReceiptKeptIff(d: Disk, s: Step, doc: string, sequence: nat)
    requires (doc, sequence) in d.receipts
    ensures var isNew := (s.doc, s.sequence) !in d.receipts
                         && Commit(d, s.n, s.doc, s.sequence, s.change, s.quotaBytes).Committed?;
      (doc, sequence) in After(d, s).receipts
      <==> !(isNew && s.doc == doc && s.sequence > RECEIPT_WINDOW && sequence + RECEIPT_WINDOW <= s.sequence)
    ensures (doc, sequence) in After(d, s).receipts ==> After(d, s).receipts[(doc, sequence)] == d.receipts[(doc, sequence)]
  {
    hide NextMeta, NextValues, Marked, Found;
  }

  lemma {:induction false} ReceiptStays(d: Disk, steps: seq<Step>, doc: string, sequence: nat)
    requires (doc, sequence) in d.receipts
    requires forall i :: 0 <= i < |steps| && steps[i].doc == doc ==> steps[i].sequence < sequence + RECEIPT_WINDOW
    ensures (doc, sequence) in Play(d, steps).receipts
    ensures Play(d, steps).receipts[(doc, sequence)] == d.receipts[(doc, sequence)]
    decreases |steps|
  {
    hide After, Commit;
    if steps != [] {
      ReceiptKeptIff(d, steps[0], doc, sequence);
      ReceiptStays(After(d, steps[0]), steps[1..], doc, sequence);
    }
  }

  /** A mutation repeated while its document is less than eight ahead changes nothing, whatever it now asks for and
      whatever the others have done since, and reports the revision it had. */
  lemma ReplayIsHarmless(d: Disk, s: Step, steps: seq<Step>, again: Step)
    requires Commit(d, s.n, s.doc, s.sequence, s.change, s.quotaBytes).Committed?
    requires forall i :: 0 <= i < |steps| && steps[i].doc == s.doc ==> steps[i].sequence < s.sequence + RECEIPT_WINDOW
    requires again.doc == s.doc && again.sequence == s.sequence
    ensures var now := Play(After(d, s), steps);
      Commit(now, again.n, again.doc, again.sequence, again.change, again.quotaBytes)
      == Committed(now, Delta(Commit(d, s.n, s.doc, s.sequence, s.change, s.quotaBytes).delta.revision,
                              None, None, None, false))
  {
    var r := Commit(d, s.n, s.doc, s.sequence, s.change, s.quotaBytes);
    assert (s.doc, s.sequence) in r.disk.receipts && r.disk.receipts[(s.doc, s.sequence)] == r.delta.revision by {
      hide NextMeta, NextValues, Marked, Found;
    }
    ReceiptStays(r.disk, steps, s.doc, s.sequence);
  }

  /** Once the window has passed, a repeated mutation is applied again. */
  lemma LateReplayCounts(d: Disk, s: Step, later: Step)
    requires (s.doc, s.sequence) in d.receipts && later.doc == s.doc && later.sequence >= s.sequence + RECEIPT_WINDOW
    requires later.sequence > RECEIPT_WINDOW
    requires (later.doc, later.sequence) !in d.receipts
    requires Commit(d, later.n, later.doc, later.sequence, later.change, later.quotaBytes).Committed?
    requires Inv(d)
    ensures var now := After(d, later);
      var r := Commit(now, s.n, s.doc, s.sequence, s.change, s.quotaBytes);
      r.Committed? ==> Contents(r.disk, s.n) == Applied(Contents(now, s.n), s.change)
  {
    ReceiptKeptIff(d, later, s.doc, s.sequence);
    StepMeans(d, later);
    CommitMeans(After(d, later), s.n, s.doc, s.sequence, s.change, s.quotaBytes);
  }

  // ---------------------------------------------------------------- markers

  predicate Names(m: Marker, origin: string, key: string) {
    m.origin == origin && (m.Cleared? || m.key == key)
  }

  /** What a step does, seen from the journal. */
  lemma StepDoes(d: Disk, s: Step)
    requires Inv(d)
    ensures var d' := After(d, s);
      d'.journal == d.journal + (if Contents(d', s.n) == Contents(d, s.n) then [] else Marked(s.n, s.change))
    ensures forall m :: m != s.n ==> Contents(After(d, s), m) == Contents(d, m)
    ensures Contents(After(d, s), s.n) == Contents(d, s.n)
            || Contents(After(d, s), s.n) == Applied(Contents(d, s.n), s.change)
  {
    CommitMeans(d, s.n, s.doc, s.sequence, s.change, s.quotaBytes);
    hide Commit, Contents, Found, Receipted, Inv, MetaOf, Marked, Applied;
  }

  /** A key a step changes is the step's key, in the step's namespace. */
  lemma StepTouches(d: Disk, s: Step, n: Namespace, key: string)
    requires forall m :: m != s.n ==> Contents(After(d, s), m) == Contents(d, m)
    requires Contents(After(d, s), s.n) == Contents(d, s.n)
             || Contents(After(d, s), s.n) == Applied(Contents(d, s.n), s.change)
    ensures var (before, after) := (Contents(d, n), Contents(After(d, s), n));
      Lookup(before, key) != Lookup(after, key)
      ==> n == s.n && after != before && (s.change.Clear? || s.change.key == key)
  {
    hide After, Contents;
  }

  lemma MarkedNames(c: Change, origin: string, key: string)
    requires c.Clear? || c.key == key
    ensures |Marked(Local(origin), c)| == 1 && Names(Marked(Local(origin), c)[0], origin, key)
  {
  }

  lemma StepMarks(d: Disk, s: Step, origin: string, key: string)
    requires Inv(d)
    ensures var d' := After(d, s);
      d.journal <= d'.journal
      && (Found(d', Local(origin), key) != Found(d, Local(origin), key)
          ==> exists m :: m in d'.journal[|d.journal|..] && Names(m, origin, key))
  {
    hide *;
    var d' := After(d, s);
    StepDoes(d, s);
    ContentsFound(d, Local(origin), key);
    ContentsFound(d', Local(origin), key);
    StepTouches(d, s, Local(origin), key);
    if Found(d', Local(origin), key) != Found(d, Local(origin), key) {
      MarkedNames(s.change, origin, key);
      assert d'.journal[|d.journal|..] == Marked(s.n, s.change);
    }
  }

  /** Whatever a run changes in a website's local storage is named by a marker written in that run. */
  lemma {:induction false} ChangesAreMarked(d: Disk, steps: seq<Step>, origin: string, key: string)
    requires Inv(d)
    ensures var d' := Play(d, steps);
      d.journal <= d'.journal
      && (Found(d', Local(origin), key) != Found(d, Local(origin), key)
          ==> exists m :: m in d'.journal[|d.journal|..] && Names(m, origin, key))
    decreases |steps|
  {
    hide After, Inv, Found, Names;
    if steps != [] {
      var mid, end := After(d, steps[0]), Play(d, steps);
      StepMarks(d, steps[0], origin, key);
      StepMeans(d, steps[0]);
      ChangesAreMarked(mid, steps[1..], origin, key);
      forall m | m in mid.journal[|d.journal|..] || m in end.journal[|mid.journal|..]
        ensures m in end.journal[|d.journal|..]
      {
        assert end.journal[..|mid.journal|] == mid.journal;
        if m in mid.journal[|d.journal|..] {
          var i :| |d.journal| <= i < |mid.journal| && mid.journal[i] == m;
          assert end.journal[i] == m;
        }
      }
    }
  }

  // ---------------------------------------------------------------- what the markers say

  /** The last marker that names the key. */
  function LastNaming(ms: seq<Marker>, origin: string, key: string): Option<Marker> {
    if ms == [] then None
    else if Names(ms[|ms| - 1], origin, key) then Some(ms[|ms| - 1])
    else LastNaming(ms[..|ms| - 1], origin, key)
  }

  lemma {:induction false} LastNamingJoin(a: seq<Marker>, b: seq<Marker>, origin: string, key: string)
    ensures LastNaming(a + b, origin, key)
      == if LastNaming(b, origin, key).Some? then LastNaming(b, origin, key) else LastNaming(a, origin, key)
    decreases |b|
  {
    hide Names;
    if b == [] {
      assert a + b == a;
    } else {
      assert (a + b)[..|a + b| - 1] == a + b[..|b| - 1];
      LastNamingJoin(a, b[..|b| - 1], origin, key);
    }
  }

  /** The key is stored if the marker says it was set, gone if it says deleted or cleared, and as it was without one. */
  predicate Tells(m: Option<Marker>, was: Option<string>, now: Option<string>) {
    if m.None? then now == was else now.Some? <==> m.value.Upserted?
  }

  lemma MarkTells(c: Change, origin: string, key: string, before: map<string, string>)
    ensures Tells(LastNaming(Marked(Local(origin), c), origin, key), Lookup(before, key), Lookup(Applied(before, c), key))
  {
    var ms := Marked(Local(origin), c);
    assert ms[..|ms| - 1] == [];
    assert LastNaming([], origin, key) == None;
  }

  lemma OthersMark(n: Namespace, c: Change, origin: string, key: string)
    requires n != Local(origin)
    ensures LastNaming(Marked(n, c), origin, key) == None
  {
    var ms := Marked(n, c);
    assert ms != [] ==> ms[..|ms| - 1] == [];
    assert LastNaming([], origin, key) == None;
  }

  lemma StepTells(d: Disk, s: Step, origin: string, key: string)
    requires Inv(d)
    ensures var d' := After(d, s);
      d.journal <= d'.journal
      && Tells(LastNaming(d'.journal[|d.journal|..], origin, key), Found(d, Local(origin), key), Found(d', Local(origin), key))
  {
    hide *;
    var d', n := After(d, s), Local(origin);
    StepDoes(d, s);
    ContentsFound(d, n, key);
    ContentsFound(d', n, key);
    NoMarkerTells(origin, key, Found(d, n, key));
    if Contents(d', s.n) == Contents(d, s.n) {
      assert d'.journal[|d.journal|..] == [];
    } else {
      assert d'.journal[|d.journal|..] == Marked(s.n, s.change);
      if s.n == n {
        MarkTells(s.change, origin, key, Contents(d, n));
      } else {
        OthersMark(s.n, s.change, origin, key);
      }
    }
  }

  lemma NoMarkerTells(origin: string, key: string, value: Option<string>)
    ensures LastNaming([], origin, key) == None && Tells(None, value, value)
  {
  }

  lemma TellsOn(a: Option<Marker>, b: Option<Marker>, was: Option<string>, mid: Option<string>, now: Option<string>)
    requires Tells(a, was, mid) && Tells(b, mid, now)
    ensures Tells(if b.Some? then b else a, was, now)
  {
  }

  /** Whether a key is stored after a run can be told from the markers of the run and what was stored before: the last
      marker that names it says set, or deleted, or cleared, and without one it is as it was. */
  lemma {:induction false} MarkersTell(d: Disk, steps: seq<Step>, origin: string, key: string)
    requires Inv(d)
    ensures var d' := Play(d, steps);
      d.journal <= d'.journal
      && Tells(LastNaming(d'.journal[|d.journal|..], origin, key), Found(d, Local(origin), key), Found(d', Local(origin), key))
    decreases |steps|
  {
    hide After, Inv, Found, Names, LastNaming, Tells;
    if steps == [] {
      assert d.journal[|d.journal|..] == [];
      NoMarkerTells(origin, key, Found(d, Local(origin), key));
    } else {
      var n, mid, end := Local(origin), After(d, steps[0]), Play(d, steps);
      StepTells(d, steps[0], origin, key);
      StepMeans(d, steps[0]);
      MarkersTell(mid, steps[1..], origin, key);
      var a, b := mid.journal[|d.journal|..], end.journal[|mid.journal|..];
      assert end.journal[|d.journal|..] == a + b;
      LastNamingJoin(a, b, origin, key);
      TellsOn(LastNaming(a, origin, key), LastNaming(b, origin, key), Found(d, n, key), Found(mid, n, key), Found(end, n, key));
    }
  }

  // ---------------------------------------------------------------- the transaction

  class LocalStorageStore {
    var origins: map<Namespace, Meta>
    var values: map<seq<string>, string>
    var receipts: map<(string, nat), nat>
    var journal: seq<Marker>

    ghost function State(): Disk reads this { Disk(origins, values, receipts, journal) }

    constructor ()
      ensures State() == EMPTY
    {
      origins, values, receipts, journal := map[], map[], map[], [];
    }

    method DeleteRange(n: Namespace)
      modifies this`values
      ensures values == NextValues(old(values), n, Clear)
    {
      values := map k | k in values && !InRange(n, k) :: values[k];
    }

    method Write(n: Namespace, change: Change, next: Meta)
      modifies this`values, this`origins, this`journal
      ensures values == NextValues(old(values), n, change) && origins == old(origins)[n := next]
      ensures journal == old(journal) + Marked(n, change)
    {
      hide Prefix, InRange;
      match change {
        case Clear => DeleteRange(n);
        case SetItem(k, v) => values := values[ValueKey(n, k) := v];
        case RemoveItem(k) => values := values - {ValueKey(n, k)};
      }
      origins := origins[n := next];
      if n.Local? { journal := journal + Marked(n, change); }
    }

    /** Receipts are kept for the last eight mutations of a document. */
    method PutReceipt(doc: string, sequence: nat, revision: nat)
      modifies this`receipts
      ensures receipts == Receipted(old(receipts), doc, sequence, revision)
    {
      receipts := receipts[(doc, sequence) := revision];
      if sequence > RECEIPT_WINDOW {
        receipts := map k | k in receipts && !(k.0 == doc && k.1 <= sequence - RECEIPT_WINDOW) :: receipts[k];
      }
    }

    /** What a change comes to: whether it is one, and the size and number of the items after it. */
    static method Measure(previous: Meta, change: Change, oldValue: Option<string>)
        returns (changed: bool, bytes: int, count: int)
      ensures Meta(previous.revision + (if changed then 1 else 0), bytes, count) == NextMeta(previous, change, oldValue)
    {
      var newValue := if change.SetItem? then Some(change.value) else None;
      changed := if change.Clear? then previous.count > 0 else oldValue != newValue;
      bytes, count := previous.bytes, previous.count;
      if change.Clear? {
        bytes, count := 0, 0;
      } else {
        if oldValue.Some? {
          bytes := bytes - 2 * (|change.key| + |oldValue.value|);
          count := count - 1;
        }
        if newValue.Some? {
          bytes := bytes + 2 * (|change.key| + |newValue.value|);
          count := count + 1;
        }
      }
    }

    /** The transaction of commitLocalStorageV2; an abort leaves everything as it was. */
    method Mutate(n: Namespace, doc: string, sequence: nat, change: Change, quotaBytes: nat) returns (delta: Option<Delta>)
      modifies this
      ensures var r := Commit(old(State()), n, doc, sequence, change, quotaBytes);
        if r.Aborted? then delta == None && State() == old(State())
        else delta == Some(r.delta) && State() == r.disk
    {
      hide Prefix, InRange, NextValues, NextMeta, Receipted, Marked, ValueKey;
      if (doc, sequence) in receipts {
        return Some(Delta(receipts[(doc, sequence)], None, None, None, false));
      }
      var previous := if n in origins then origins[n] else Meta(0, 0, 0);
      var oldValue := None;
      if !change.Clear? && ValueKey(n, change.key) in values { oldValue := Some(values[ValueKey(n, change.key)]); }
      var newValue := if change.SetItem? then Some(change.value) else None;
      var changed, bytes, count := Measure(previous, change, oldValue);
      if bytes > MAX_SAFE_INTEGER || bytes < 0 { return None; }
      if bytes > (if quotaBytes < previous.bytes then previous.bytes else quotaBytes) { return None; }
      var revision := previous.revision + if changed then 1 else 0;
      if changed { Write(n, change, Meta(revision, bytes, count)); }
      PutReceipt(doc, sequence, revision);
      return Some(Delta(revision, KeyOf(change), oldValue, newValue, changed));
    }
  }
}
