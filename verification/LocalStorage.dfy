/** Website local and session storage (runtime/local-storage-v2.ts): one store of values for every namespace, a ledger
    row for each, receipts that make a repeated mutation harmless, and the markers the backup reads. */
module LocalStorage {
  import opened Collections

  const MAX_SAFE_INTEGER: nat := 0x1F_FFFF_FFFF_FFFF
  const RECEIPT_WINDOW: nat := 8

  datatype Namespace = Local(origin: string) | Session(sessionId: string, origin: string)

  datatype Change = SetItem(key: string, value: string) | RemoveItem(key: string) | Clear

  datatype Meta = Meta(revision: nat, bytes: int, count: int)

  datatype Marker = Upserted(origin: string, key: string) | Deleted(origin: string, key: string) | Cleared(origin: string)

  datatype Delta = Delta(revision: nat, key: Option<string>, oldValue: Option<string>, newValue: Option<string>,
                         changed: bool)

  /** The three stores and the change journal. A key of a value is an array of strings. */
  datatype Disk = Disk(origins: map<Namespace, Meta>, values: map<seq<string>, string>,
                       receipts: map<(string, nat), nat>, journal: seq<Marker>)

  datatype Outcome = Committed(disk: Disk, delta: Delta) | Aborted

  // ---------------------------------------------------------------- keys and ranges

  function Prefix(n: Namespace): seq<string> {
    match n
    case Local(origin) => ["local", origin]
    case Session(id, origin) => ["session", id, origin]
  }

  function ValueKey(n: Namespace, key: string): seq<string> { Prefix(n) + [key] }

  /** Arrays of strings by their elements, a proper prefix first: the order of IndexedDB keys (section 3.1.6 of
      Indexed Database API 2.0). */
  predicate KeyBefore(a: seq<string>, b: seq<string>) {
    b != [] && (a == [] || StringBefore(a[0], b[0]) || (a[0] == b[0] && KeyBefore(a[1..], b[1..])))
  }

  /** The upper bound: the last element with a NUL behind it. */
  function Upper(prefix: seq<string>): seq<string>
    requires prefix != []
  {
    prefix[..|prefix| - 1] + [prefix[|prefix| - 1] + "\0"]
  }

  predicate InRange(n: Namespace, key: seq<string>) {
    !KeyBefore(key, Prefix(n)) && KeyBefore(key, Upper(Prefix(n)))
  }

  /** A string with a NUL behind it comes next: nothing lies in between. */
  lemma {:induction false} NulIsNext(a: string, x: string)
    ensures StringBefore(x, a + "\0") <==> StringBefore(x, a) || x == a
  {
    if a == [] {
      assert a + "\0" == "\0";
      if x != [] { assert !(x[0] < '\0'); assert !StringBefore(x[1..], []); }
    } else if x != [] {
      assert (a + "\0")[1..] == a[1..] + "\0";
      NulIsNext(a[1..], x[1..]);
      if x[0] == a[0] && x[1..] == a[1..] { assert x == [x[0]] + x[1..] == [a[0]] + a[1..] == a; }
    }
  }

  lemma {:induction false} RangeIsPrefix(prefix: seq<string>, key: seq<string>)
    requires prefix != []
    ensures !KeyBefore(key, prefix) && KeyBefore(key, Upper(prefix)) <==> prefix <= key
  {
    if key != [] {
      StringsOrdered(prefix[0], prefix[0]);
      NulIsNext(prefix[0], key[0]);
      if |prefix| == 1 {
        assert Upper(prefix) == [prefix[0] + "\0"];
        assert Upper(prefix)[1..] == [] && prefix[1..] == [];
        assert !KeyBefore(key[1..], prefix[1..]) && !KeyBefore(key[1..], []);
      } else {
        assert Upper(prefix)[0] == prefix[0] && Upper(prefix)[1..] == Upper(prefix[1..]);
        RangeIsPrefix(prefix[1..], key[1..]);
        if key[0] == prefix[0] && prefix[1..] <= key[1..] { assert prefix == [prefix[0]] + prefix[1..]; }
        if prefix <= key { assert prefix[1..] <= key[1..]; }
      }
    }
  }

  /** The range of a namespace holds exactly the keys of its values, whatever its origin and its keys are. */
  lemma RangeIsNamespace(n: Namespace, m: Namespace, key: string)
    ensures InRange(n, ValueKey(m, key)) <==> n == m
  {
    RangeIsPrefix(Prefix(n), ValueKey(m, key));
    var p, k := Prefix(n), ValueKey(m, key);
    if p <= k {
      assert k[0] == p[0] && k[1] == p[1];
      if n.Session? { assert k[2] == p[2]; }
    }
  }

  // ---------------------------------------------------------------- one mutation

  function MetaOf(d: Disk, n: Namespace): Meta { if n in d.origins then d.origins[n] else Meta(0, 0, 0) }

  function Found(d: Disk, n: Namespace, key: string): Option<string> {
    if ValueKey(n, key) in d.values then Some(d.values[ValueKey(n, key)]) else None
  }

  function ItemBytes(key: string, value: Option<string>): nat {
    if value.Some? then 2 * (|key| + |value.value|) else 0
  }

  function Present(value: Option<string>): nat { if value.Some? then 1 else 0 }

  function Marked(n: Namespace, c: Change): seq<Marker> {
    if n.Session? then []
    else [match c case SetItem(k, _) => Upserted(n.origin, k) case RemoveItem(k) => Deleted(n.origin, k)
                  case Clear => Cleared(n.origin)]
  }

  /** The ledger row after the mutation. */
  function NextMeta(m: Meta, c: Change, was: Option<string>): Meta {
    match c
    case Clear => Meta(m.revision + (if m.count > 0 then 1 else 0), 0, 0)
    case SetItem(k, v) =>
      Meta(m.revision + (if was != Some(v) then 1 else 0), m.bytes - ItemBytes(k, was) + ItemBytes(k, Some(v)),
           m.count - Present(was) + 1)
    case RemoveItem(k) =>
      Meta(m.revision + (if was.Some? then 1 else 0), m.bytes - ItemBytes(k, was), m.count - Present(was))
  }

  function NextValues(values: map<seq<string>, string>, n: Namespace, c: Change): map<seq<string>, string> {
    match c
    case Clear => map k | k in values && !InRange(n, k) :: values[k]
    case SetItem(k, v) => values[ValueKey(n, k) := v]
    case RemoveItem(k) => values - {ValueKey(n, k)}
  }

  function Receipted(receipts: map<(string, nat), nat>, doc: string, sequence: nat, revision: nat)
    : map<(string, nat), nat>
  {
    var with := receipts[(doc, sequence) := revision];
    if sequence > RECEIPT_WINDOW then
      map k | k in with && !(k.0 == doc && k.1 <= sequence - RECEIPT_WINDOW) :: with[k]
    else with
  }

  function KeyOf(c: Change): Option<string> { if c.Clear? then None else Some(c.key) }

  /** commitLocalStorageV2. */
  function Commit(d: Disk, n: Namespace, doc: string, sequence: nat, c: Change, quotaBytes: nat): Outcome {
    if (doc, sequence) in d.receipts then
      Committed(d, Delta(d.receipts[(doc, sequence)], None, None, None, false))
    else
      var prior := MetaOf(d, n);
      var was := if c.Clear? then None else Found(d, n, c.key);
      var next := NextMeta(prior, c, was);
      var limit := if quotaBytes < prior.bytes then prior.bytes else quotaBytes;
      if next.bytes < 0 || next.bytes > MAX_SAFE_INTEGER || next.bytes > limit then Aborted
      else
        var changed := next.revision != prior.revision;
        var delta := Delta(next.revision, KeyOf(c), was, if c.SetItem? then Some(c.value) else None, changed);
        var receipts := Receipted(d.receipts, doc, sequence, next.revision);
        if !changed then Committed(d.(receipts := receipts), delta)
        else
          Committed(Disk(d.origins[n := next], NextValues(d.values, n, c), receipts, d.journal + Marked(n, c)), delta)
  }

  // ---------------------------------------------------------------- what a website sees

  /** What a namespace holds. */
  ghost function Contents(d: Disk, n: Namespace): map<string, string> {
    map k | k in d.values && Prefix(n) + [Last(k)] == k :: Last(k) := d.values[k]
  }

  function Last(k: seq<string>): string { if k == [] then "" else k[|k| - 1] }

  function Lookup(c: map<string, string>, key: string): Option<string> { if key in c then Some(c[key]) else None }

  lemma ContentsFound(d: Disk, n: Namespace, key: string)
    ensures Found(d, n, key) == Lookup(Contents(d, n), key)
  {
    if ValueKey(n, key) in d.values { assert Last(ValueKey(n, key)) == key; }
  }
}
