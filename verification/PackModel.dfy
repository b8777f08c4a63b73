/** How spool records become the items of part pages (runtime/backup-v2-resume.ts): fragments, their JSON text, and
    what a list of parts holds. */
module PackModel {
  import opened Collections
  import opened Base64

  const FRAGMENT_BYTES: nat := 180 * 1024
  const PART_BYTES: nat := 256 * 1024
  const ENCODED_RECORD_BYTES: nat := 1024 * 1024
  const MOST_ITEMS: nat := 256
  const MOST_PARTS: nat := 32

  type Digest = s: string | |s| == 64 witness seq(64, _ => '0')
  type Uuid = s: string | |s| == 36 witness seq(36, _ => '0')

  /** SHA-256 over record bytes and over page text. */
  type Hash = Bytes -> Digest
  type Seal = string -> Digest

  datatype Record = Record(id: Digest, bytes: Bytes)

  datatype Item = Item(recordId: Digest, index: nat, count: nat, totalBytes: nat, sha256: Digest, data: string)

  datatype Page = Page(version: Uuid, items: seq<Item>)

  /** A finished part and the page its text says. */
  datatype Part = Part(ordinal: nat, sha256: Digest, bytes: nat, page: Page)

  // ---------------------------------------------------------------- JSON text

  function Digits(n: nat): (s: string)
    ensures |s| >= 1
  {
    if n < 10 then [(48 + n) as char] else Digits(n / 10) + [(48 + n % 10) as char]
  }

  function Render(item: Item): string {
    "{\"recordId\":\"" + item.recordId + "\",\"index\":" + Digits(item.index) + ",\"count\":" + Digits(item.count)
    + ",\"totalBytes\":" + Digits(item.totalBytes) + ",\"sha256\":\"" + item.sha256 + "\",\"data\":\"" + item.data
    + "\"}"
  }

  function RenderAll(items: seq<Item>): string {
    if items == [] then ""
    else if |items| == 1 then Render(items[0])
    else RenderAll(items[..|items| - 1]) + "," + Render(items[|items| - 1])
  }

  function PageText(page: Page): string {
    "{\"format\":\"atlas-record-page-v2\",\"namespaceVersionId\":\"" + page.version + "\",\"records\":["
    + RenderAll(page.items) + "]}"
  }

  /** Adding an item adds its text, and a comma unless it is the first. */
  lemma PageTextGrows(page: Page, item: Item)
    ensures |PageText(page.(items := page.items + [item]))|
      == |PageText(page)| + |Render(item)| + if page.items == [] then 0 else 1
  {
    var more := page.items + [item];
    assert more[..|more| - 1] == page.items && more[|more| - 1] == item;
  }

  lemma EmptyPageText(version: Uuid)
    ensures |PageText(Page(version, []))| == 106
  {
  }

  function Power(k: nat): nat { if k == 0 then 1 else 10 * Power(k - 1) }

  lemma {:induction false} DigitsShort(n: nat, k: nat)
    requires k >= 1 && n < Power(k)
    ensures |Digits(n)| <= k
    decreases k
  {
    if n >= 10 {
      assert k > 1;
      DigitsShort(n / 10, k - 1);
    }
  }

  // ---------------------------------------------------------------- fragments

  function Count(bytes: Bytes): nat {
    (|bytes| + FRAGMENT_BYTES - 1) / FRAGMENT_BYTES
  }

  function Edge(bytes: Bytes, index: nat): (e: nat)
    ensures e <= |bytes|
  {
    if index * FRAGMENT_BYTES <= |bytes| then index * FRAGMENT_BYTES else |bytes|
  }

  function Fragment(bytes: Bytes, index: nat): Bytes {
    assert Edge(bytes, index) <= Edge(bytes, index + 1);
    bytes[Edge(bytes, index)..Edge(bytes, index + 1)]
  }

  function ItemAt(hash: Hash, r: Record, index: nat): Item {
    Item(r.id, index, Count(r.bytes), |r.bytes|, hash(r.bytes), Encode(Fragment(r.bytes, index)))
  }

  /** The first items of a record. */
  function ItemsOf(hash: Hash, r: Record, upto: nat): (items: seq<Item>)
    ensures |items| == upto
    ensures forall i :: 0 <= i < upto ==> items[i] == ItemAt(hash, r, i)
  {
    if upto == 0 then [] else ItemsOf(hash, r, upto - 1) + [ItemAt(hash, r, upto - 1)]
  }

  /** Every record's items, once each, in order. */
  function AllItems(hash: Hash, records: seq<Record>): seq<Item> {
    if records == [] then []
    else
      var r := records[|records| - 1];
      AllItems(hash, records[..|records| - 1]) + ItemsOf(hash, r, Count(r.bytes))
  }

  /** An item never exceeds what an empty page has room for. */
  lemma ItemFits(hash: Hash, r: Record, index: nat)
    requires |r.bytes| <= ENCODED_RECORD_BYTES && index < Count(r.bytes)
    ensures |Render(ItemAt(hash, r, index))| + 106 <= PART_BYTES
  {
    DigitsShort(index, 1);
    DigitsShort(Count(r.bytes), 1);
    assert Power(7) == 10 * (10 * (10 * (10 * (10 * (10 * 10)))));
    DigitsShort(|r.bytes|, 7);
    var f := Fragment(r.bytes, index);
    assert |f| <= FRAGMENT_BYTES;
    assert |Encode(f)| <= 245760;
    RenderLength(ItemAt(hash, r, index));
  }

  lemma RenderLength(item: Item)
    ensures |Render(item)|
      == 197 + |Digits(item.index)| + |Digits(item.count)| + |Digits(item.totalBytes)| + |item.data|
  {
  }

  // ---------------------------------------------------------------- parts

  /** What the parts hold, in order. */
  function Held(parts: seq<Part>): seq<Item> {
    if parts == [] then [] else Held(parts[..|parts| - 1]) + parts[|parts| - 1].page.items
  }

  predicate GoodPart(seal: Seal, version: Uuid, p: Part, ordinal: nat) {
    p.ordinal == ordinal && p.page.version == version && 0 < |p.page.items| <= MOST_ITEMS
    && p.bytes == |PageText(p.page)| <= PART_BYTES && p.sha256 == seal(PageText(p.page))
  }

  predicate GoodParts(seal: Seal, version: Uuid, parts: seq<Part>) {
    |parts| <= MOST_PARTS && forall i :: 0 <= i < |parts| ==> GoodPart(seal, version, parts[i], i)
  }

  predicate GoodPage(version: Uuid, page: Page, bytes: nat) {
    page.version == version && |page.items| <= MOST_ITEMS && bytes == |PageText(page)| <= PART_BYTES
  }

  lemma HeldGrows(parts: seq<Part>, p: Part)
    ensures Held(parts + [p]) == Held(parts) + p.page.items
  {
    assert (parts + [p])[..|parts|] == parts;
  }

  lemma AllItemsGrow(hash: Hash, records: seq<Record>, k: nat)
    requires k < |records|
    ensures AllItems(hash, records[..k + 1])
      == AllItems(hash, records[..k]) + ItemsOf(hash, records[k], Count(records[k].bytes))
  {
    assert records[..k + 1][..k] == records[..k];
  }

  // ---------------------------------------------------------------- key order

  /** In the order of the spool's keys. */
  predicate Sorted(records: seq<Record>) {
    forall i, j :: 0 <= i < j < |records| ==> StringBefore(records[i].id, records[j].id)
  }

  /** The records whose key is past the cursor. */
  function Rest(records: seq<Record>, after: Option<Digest>): seq<Record> {
    if records == [] then []
    else if after.None? || StringBefore(after.value, records[0].id) then [records[0]] + Rest(records[1..], after)
    else Rest(records[1..], after)
  }

  /** The cursor that has passed the first k records. */
  function Cursor(records: seq<Record>, k: nat): Option<Digest>
    requires k <= |records|
  {
    if k == 0 then None else Some(records[k - 1].id)
  }

  lemma {:induction false} RestAll(records: seq<Record>, after: Option<Digest>)
    requires forall i :: 0 <= i < |records| ==> (after.None? || StringBefore(after.value, records[i].id))
    ensures Rest(records, after) == records
    decreases |records|
  {
    if records != [] {
      RestAll(records[1..], after);
    }
  }

  /** Reading on from a cursor gives exactly the records not yet passed. */
  lemma {:induction false} RestOfCursor(records: seq<Record>, after: Option<Digest>, k: nat)
    requires Sorted(records) && k <= |records| && after == Cursor(records, k)
    ensures Rest(records, after) == records[k..]
    decreases |records|
  {
    if k == 0 {
      RestAll(records, after);
    } else if k == 1 {
      StringsOrdered(records[0].id, records[0].id);
      RestAll(records[1..], after);
    } else {
      StringsOrdered(records[0].id, records[k - 1].id);
      RestOfCursor(records[1..], after, k - 1);
    }
  }
}
