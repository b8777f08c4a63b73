/** The way back: runtime/backup-v2-restore.ts puts a record together from the fragments its metadata names. */
module Unpacking {
  import opened Collections
  import opened Base64
  import opened PackModel

  const MOST_FRAGMENTS: nat := 8

  datatype Place = Place(sha256: Digest, index: nat)

  datatype RecordMeta = RecordMeta(recordId: Digest, totalBytes: nat, sha256: Digest, fragments: seq<Place>)

  datatype Fault = RecordInvalid | PartMissing | FragmentIdentity | FragmentLength | RecordDigest

  datatype Outcome = Restored(bytes: Bytes) | Failed(fault: Fault)

  /** The downloaded parts by digest. */
  type Store = map<Digest, Page>

  predicate MetaValid(meta: RecordMeta) {
    1 <= meta.totalBytes <= ENCODED_RECORD_BYTES && 1 <= |meta.fragments| <= MOST_FRAGMENTS
  }

  /** The bytes of one named fragment. */
  function Piece(meta: RecordMeta, store: Store, index: nat, offset: nat): Outcome
    requires index < |meta.fragments|
  {
    var place := meta.fragments[index];
    if place.sha256 !in store then Failed(PartMissing)
    else if place.index >= |store[place.sha256].items| then Failed(FragmentIdentity)
    else
      var f := store[place.sha256].items[place.index];
      if f.recordId != meta.recordId || f.index != index || f.count != |meta.fragments|
         || f.totalBytes != meta.totalBytes || f.sha256 != meta.sha256
      then Failed(FragmentIdentity)
      else
        var raw := Decode(f.data);
        if raw.None? || Encode(raw.value) != f.data || offset + |raw.value| > meta.totalBytes
        then Failed(FragmentLength) else Restored(raw.value)
  }

  /** The bytes of the named fragments from one on. */
  function Pieces(meta: RecordMeta, store: Store, index: nat, offset: nat): (r: Outcome)
    requires index <= |meta.fragments| && offset <= meta.totalBytes
    ensures r.Restored? ==> offset + |r.bytes| <= meta.totalBytes
    decreases |meta.fragments| - index
  {
    if index == |meta.fragments| then Restored([])
    else
      var p := Piece(meta, store, index, offset);
      if p.Failed? then p
      else
        PieceBounded(meta, store, index, offset);
        var more := Pieces(meta, store, index + 1, offset + |p.bytes|);
        if more.Failed? then more else Restored(p.bytes + more.bytes)
  }

  function Assembled(hash: Hash, meta: RecordMeta, store: Store): Outcome {
    if !MetaValid(meta) then Failed(RecordInvalid)
    else
      var all := Pieces(meta, store, 0, 0);
      if all.Failed? then all
      else if |all.bytes| != meta.totalBytes || hash(all.bytes) != meta.sha256 then Failed(RecordDigest)
      else all
  }

  /** Copies a fragment into the record's buffer. */
  method Copy(bytes: array<Byte>, start: nat, raw: Bytes) returns (offset: nat)
    requires start + |raw| <= bytes.Length
    modifies bytes
    ensures offset == start + |raw| && bytes[..offset] == old(bytes[..start]) + raw
  {
    offset := start;
    var j := 0;
    while j < |raw|
      invariant 0 <= j <= |raw| && offset == start + j && bytes[..offset] == old(bytes[..start]) + raw[..j]
    {
      bytes[offset] := raw[j];
      assert bytes[..offset + 1] == bytes[..offset] + [raw[j]];
      assert raw[..j + 1] == raw[..j] + [raw[j]];
      offset := offset + 1;
      j := j + 1;
    }
    assert raw[..|raw|] == raw;
  }

  /** The checks on one named fragment. */
  method ReadPiece(meta: RecordMeta, store: Store, index: nat, offset: nat) returns (r: Outcome)
    requires index < |meta.fragments|
    ensures r == Piece(meta, store, index, offset)
  {
    hide Encode, Decode;
    var place := meta.fragments[index];
    if place.sha256 !in store { return Failed(PartMissing); }
    var page := store[place.sha256];
    if place.index >= |page.items| { return Failed(FragmentIdentity); }
    var fragment := page.items[place.index];
    if fragment.recordId != meta.recordId || fragment.index != index || fragment.count != |meta.fragments|
       || fragment.totalBytes != meta.totalBytes || fragment.sha256 != meta.sha256
    {
      return Failed(FragmentIdentity);
    }
    var raw := Decode(fragment.data);
    if raw.None? || Encode(raw.value) != fragment.data || offset + |raw.value| > meta.totalBytes {
      return Failed(FragmentLength);
    }
    return Restored(raw.value);
  }

  /** Fills the record's buffer fragment by fragment, byte by byte. */
  method Assemble(hash: Hash, meta: RecordMeta, store: Store) returns (r: Outcome)
    ensures r == Assembled(hash, meta, store)
  {
    hide Pieces, Piece;
    if !MetaValid(meta) { return Failed(RecordInvalid); }
    var bytes := new Byte[meta.totalBytes];
    var offset := 0;
    var index := 0;
    ghost var all := Pieces(meta, store, 0, 0);
    assert all.Restored? ==> bytes[..0] + all.bytes == all.bytes;
    while index < |meta.fragments|
      invariant 0 <= index <= |meta.fragments| && 0 <= offset <= bytes.Length
      invariant all == After(bytes[..offset], Pieces(meta, store, index, offset))
    {
      PiecesStep(meta, store, index, offset, bytes[..offset]);
      var piece := ReadPiece(meta, store, index, offset);
      if piece.Failed? { return piece; }
      offset := Copy(bytes, offset, piece.bytes);
      index := index + 1;
    }
    PiecesEnd(meta, store, offset);
    assert bytes[..offset] + [] == bytes[..offset];
    if offset != bytes.Length { return Failed(RecordDigest); }
    assert bytes[..offset] == bytes[..];
    if hash(bytes[..]) != meta.sha256 { return Failed(RecordDigest); }
    return Restored(bytes[..]);
  }

  /** Bytes already assembled, before what is left to assemble. */
  function After(before: Bytes, more: Outcome): Outcome {
    if more.Failed? then more else Restored(before + more.bytes)
  }

  lemma PiecesEnd(meta: RecordMeta, store: Store, offset: nat)
    requires offset <= meta.totalBytes
    ensures Pieces(meta, store, |meta.fragments|, offset) == Restored([])
  {
  }

  lemma PieceBounded(meta: RecordMeta, store: Store, index: nat, offset: nat)
    requires index < |meta.fragments|
    ensures var p := Piece(meta, store, index, offset);
      p.Restored? ==> offset + |p.bytes| <= meta.totalBytes
  {
  }

  lemma PiecesStep(meta: RecordMeta, store: Store, index: nat, offset: nat, before: Bytes)
    requires index < |meta.fragments| && offset <= meta.totalBytes
    ensures var p := Piece(meta, store, index, offset);
      if p.Failed? then After(before, Pieces(meta, store, index, offset)) == p
      else offset + |p.bytes| <= meta.totalBytes
           && After(before, Pieces(meta, store, index, offset))
              == After(before + p.bytes, Pieces(meta, store, index + 1, offset + |p.bytes|))
  {
    hide Piece;
    PieceBounded(meta, store, index, offset);
    var p := Piece(meta, store, index, offset);
    if p.Restored? {
      var more := Pieces(meta, store, index + 1, offset + |p.bytes|);
      assert more.Restored? ==> before + (p.bytes + more.bytes) == before + p.bytes + more.bytes;
    }
  }

  // ---------------------------------------------------------------- what packing wrote is read back

  /** The metadata of a record names, in order, places where its items are. */
  predicate Names(hash: Hash, r: Record, meta: RecordMeta, store: Store) {
    meta.recordId == r.id && meta.totalBytes == |r.bytes| && meta.sha256 == hash(r.bytes)
    && |meta.fragments| == Count(r.bytes)
    && forall j :: 0 <= j < |meta.fragments| ==> Located(store, meta.fragments[j], ItemAt(hash, r, j))
  }

  predicate Located(store: Store, place: Place, item: Item) {
    place.sha256 in store && place.index < |store[place.sha256].items| && store[place.sha256].items[place.index] == item
  }

  lemma PieceRestores(hash: Hash, r: Record, meta: RecordMeta, store: Store, index: nat)
    requires Names(hash, r, meta, store) && index < Count(r.bytes)
    ensures var at := Edge(r.bytes, index);
      Piece(meta, store, index, at) == Restored(Fragment(r.bytes, index))
      && at + |Fragment(r.bytes, index)| == Edge(r.bytes, index + 1)
  {
    hide Encode, Decode;
    assert Located(store, meta.fragments[index], ItemAt(hash, r, index));
    RoundTrip(Fragment(r.bytes, index));
  }

  lemma {:induction false} PiecesRestore(hash: Hash, r: Record, meta: RecordMeta, store: Store, index: nat)
    requires Names(hash, r, meta, store) && index <= Count(r.bytes)
    ensures Pieces(meta, store, index, Edge(r.bytes, index)) == Restored(r.bytes[Edge(r.bytes, index)..])
    decreases Count(r.bytes) - index
  {
    hide Piece;
    var at := Edge(r.bytes, index);
    if index == Count(r.bytes) {
      assert at == |r.bytes|;
    } else {
      PieceRestores(hash, r, meta, store, index);
      PiecesRestore(hash, r, meta, store, index + 1);
      assert r.bytes[at..] == Fragment(r.bytes, index) + r.bytes[Edge(r.bytes, index + 1)..];
    }
  }

  /** Reassembly returns the original bytes of every packed record that has any. */
  lemma ReassemblyIsExact(hash: Hash, r: Record, meta: RecordMeta, store: Store)
    requires Names(hash, r, meta, store) && |r.bytes| <= ENCODED_RECORD_BYTES
    ensures Assembled(hash, meta, store) == if r.bytes == [] then Failed(RecordInvalid) else Restored(r.bytes)
  {
    hide Piece, Pieces;
    if r.bytes != [] {
      PiecesRestore(hash, r, meta, store, 0);
      assert r.bytes[0..] == r.bytes;
    }
  }

  /** The named place holds fragment j of the record the metadata is about. */
  predicate Holds(meta: RecordMeta, store: Store, place: Place, j: nat) {
    place.sha256 in store && place.index < |store[place.sha256].items|
    && var item := store[place.sha256].items[place.index];
      item.recordId == meta.recordId && item.index == j && item.count == |meta.fragments|
      && item.totalBytes == meta.totalBytes && item.sha256 == meta.sha256
  }

  /** Whatever reassembly accepts has the promised length and digest, from fragments of that record in order. */
  lemma ReassemblyIsSound(hash: Hash, meta: RecordMeta, store: Store)
    requires Assembled(hash, meta, store).Restored?
    ensures var bytes := Assembled(hash, meta, store).bytes;
      |bytes| == meta.totalBytes && hash(bytes) == meta.sha256
    ensures forall j :: 0 <= j < |meta.fragments| ==> Holds(meta, store, meta.fragments[j], j)
  {
    hide Piece, Pieces;
    PiecesHeld(meta, store, 0, 0);
  }

  lemma PieceHeld(meta: RecordMeta, store: Store, index: nat, offset: nat)
    requires index < |meta.fragments| && Piece(meta, store, index, offset).Restored?
    ensures Holds(meta, store, meta.fragments[index], index)
  {
    hide Encode, Decode;
  }

  lemma {:induction false} PiecesHeld(meta: RecordMeta, store: Store, index: nat, offset: nat)
    requires index <= |meta.fragments| && offset <= meta.totalBytes && Pieces(meta, store, index, offset).Restored?
    ensures forall j :: index <= j < |meta.fragments| ==> Holds(meta, store, meta.fragments[j], j)
    decreases |meta.fragments| - index
  {
    hide Piece;
    if index < |meta.fragments| {
      PieceBounded(meta, store, index, offset);
      PieceHeld(meta, store, index, offset);
      PiecesHeld(meta, store, index + 1, offset + |Piece(meta, store, index, offset).bytes|);
    }
  }

  // ---------------------------------------------------------------- every item is somewhere

  /** The parts as downloads: each under its own digest. */
  predicate Downloaded(parts: seq<Part>, store: Store) {
    forall i :: 0 <= i < |parts| ==> parts[i].sha256 in store && store[parts[i].sha256] == parts[i].page
  }

  lemma {:induction false} HeldLocated(parts: seq<Part>, store: Store, n: nat) returns (place: Place)
    requires Downloaded(parts, store) && n < |Held(parts)|
    ensures Located(store, place, Held(parts)[n])
    decreases |parts|
  {
    var init := parts[..|parts| - 1];
    var last := parts[|parts| - 1];
    if n < |Held(init)| {
      place := HeldLocated(init, store, n);
    } else {
      place := Place(last.sha256, n - |Held(init)|);
      assert store[last.sha256] == last.page;
    }
  }

  lemma {:induction false} ItemHeld(hash: Hash, records: seq<Record>, k: nat, j: nat) returns (n: nat)
    requires k < |records| && j < Count(records[k].bytes)
    ensures n < |AllItems(hash, records)| && AllItems(hash, records)[n] == ItemAt(hash, records[k], j)
    decreases |records|
  {
    var last := |records| - 1;
    if k < last {
      n := ItemHeld(hash, records[..last], k, j);
    } else {
      n := |AllItems(hash, records[..last])| + j;
    }
  }

  /** The places of a record's first items. */
  lemma {:induction false} PlacesOf(hash: Hash, records: seq<Record>, parts: seq<Part>, store: Store, k: nat, upto: nat)
    returns (places: seq<Place>)
    requires Downloaded(parts, store) && Held(parts) == AllItems(hash, records)
    requires k < |records| && upto <= Count(records[k].bytes)
    ensures |places| == upto
    ensures forall j :: 0 <= j < upto ==> Located(store, places[j], ItemAt(hash, records[k], j))
    decreases upto
  {
    if upto == 0 {
      places := [];
    } else {
      places := PlacesOf(hash, records, parts, store, k, upto - 1);
      var n := ItemHeld(hash, records, k, upto - 1);
      var place := HeldLocated(parts, store, n);
      places := places + [place];
    }
  }

  /** From the finished parts every record with bytes can be named and is restored exactly. */
  lemma PackedRecordsRestore(hash: Hash, records: seq<Record>, parts: seq<Part>, store: Store, k: nat)
    requires Downloaded(parts, store) && Held(parts) == AllItems(hash, records) && k < |records|
    requires 0 < |records[k].bytes| <= ENCODED_RECORD_BYTES
    ensures exists meta ::
              Names(hash, records[k], meta, store) && Assembled(hash, meta, store) == Restored(records[k].bytes)
  {
    var r := records[k];
    var places := PlacesOf(hash, records, parts, store, k, Count(r.bytes));
    var meta := RecordMeta(r.id, |r.bytes|, hash(r.bytes), places);
    assert Names(hash, r, meta, store);
    ReassemblyIsExact(hash, r, meta, store);
  }
}
