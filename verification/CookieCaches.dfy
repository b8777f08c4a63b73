/** The read side of runtime/local-cookie-jar-v2.ts: cached partitions, cached header views and the tokens that keep
    an overtaken read from being cached. Every method is one turn of the event loop; between turns other documents
    commit, and their notifications arrive later. */
module CookieCaches {
  import opened Collections
  import opened CookieViews
  import opened Recency

  const MAX_CACHED_PARTITIONS: nat := 64
  const MAX_CACHED_PARTITION_BYTES: nat := 8 * 1024 * 1024
  const MAX_CACHED_VIEWS: nat := 256
  const MAX_CACHED_VIEW_BYTES: nat := 1024 * 1024
  const MAX_SITE_TOKENS: nat := 128

  type Site(!new, ==) = string
  type Key(!new, ==) = string

  /** A stored cookie: what is shown of it, and what only matching looks at. */
  datatype Row = Row(entry: Entry, hidden: string)

  type Rows = map<Id, Row>

  predicate KeyedRows(rows: Rows) { forall id :: id in rows ==> rows[id].entry.id == id }

  /** `serial` stands for the identity of the object. */
  datatype Partition = Partition(cookies: Rows, revision: nat, serial: nat)

  datatype View = View(value: string, revision: nat, expiresAt: Option<Time>)

  datatype CachedView = CachedView(view: View, bytes: nat, at: Time)

  /** A request to the database for a site's rows, shared by the reads that wait for it. */
  datatype Pending = Pending(site: Site, epoch: nat, token: nat, id: nat)

  /** What a key says of its request: its site, and which cookies it may see apart from their expiry. */
  datatype World = World(siteOf: Key -> Site, visible: (Row, Key) -> bool, cacheBytes: Row -> nat)

  function Selected(world: World, rows: Rows, key: Key, now: Time): Entries {
    map id | id in rows && !Gone(rows[id].entry, now) && world.visible(rows[id], key) :: rows[id].entry
  }

  /** The view a plain filter, sort and join of the rows gives. */
  ghost predicate ViewOf(world: World, v: View, rows: Rows, key: Key, now: Time) {
    v.value == Text(Selected(world, rows, key, now)) && Earliest(v.expiresAt, Selected(world, rows, key, now))
  }

  /** A view stays right until its expiry. */
  lemma ViewLasts(world: World, v: View, rows: Rows, key: Key, at: Time, now: Time)
    requires at <= now && ViewOf(world, v, rows, key, at) && (v.expiresAt.Some? ==> now < v.expiresAt.value)
    ensures ViewOf(world, v, rows, key, now)
  {
    var then', now' := Selected(world, rows, key, at), Selected(world, rows, key, now);
    forall id
      ensures id in then' <==> id in now'
    {
      if id in then' { assert then'[id] == rows[id].entry; }
    }
    assert then' == now';
  }

  function PartitionBytes(p: (Partition, nat)): nat { p.1 }
  function ViewBytes(v: CachedView): nat { v.bytes }

  ghost function RowsBytes(world: World, rows: Rows): nat { Total(rows, world.cacheBytes) }

  /** Tokens handed out before `next` that are not in use cannot come into use again. */
  ghost predicate OnlyFresh(before: seq<Item<Site, nat>>, next: nat, after: seq<Item<Site, nat>>) {
    forall site, t :: t < next && Find(after, site) == Some(t) ==> Find(before, site) == Some(t)
  }

  /** What a turn of the event loop does. */
  datatype Call =
    | Heard(changed: Option<Site>)
    | Reading(site: Site)
    | Answered(wait: Pending, cut: Partition)
    | Serving(key: Key)
    | Showing(key: Key, partition: Partition, size: nat)
    | Committing(site: Site, rows: Rows)
    | Ticking(now: Time)
    | Cutting(wait: Pending, revision: nat)

  class CookieCaches {
    const world: World
    // What the database holds, and the sites with a commit this document has not been told of.
    var stored: map<Site, Rows>
    ghost var unheard: set<Site>
    var clock: Time
    // The database's answers to pending requests, on their way.
    var cuts: map<nat, (Pending, Partition)>

    var cacheEpoch: nat
    var serials: nat
    var tokens: nat
    var partitions: seq<Item<Site, (Partition, nat)>>
    var partitionBytes: int
    var headerViews: seq<Item<Key, CachedView>>
    var headerViewBytes: int
    var lastHeaderViewKey: Option<Key>
    var siteTokens: seq<Item<Site, nat>>
    var partitionReads: map<Site, Pending>

    function RowsOf(site: Site): Rows
      reads this
    {
      if site in stored then stored[site] else map[]
    }

    /** These rows are the stored ones, or there is news to come. */
    ghost predicate Current(site: Site, rows: Rows)
      reads this
    {
      site in unheard || rows == RowsOf(site)
    }

    /** A read with this epoch and token may be cached. */
    predicate Unfenced(site: Site, epoch: nat, token: nat)
      reads this
    {
      epoch == cacheEpoch && Find(siteTokens, site) == Some(token)
    }

    ghost predicate Bounded()
      reads this
    {
      Once(partitions) && partitionBytes == Weight(partitions, PartitionBytes)
      && |partitions| <= MAX_CACHED_PARTITIONS && partitionBytes <= MAX_CACHED_PARTITION_BYTES
      && Once(headerViews) && headerViewBytes == Weight(headerViews, ViewBytes)
      && |headerViews| <= MAX_CACHED_VIEWS && headerViewBytes <= MAX_CACHED_VIEW_BYTES
      && Once(siteTokens) && |siteTokens| <= MAX_SITE_TOKENS
    }

    ghost predicate Fenced()
      reads this
    {
      (forall site :: Find(siteTokens, site).Some? ==> tokens > Find(siteTokens, site).value)
      && (forall site :: site in partitionReads ==> partitionReads[site].site == site)
      && (forall id :: id in cuts ==>
            cuts[id].0.token < tokens && cuts[id].0.epoch <= cacheEpoch
            && (Unfenced(cuts[id].0.site, cuts[id].0.epoch, cuts[id].0.token) ==>
                  Current(cuts[id].0.site, cuts[id].1.cookies)))
    }

    ghost predicate Accurate()
      reads this
    {
      (forall site :: Find(partitions, site).Some? ==> Current(site, Find(partitions, site).value.0.cookies))
      && (forall key :: Find(headerViews, key).Some? ==>
            var c := Find(headerViews, key).value;
            c.at <= clock && (world.siteOf(key) in unheard
                              || ViewOf(world, c.view, RowsOf(world.siteOf(key)), key, c.at)))
      && (lastHeaderViewKey.Some? ==> headerViews != [] && headerViews[|headerViews| - 1].key == lastHeaderViewKey.value)
    }

    ghost predicate StoredKeyed()
      reads this
    {
      forall site :: site in stored ==> KeyedRows(stored[site])
    }

    ghost predicate Valid()
      reads this
    {
      Bounded() && Fenced() && Accurate() && StoredKeyed()
    }

    constructor (world: World, stored: map<Site, Rows>, clock: Time)
      requires forall site :: site in stored ==> KeyedRows(stored[site])
      ensures Valid() && this.world == world && this.stored == stored && this.clock == clock
    {
      this.world, this.stored, this.clock, unheard, cuts := world, stored, clock, {}, map[];
      cacheEpoch, serials, tokens, partitions, partitionBytes := 0, 0, 0, [], 0;
      headerViews, headerViewBytes, lastHeaderViewKey, siteTokens, partitionReads := [], 0, None, [], map[];
    }

    // -------------------------------------------------------------- other documents

    /** Another transaction commits; this document hears of it later. */
    method Commit(site: Site, rows: Rows)
      requires Valid() && KeyedRows(rows)
      modifies this`stored, this`unheard
      ensures Valid() && stored == old(stored)[site := rows] && unheard == old(unheard) + {site}
    {
      stored := stored[site := rows];
      unheard := unheard + {site};
    }

    /** Time passes. */
    method Tick(now: Time)
      requires Valid() && clock <= now
      modifies this`clock
      ensures Valid() && clock == now
    {
      clock := now;
    }

    // -------------------------------------------------------------- single caches

    method DropPartition(site: Site)
      requires Bounded()
      modifies this`partitions, this`partitionBytes
      ensures Bounded() && partitions == Without(old(partitions), site)
    {
      WithoutWeighs(partitions, site, PartitionBytes);
      WithoutOnce(partitions, site);
      var prior := Find(partitions, site);
      if prior.Some? { partitionBytes := partitionBytes - prior.value.1; }
      partitions := Without(partitions, site);
    }

    method DropView(key: Key)
      requires Bounded()
      modifies this`headerViews, this`headerViewBytes, this`lastHeaderViewKey
      ensures Bounded() && headerViews == Without(old(headerViews), key)
      ensures lastHeaderViewKey == if old(lastHeaderViewKey) == Some(key) then None else old(lastHeaderViewKey)
    {
      WithoutWeighs(headerViews, key, ViewBytes);
      WithoutOnce(headerViews, key);
      var prior := Find(headerViews, key);
      if prior.Some? { headerViewBytes := headerViewBytes - prior.value.bytes; }
      headerViews := Without(headerViews, key);
      if lastHeaderViewKey == Some(key) { lastHeaderViewKey := None; }
    }

    // -------------------------------------------------------------- tokens

    /** The token of a site, made most recent; the oldest sites make room, and lose what they had cached. */
    method SiteToken(site: Site) returns (token: nat)
      requires Valid()
      modifies this`siteTokens, this`tokens, this`partitions, this`partitionBytes, this`partitionReads
      ensures Valid() && Find(siteTokens, site) == Some(token) && token < tokens
      ensures tokens >= old(tokens) && OnlyFresh(old(siteTokens), old(tokens), siteTokens)
      ensures forall s :: Find(partitions, s).Some? ==> Find(partitions, s) == Find(old(partitions), s)
      ensures forall s :: s in partitionReads ==> s in old(partitionReads) && partitionReads[s] == old(partitionReads)[s]
      ensures Find(old(siteTokens), site).Some? ==>
        Find(old(siteTokens), site) == Some(token) && tokens == old(tokens)
        && siteTokens == Renewed(old(siteTokens), site, token)
        && partitions == old(partitions) && partitionReads == old(partitionReads)
      ensures Find(old(siteTokens), site).None? ==>
        token == old(tokens)
        && if |old(siteTokens)| < MAX_SITE_TOKENS
           then siteTokens == old(siteTokens) + [Item(site, token)] && partitions == old(partitions)
                && partitionReads == old(partitionReads)
           else siteTokens == old(siteTokens)[1..] + [Item(site, token)]
                && partitions == Without(old(partitions), old(siteTokens)[0].key)
                && partitionReads == old(partitionReads) - {old(siteTokens)[0].key}
    {
      hide Valid, Once, Weight, Find, Without, Renewed;
      var prior := Find(siteTokens, site);
      if prior.Some? {
        RenewToken(site, prior.value);
        return prior.value;
      }
      MakeTokenRoom(site);
      token := AddToken(site);
    }

    method RenewToken(site: Site, token: nat)
      requires Valid() && Find(siteTokens, site) == Some(token)
      modifies this`siteTokens
      ensures Valid() && Find(siteTokens, site) == Some(token) && token < tokens
      ensures siteTokens == Renewed(old(siteTokens), site, token) && OnlyFresh(old(siteTokens), tokens, siteTokens)
    {
      hide Once, Weight, Find, Without, ViewOf, KeyedRows, Renewed;
      RenewedIs(siteTokens, site, token, Tell);
      siteTokens := Renewed(siteTokens, site, token);
    }

    method AddToken(site: Site) returns (token: nat)
      requires Valid() && |siteTokens| < MAX_SITE_TOKENS && Find(siteTokens, site) == None
      modifies this`siteTokens, this`tokens
      ensures Valid() && Find(siteTokens, site) == Some(token) && token == old(tokens) < tokens
      ensures siteTokens == old(siteTokens) + [Item(site, token)]
      ensures forall s :: s != site ==> Find(siteTokens, s) == Find(old(siteTokens), s)
    {
      hide Once, Weight, Find, Without, ViewOf, KeyedRows;
      token := tokens;
      AppendIs(siteTokens, site, token, Tell);
      tokens := tokens + 1;
      siteTokens := siteTokens + [Item(site, token)];
    }

    method MakeTokenRoom(ghost site: Site)
      requires Valid() && Find(siteTokens, site) == None
      modifies this`siteTokens, this`partitions, this`partitionBytes, this`partitionReads
      ensures Valid() && |siteTokens| < MAX_SITE_TOKENS && Find(siteTokens, site) == None
      ensures if |old(siteTokens)| < MAX_SITE_TOKENS
        then siteTokens == old(siteTokens) && partitions == old(partitions) && partitionReads == old(partitionReads)
        else siteTokens == old(siteTokens)[1..] && partitions == Without(old(partitions), old(siteTokens)[0].key)
             && partitionReads == old(partitionReads) - {old(siteTokens)[0].key}
      ensures forall s :: Find(siteTokens, s).Some? ==> Find(siteTokens, s) == Find(old(siteTokens), s)
      ensures forall s :: Find(partitions, s).Some? ==> Find(partitions, s) == Find(old(partitions), s)
      ensures forall s :: s in partitionReads ==> s in old(partitionReads) && partitionReads[s] == old(partitionReads)[s]
    {
      hide Fenced, Accurate, StoredKeyed, Find, Once, Weight, Without;
      while |siteTokens| >= MAX_SITE_TOKENS
        invariant Valid() && Find(siteTokens, site) == None
        invariant |siteTokens| == |old(siteTokens)| ==>
          siteTokens == old(siteTokens) && partitions == old(partitions) && partitionReads == old(partitionReads)
        invariant |siteTokens| < |old(siteTokens)| ==>
          |siteTokens| == MAX_SITE_TOKENS - 1 && |old(siteTokens)| == MAX_SITE_TOKENS
          && siteTokens == old(siteTokens)[1..] && partitions == Without(old(partitions), old(siteTokens)[0].key)
          && partitionReads == old(partitionReads) - {old(siteTokens)[0].key}
        invariant |siteTokens| <= |old(siteTokens)| <= MAX_SITE_TOKENS
        invariant forall s :: Find(siteTokens, s).Some? ==> Find(siteTokens, s) == Find(old(siteTokens), s)
        invariant forall s :: Find(partitions, s).Some? ==> Find(partitions, s) == Find(old(partitions), s)
        invariant forall s :: s in partitionReads ==> s in old(partitionReads) && partitionReads[s] == old(partitionReads)[s]
        decreases |siteTokens|
      {
        ForgetOldest(site);
      }
    }

    /** The least recently used token goes, and its site's partition and pending request with it. */
    method ForgetOldest(ghost site: Site)
      requires Valid() && siteTokens != [] && Find(siteTokens, site) == None
      modifies this`siteTokens, this`partitions, this`partitionBytes, this`partitionReads
      ensures Valid() && Find(siteTokens, site) == None
      ensures siteTokens == old(siteTokens)[1..] && partitions == Without(old(partitions), old(siteTokens)[0].key)
      ensures partitionReads == old(partitionReads) - {old(siteTokens)[0].key}
      ensures forall s :: Find(siteTokens, s).Some? ==> Find(siteTokens, s) == Find(old(siteTokens), s)
      ensures forall s :: Find(partitions, s).Some? ==> Find(partitions, s) == Find(old(partitions), s)
      ensures forall s :: s in partitionReads ==> s in old(partitionReads) && partitionReads[s] == old(partitionReads)[s]
    {
      hide Valid, Find, Without, OnlyFresh;
      var oldest := siteTokens[0].key;
      OldestFound(siteTokens);
      TokensOnce();
      WithoutOldest(siteTokens);
      ForgetPartition(oldest);
      DropToken(oldest);
    }

    lemma TokensOnce()
      requires Valid()
      ensures Once(siteTokens)
    {
    }

    // -------------------------------------------------------------- remembering

    /** The partition is the most recent entry of what was there, without an earlier one of the site and without the
        oldest that had to make room; one that could never fit is not there. */
    ghost predicate PartitionCached(before: seq<Item<Site, (Partition, nat)>>, after: seq<Item<Site, (Partition, nat)>>,
                                    site: Site, cached: Partition)
    {
      var (bytes, others) := (128 + RowsBytes(world, cached.cookies), Without(before, site));
      if bytes > MAX_CACHED_PARTITION_BYTES then after == others
      else
        exists n: nat ::
          MakeRoom(others, n, PartitionBytes, bytes, MAX_CACHED_PARTITIONS, MAX_CACHED_PARTITION_BYTES)
          && after == others[n..] + [Item(site, (cached, bytes))]
    }

    lemma CachedBy(before: seq<Item<Site, (Partition, nat)>>, after: seq<Item<Site, (Partition, nat)>>, n: nat, site: Site,
                   cached: Partition)
      requires var (bytes, others) := (128 + RowsBytes(world, cached.cookies), Without(before, site));
        if bytes > MAX_CACHED_PARTITION_BYTES then after == others
        else MakeRoom(others, n, PartitionBytes, bytes, MAX_CACHED_PARTITIONS, MAX_CACHED_PARTITION_BYTES)
             && after == others[n..] + [Item(site, (cached, bytes))]
      ensures PartitionCached(before, after, site, cached)
    {
      hide MakeRoom, RowsBytes, Without;
    }

    /** Caches a partition, making room for it; one that could never fit is handed back uncached. */
    method RememberPartition(site: Site, partition: Partition) returns (cached: Partition)
      requires Valid() && Current(site, partition.cookies)
      modifies this`partitions, this`partitionBytes, this`serials
      ensures Valid() && cached.cookies == partition.cookies && cached.revision == partition.revision
      ensures PartitionCached(old(partitions), partitions, site, cached)
    {
      hide Valid, Find, MakeRoom, PartitionBytes, PartitionCached, RowsBytes, Without;
      ghost var before := partitions;
      var cacheBytes := MeasurePartition(world, partition.cookies);
      ForgetPartition(site);
      if cacheBytes > MAX_CACHED_PARTITION_BYTES {
        CachedBy(before, partitions, 0, site, partition);
        return partition;
      }
      ghost var n := MakePartitionRoom(site, cacheBytes);
      cached := partition.(serial := serials);
      AddPartition(site, cached, cacheBytes);
      CachedBy(before, partitions, n, site, cached);
    }

    method ForgetPartition(site: Site)
      requires Valid()
      modifies this`partitions, this`partitionBytes
      ensures Valid() && Find(partitions, site) == None && |partitions| <= old(|partitions|)
      ensures partitions == Without(old(partitions), site)
      ensures forall s :: Find(partitions, s).Some? ==> Find(partitions, s) == Find(old(partitions), s)
    {
      hide Once, Weight, Find, Without, ViewOf, KeyedRows;
      WithoutIs(partitions, site, PartitionBytes);
      DropPartition(site);
    }

    method MakePartitionRoom(site: Site, cacheBytes: nat) returns (ghost n: nat)
      requires Valid() && Find(partitions, site) == None && cacheBytes <= MAX_CACHED_PARTITION_BYTES
      modifies this`partitions, this`partitionBytes
      ensures Valid() && Find(partitions, site) == None
      ensures |partitions| < MAX_CACHED_PARTITIONS && partitionBytes + cacheBytes <= MAX_CACHED_PARTITION_BYTES
      ensures MakeRoom(old(partitions), n, PartitionBytes, cacheBytes, MAX_CACHED_PARTITIONS, MAX_CACHED_PARTITION_BYTES)
      ensures partitions == old(partitions)[n..]
    {
      hide Once, Weight, Find, Without, ViewOf, KeyedRows, Accurate, Fenced;
      n := 0;
      while |partitions| >= MAX_CACHED_PARTITIONS || partitionBytes + cacheBytes > MAX_CACHED_PARTITION_BYTES
        invariant Valid() && Find(partitions, site) == None
        invariant n <= |old(partitions)| && partitions == old(partitions)[n..]
        invariant n > 0 ==> !HasRoom(old(partitions)[n - 1..], PartitionBytes, cacheBytes, MAX_CACHED_PARTITIONS,
                                     MAX_CACHED_PARTITION_BYTES)
        decreases |partitions|
      {
        if partitions == [] { NoWeight<Site, (Partition, nat)>(PartitionBytes); }
        DropOldestPartition(site);
        n := n + 1;
      }
    }

    method AddPartition(site: Site, cached: Partition, cacheBytes: nat)
      requires Valid() && Find(partitions, site) == None && Current(site, cached.cookies)
      requires |partitions| < MAX_CACHED_PARTITIONS && partitionBytes + cacheBytes <= MAX_CACHED_PARTITION_BYTES
      modifies this`partitions, this`partitionBytes, this`serials
      ensures Valid() && partitions == old(partitions) + [Item(site, (cached, cacheBytes))]
    {
      hide Once, Weight, Find, ViewOf, KeyedRows;
      serials := serials + 1;
      AppendIs(partitions, site, (cached, cacheBytes), PartitionBytes);
      partitions := partitions + [Item(site, (cached, cacheBytes))];
      partitionBytes := partitionBytes + cacheBytes;
    }

    method DropOldestPartition(ghost site: Site)
      requires Valid() && Find(partitions, site) == None && partitions != []
      modifies this`partitions, this`partitionBytes
      ensures Valid() && Find(partitions, site) == None && partitions == old(partitions)[1..]
    {
      hide Once, Weight, Find, Without, ViewOf, KeyedRows;
      var oldest := partitions[0].key;
      OldestFound(partitions);
      WithoutOldest(partitions);
      WithoutIs(partitions, oldest, PartitionBytes);
      DropPartition(oldest);
    }

    /** Caches a view, making room for it. */
    method RememberView(key: Key, view: View, size: nat, at: Time)
      requires Valid() && at == clock && size <= MAX_CACHED_VIEW_BYTES
      requires world.siteOf(key) in unheard || ViewOf(world, view, RowsOf(world.siteOf(key)), key, at)
      modifies this`headerViews, this`headerViewBytes, this`lastHeaderViewKey
      ensures Valid() && ViewCached(old(headerViews), headerViews, key, CachedView(view, size, at))
    {
      hide Once, Weight, Find, Without, ViewOf, KeyedRows, MakeRoom;
      ForgetView(key);
      ghost var n := MakeViewRoom(key, size);
      AddView(key, view, size, at);
    }

    /** The view is the most recent entry of what was there, without an earlier one for the key and without the oldest that
        had to make room. */
    ghost predicate ViewCached(before: seq<Item<Key, CachedView>>, after: seq<Item<Key, CachedView>>, key: Key,
                               cached: CachedView)
    {
      exists n: nat ::
        MakeRoom(Without(before, key), n, ViewBytes, cached.bytes, MAX_CACHED_VIEWS, MAX_CACHED_VIEW_BYTES)
        && after == Without(before, key)[n..] + [Item(key, cached)]
    }

    method MakeViewRoom(key: Key, size: nat) returns (ghost n: nat)
      requires Valid() && Find(headerViews, key) == None && size <= MAX_CACHED_VIEW_BYTES
      modifies this`headerViews, this`headerViewBytes, this`lastHeaderViewKey
      ensures Valid() && Find(headerViews, key) == None
      ensures |headerViews| < MAX_CACHED_VIEWS && headerViewBytes + size <= MAX_CACHED_VIEW_BYTES
      ensures MakeRoom(old(headerViews), n, ViewBytes, size, MAX_CACHED_VIEWS, MAX_CACHED_VIEW_BYTES)
      ensures headerViews == old(headerViews)[n..]
    {
      hide Once, Weight, Find, Without, ViewOf, KeyedRows, Accurate, Fenced;
      n := 0;
      while |headerViews| >= MAX_CACHED_VIEWS || headerViewBytes + size > MAX_CACHED_VIEW_BYTES
        invariant Valid() && Find(headerViews, key) == None
        invariant n <= |old(headerViews)| && headerViews == old(headerViews)[n..]
        invariant n > 0 ==> !HasRoom(old(headerViews)[n - 1..], ViewBytes, size, MAX_CACHED_VIEWS, MAX_CACHED_VIEW_BYTES)
        decreases |headerViews|
      {
        if headerViews == [] { NoWeight<Key, CachedView>(ViewBytes); }
        DropOldestView(key);
        n := n + 1;
      }
    }

    method DropOldestView(ghost key: Key)
      requires Valid() && Find(headerViews, key) == None && headerViews != []
      modifies this`headerViews, this`headerViewBytes, this`lastHeaderViewKey
      ensures Valid() && Find(headerViews, key) == None && headerViews == old(headerViews)[1..]
    {
      hide Once, Weight, Find, Without, ViewOf, KeyedRows;
      var oldest := headerViews[0].key;
      OldestFound(headerViews);
      WithoutOldest(headerViews);
      WithoutIs(headerViews, oldest, ViewBytes);
      ForgetView(oldest);
    }

    method AddView(key: Key, view: View, size: nat, at: Time)
      requires Valid() && Find(headerViews, key) == None && at == clock
      requires |headerViews| < MAX_CACHED_VIEWS && headerViewBytes + size <= MAX_CACHED_VIEW_BYTES
      requires world.siteOf(key) in unheard || ViewOf(world, view, RowsOf(world.siteOf(key)), key, at)
      modifies this`headerViews, this`headerViewBytes, this`lastHeaderViewKey
      ensures Valid() && headerViews == old(headerViews) + [Item(key, CachedView(view, size, at))]
    {
      hide Once, Weight, Find, Without, ViewOf, KeyedRows;
      var entry := CachedView(view, size, at);
      AppendIs(headerViews, key, entry, ViewBytes);
      headerViews := headerViews + [Item(key, entry)];
      lastHeaderViewKey := Some(key);
      headerViewBytes := headerViewBytes + size;
    }

    method ForgetView(key: Key)
      requires Valid()
      modifies this`headerViews, this`headerViewBytes, this`lastHeaderViewKey
      ensures Valid() && Find(headerViews, key) == None && headerViews == Without(old(headerViews), key)
    {
      hide Once, Weight, Find, Without, ViewOf, KeyedRows;
      WithoutAll(headerViews, key);
      if lastHeaderViewKey.Some? && lastHeaderViewKey.value != key { LastStays(headerViews, key); }
      DropView(key);
    }

    // -------------------------------------------------------------- news

    /** Views of one site go. */
    method DropViewsOf(site: Site)
      requires Valid()
      modifies this`headerViews, this`headerViewBytes, this`lastHeaderViewKey
      ensures Valid()
      ensures forall key :: Find(headerViews, key) == if world.siteOf(key) == site then None else Find(old(headerViews), key)
    {
      hide Valid, Once, Find, Without;
      ghost var start := headerViews;
      var keys := headerViews;
      var i := 0;
      assert keys[..0] == [];
      while i < |keys|
        invariant 0 <= i <= |keys| && Valid()
        invariant forall key :: Find(headerViews, key) == None || Find(headerViews, key) == Find(start, key)
        invariant forall key :: world.siteOf(key) != site ==> Find(headerViews, key) == Find(start, key)
        invariant forall j :: 0 <= j < i && world.siteOf(keys[j].key) == site ==> Find(headerViews, keys[j].key) == None
      {
        if world.siteOf(keys[i].key) == site {
          WithoutAll(headerViews, keys[i].key);
          ForgetView(keys[i].key);
        }
        i := i + 1;
      }
      forall key | world.siteOf(key) == site
        ensures Find(headerViews, key) == None
      {
        if Find(start, key).Some? {
          FoundAt(start, key);
          var j :| 0 <= j < |start| && start[j].key == key;
        }
      }
    }

    /** A commit to a site, or to any site, has been heard of: nothing read before it may be served or cached. */
    method Notify(changed: Option<Site>)
      requires Valid()
      modifies this
      ensures Valid() && stored == old(stored) && clock == old(clock)
      ensures unheard == if changed.Some? then old(unheard) - {changed.value} else {}
      ensures tokens == old(tokens) && cuts == old(cuts) && OnlyFresh(old(siteTokens), old(tokens), siteTokens)
      ensures changed.None? ==> partitions == [] && headerViews == [] && cacheEpoch == old(cacheEpoch) + 1
      ensures changed.Some? ==> cacheEpoch == old(cacheEpoch) && Find(siteTokens, changed.value) == None
                                && Find(partitions, changed.value) == None
      ensures changed.Some? ==> partitions == Without(old(partitions), changed.value)
      ensures changed.Some? ==>
        forall key :: Find(headerViews, key) == if world.siteOf(key) == changed.value then None else Find(old(headerViews), key)
    {
      hide Valid, Find, OnlyFresh;
      if changed.None? {
        ClearAll();
        return;
      }
      var site := changed.value;
      ForgetPartition(site);
      DropToken(site);
      DropViewsOf(site);
      HearOf(site);
    }

    method DropToken(site: Site)
      requires Valid()
      modifies this`siteTokens, this`partitionReads
      ensures Valid() && Find(siteTokens, site) == None && OnlyFresh(old(siteTokens), tokens, siteTokens)
      ensures forall s :: Find(siteTokens, s).Some? ==> Find(siteTokens, s) == Find(old(siteTokens), s)
      ensures partitionReads == old(partitionReads) - {site} && siteTokens == Without(old(siteTokens), site)
      ensures |siteTokens| == old(|siteTokens|) - if Find(old(siteTokens), site).Some? then 1 else 0
    {
      hide Once, Weight, Find, Without, ViewOf, KeyedRows;
      WithoutIs(siteTokens, site, Tell);
      siteTokens := Without(siteTokens, site);
      partitionReads := partitionReads - {site};
    }

    ghost method HearOf(site: Site)
      requires Valid() && Find(partitions, site) == None && Find(siteTokens, site) == None
      requires forall key :: Find(headerViews, key).Some? ==> world.siteOf(key) != site
      modifies this`unheard
      ensures Valid() && unheard == old(unheard) - {site}
    {
      hide Once, Weight, Find, ViewOf, KeyedRows;
      unheard := unheard - {site};
    }

    /** A new epoch: every cache is emptied, and every read under way is overtaken. */
    method ClearAll()
      requires Valid()
      modifies this
      ensures Valid() && stored == old(stored) && clock == old(clock) && unheard == {} && tokens == old(tokens)
      ensures cuts == old(cuts) && partitions == [] && headerViews == [] && cacheEpoch == old(cacheEpoch) + 1
      ensures OnlyFresh(old(siteTokens), old(tokens), siteTokens)
    {
      hide Valid, Find;
      ClearCaches();
      StartEpoch();
    }

    method ClearCaches()
      requires Valid()
      modifies this`partitions, this`partitionBytes, this`headerViews, this`headerViewBytes, this`lastHeaderViewKey
      ensures Valid() && partitions == [] && headerViews == []
    {
      hide Weight, ViewOf, KeyedRows, Find, Once;
      Nothing<Site, (Partition, nat)>(PartitionBytes);
      Nothing<Key, CachedView>(ViewBytes);
      partitions, headerViews, lastHeaderViewKey := [], [], None;
      partitionBytes, headerViewBytes := 0, 0;
    }

    method StartEpoch()
      requires Valid() && partitions == [] && headerViews == []
      modifies this`cacheEpoch, this`partitionReads, this`siteTokens, this`unheard
      ensures Valid() && unheard == {} && cacheEpoch == old(cacheEpoch) + 1
      ensures OnlyFresh(old(siteTokens), tokens, siteTokens)
    {
      hide Weight, ViewOf, KeyedRows, Current, Find, Once;
      Nothing<Site, (Partition, nat)>(PartitionBytes);
      Nothing<Key, CachedView>(ViewBytes);
      Nothing<Site, nat>(Tell);
      cacheEpoch := cacheEpoch + 1;
      partitionReads, siteTokens, unheard := map[], [], {};
    }

    // -------------------------------------------------------------- reads

    /** What is cached, unless its expiry has passed. */
    static function Unexpired(cached: Option<CachedView>, now: Time): Option<View> {
      if cached.None? || (cached.value.view.expiresAt.Some? && cached.value.view.expiresAt.value <= now) then None
      else Some(cached.value.view)
    }

    /** A cached view that has not passed its expiry is served as it is, and becomes the most recent. */
    method ServeView(key: Key, now: Time) returns (view: Option<View>)
      requires Valid() && clock == now
      modifies this`headerViews, this`headerViewBytes, this`lastHeaderViewKey
      ensures Valid()
      ensures view.Some? ==> world.siteOf(key) in unheard || ViewOf(world, view.value, RowsOf(world.siteOf(key)), key, now)
      ensures view == Unexpired(Find(old(headerViews), key), now)
      ensures headerViews == if view.Some? then Renewed(old(headerViews), key, Find(old(headerViews), key).value)
                             else Without(old(headerViews), key)
    {
      hide Once, Weight, Without, ViewOf, KeyedRows, Renewed, MakeRoom;
      if Find(headerViews, key).None? { MissingWithout(headerViews, key); }
      if lastHeaderViewKey == Some(key) { LastRenewed(headerViews, key); }
      var cached := Find(headerViews, key);
      if cached.None? { return None; }
      if cached.value.view.expiresAt.Some? && cached.value.view.expiresAt.value <= now {
        ForgetView(key);
        return None;
      }
      if world.siteOf(key) !in unheard { CachedViewIsExact(key, now); }
      if lastHeaderViewKey != Some(key) { Promote(key, cached.value); }
      return Some(cached.value.view);
    }

    method Promote(key: Key, cached: CachedView)
      requires Valid() && Find(headerViews, key) == Some(cached)
      modifies this`headerViews, this`lastHeaderViewKey
      ensures Valid() && headerViews == Renewed(old(headerViews), key, cached)
    {
      hide Once, Weight, Find, Without, ViewOf, KeyedRows;
      RenewedIs(headerViews, key, cached, ViewBytes);
      headerViews := Renewed(headerViews, key, cached);
      lastHeaderViewKey := Some(key);
    }

    /** The partition a read may use at once, or the request it has to wait for. */
    method StartRead(site: Site) returns (ready: Option<Partition>, wait: Pending)
      requires Valid()
      modifies this
      ensures Valid() && stored == old(stored) && unheard == old(unheard) && clock == old(clock) && cuts == old(cuts)
      ensures cacheEpoch == old(cacheEpoch) && tokens >= old(tokens)
      ensures ready.Some? ==> Current(site, ready.value.cookies)
      ensures ready.None? ==> wait.site == site && Unfenced(site, wait.epoch, wait.token) && wait.token < tokens
                              && site in partitionReads && partitionReads[site] == wait
      ensures Find(old(siteTokens), site).Some? ==>
        ready == (if Find(old(partitions), site).Some? then Some(Find(old(partitions), site).value.0) else None)
        && (ready.None? && site in old(partitionReads)
            && Unfenced(site, old(partitionReads)[site].epoch, old(partitionReads)[site].token) ==>
              wait == old(partitionReads)[site])
      ensures OnlyFresh(old(siteTokens), old(tokens), siteTokens)
    {
      hide Once, Weight, Without, ViewOf, KeyedRows;
      var token := SiteToken(site);
      var cached := Find(partitions, site);
      wait := Pending(site, cacheEpoch, token, serials);
      if cached.Some? {
        RenewPartition(site, cached.value);
        return Some(cached.value.0), wait;
      }
      ready := None;
      if site in partitionReads && partitionReads[site].epoch == cacheEpoch && partitionReads[site].token == token {
        wait := partitionReads[site];
      } else {
        NoteRead(wait);
      }
    }

    method RenewPartition(site: Site, cached: (Partition, nat))
      requires Valid() && Find(partitions, site) == Some(cached)
      modifies this`partitions
      ensures Valid()
    {
      hide Once, Weight, Find, Without, ViewOf, KeyedRows;
      RenewedIs(partitions, site, cached, PartitionBytes);
      partitions := Renewed(partitions, site, cached);
    }

    method NoteRead(wait: Pending)
      requires Valid()
      modifies this`partitionReads, this`serials
      ensures Valid() && partitionReads == old(partitionReads)[wait.site := wait]
    {
      hide Once, Weight, Find, ViewOf, KeyedRows;
      serials := serials + 1;
      partitionReads := partitionReads[wait.site := wait];
    }

    /** The database answers a request, some time after it was made, with what is stored then. */
    method TakeCut(wait: Pending, revision: nat)
      requires Valid() && wait.token < tokens && wait.epoch <= cacheEpoch
      modifies this`cuts
      ensures Valid() && cuts == old(cuts)[wait.id := (wait, Partition(RowsOf(wait.site), revision, wait.id))]
    {
      hide Once, Weight, Find, ViewOf, KeyedRows;
      cuts := cuts[wait.id := (wait, Partition(RowsOf(wait.site), revision, wait.id))];
    }

    /** The answer arrives. It is cached only if no commit to the site was heard of since the request was made. */
    method Resume(wait: Pending, cut: Partition) returns (partition: Partition, remembered: bool)
      requires Valid() && wait.id in cuts && cuts[wait.id] == (wait, cut)
      modifies this`partitions, this`partitionBytes, this`serials, this`partitionReads
      ensures Valid() && partition.cookies == cut.cookies && partition.revision == cut.revision
      ensures remembered <==> Unfenced(wait.site, wait.epoch, wait.token)
      ensures remembered ==> Current(wait.site, cut.cookies)
      ensures if remembered then PartitionCached(old(partitions), partitions, wait.site, partition)
              else partitions == old(partitions)
    {
      hide Once, Weight, Find, ViewOf, KeyedRows, Bounded, Accurate;
      FinishedRead(wait);
      remembered := Unfenced(wait.site, wait.epoch, wait.token);
      partition := cut;
      if remembered { partition := RememberPartition(wait.site, cut); }
    }

    method FinishedRead(wait: Pending)
      requires Valid()
      modifies this`partitionReads
      ensures Valid()
    {
      hide Once, Weight, Find, ViewOf, KeyedRows;
      if wait.site in partitionReads && partitionReads[wait.site] == wait {
        partitionReads := partitionReads - {wait.site};
      }
    }

    /** Filters, sorts and joins a partition for a request, and caches the view while its partition is cached. */
    method BuildView(key: Key, partition: Partition, now: Time, size: nat) returns (view: View)
      requires Valid() && clock == now && KeyedRows(partition.cookies)
      modifies this`headerViews, this`headerViewBytes, this`lastHeaderViewKey
      ensures Valid() && ViewOf(world, view, partition.cookies, key, now) && view.revision == partition.revision
      ensures var cached := Find(partitions, world.siteOf(key));
        if cached.Some? && cached.value.0 == partition && size <= MAX_CACHED_VIEW_BYTES
        then ViewCached(old(headerViews), headerViews, key, CachedView(view, size, now))
        else headerViews == old(headerViews)
    {
      hide Once, Weight, Without, Listing, Text, Joined, Selected;
      var selected := Selected(world, partition.cookies, key, now);
      SelectedKeyed(world, partition.cookies, key, now);
      var ordered := SortEntries(selected);
      TextOf(ordered, selected);
      var value := JoinParts(ordered);
      var expiresAt := FindEarliest(selected);
      view := View(value, partition.revision, expiresAt);
      var site := world.siteOf(key);
      var cached := Find(partitions, site);
      if cached.Some? && cached.value.0 == partition && size <= MAX_CACHED_VIEW_BYTES {
        CacheView(key, view, size, now, partition);
      }
    }

    method CacheView(key: Key, view: View, size: nat, now: Time, ghost partition: Partition)
      requires Valid() && clock == now && size <= MAX_CACHED_VIEW_BYTES
      requires ViewOf(world, view, partition.cookies, key, now)
      requires Find(partitions, world.siteOf(key)).Some? && Find(partitions, world.siteOf(key)).value.0 == partition
      modifies this`headerViews, this`headerViewBytes, this`lastHeaderViewKey
      ensures Valid() && ViewCached(old(headerViews), headerViews, key, CachedView(view, size, now))
    {
      hide Once, Weight, Find, ViewOf, KeyedRows, MakeRoom;
      RememberView(key, view, size, now);
    }

    /** A view that was built over a cached partition and fits the cache is served again, as it was, until its expiry. */
    method ServedAgain(key: Key, partition: Partition, now: Time, size: nat, later: Time)
        returns (view: View, again: Option<View>)
      requires Valid() && clock == now <= later && KeyedRows(partition.cookies) && size <= MAX_CACHED_VIEW_BYTES
      requires Find(partitions, world.siteOf(key)).Some? && Find(partitions, world.siteOf(key)).value.0 == partition
      modifies this
      ensures Valid() && ViewOf(world, view, partition.cookies, key, now)
      ensures again == if view.expiresAt.Some? && view.expiresAt.value <= later then None else Some(view)
    {
      hide ViewOf, KeyedRows, Find, Valid, MakeRoom, Without;
      ghost var before := headerViews;
      view := BuildView(key, partition, now, size);
      CachedIsFound(before, headerViews, key, CachedView(view, size, now));
      Tick(later);
      again := ServeView(key, later);
    }

    lemma CachedIsFound(before: seq<Item<Key, CachedView>>, after: seq<Item<Key, CachedView>>, key: Key, cached: CachedView)
      requires ViewCached(before, after, key, cached) && Valid() && after == headerViews
      ensures Find(after, key) == Some(cached)
    {
      hide Find, Fenced, Accurate, MakeRoom, Without;
      assert after[|after| - 1] == Item(key, cached);
      MemberFound(after, Item(key, cached));
    }

    /** What a cached view is served for, it is right for. */
    lemma CachedViewIsExact(key: Key, now: Time)
      requires Valid() && clock <= now && Find(headerViews, key).Some? && world.siteOf(key) !in unheard
      requires var e := Find(headerViews, key).value.view.expiresAt; e.Some? ==> now < e.value
      ensures ViewOf(world, Find(headerViews, key).value.view, RowsOf(world.siteOf(key)), key, now)
    {
      var c := Find(headerViews, key).value;
      ViewLasts(world, c.view, RowsOf(world.siteOf(key)), key, c.at, now);
    }

    // -------------------------------------------------------------- overtaken reads

    /** The read with this epoch and token may not be cached now, and its token is not one still to be handed out. */
    ghost predicate Overtaken(wait: Pending)
      reads this
    {
      wait.epoch < cacheEpoch || (wait.token < tokens && Find(siteTokens, wait.site) != Some(wait.token))
    }

    /** One turn of the event loop, whatever it is. */
    method Perform(call: Call)
      requires Valid()
      modifies this
      ensures Valid() && cacheEpoch >= old(cacheEpoch) && tokens >= old(tokens)
      ensures OnlyFresh(old(siteTokens), old(tokens), siteTokens)
      ensures forall id :: id in old(cuts) ==> id in cuts && cuts[id] == old(cuts)[id]
    {
      hide Valid, Find;
      match call {
        case Heard(changed) => Notify(changed);
        case Reading(site) => var ready, wait := StartRead(site);
        case Answered(wait, cut) =>
          if wait.id in cuts && cuts[wait.id] == (wait, cut) { var partition, remembered := Resume(wait, cut); }
        case Serving(key) => var view := ServeView(key, clock);
        case Showing(key, partition, size) =>
          if KeyedRows(partition.cookies) { var view := BuildView(key, partition, clock, size); }
        case Committing(site, rows) => if KeyedRows(rows) { Commit(site, rows); }
        case Ticking(now) => if clock <= now { Tick(now); }
        case Cutting(wait, revision) =>
          if wait.id !in cuts && wait.token < tokens && wait.epoch <= cacheEpoch { TakeCut(wait, revision); }
      }
    }

    /** A read that has been overtaken is not cached, whatever happens before its answer arrives: tokens evicted and
        handed out anew, further reads of the site and further news of it. */
    method LateAnswer(wait: Pending, cut: Partition, calls: seq<Call>) returns (partition: Partition, remembered: bool)
      requires Valid() && wait.id in cuts && cuts[wait.id] == (wait, cut) && Overtaken(wait)
      modifies this
      ensures Valid() && !remembered && partition.cookies == cut.cookies
    {
      hide Valid, Find, OnlyFresh;
      var i := 0;
      while i < |calls|
        invariant i <= |calls| && Valid() && wait.id in cuts && cuts[wait.id] == (wait, cut) && Overtaken(wait)
      {
        label Before:
        Perform(calls[i]);
        StaysOvertaken(old@Before(siteTokens), old@Before(tokens), wait);
        i := i + 1;
      }
      partition, remembered := Resume(wait, cut);
    }

    /** Nothing a read has seen before its site's news came is ever cached after it. */
    method AnswerAfterNews(wait: Pending, cut: Partition, news: Option<Site>, calls: seq<Call>)
      returns (partition: Partition, remembered: bool)
      requires Valid() && wait.id in cuts && cuts[wait.id] == (wait, cut) && (news.Some? ==> news.value == wait.site)
      modifies this
      ensures Valid() && !remembered && partition.cookies == cut.cookies
    {
      hide Find;
      Notify(news);
      partition, remembered := LateAnswer(wait, cut, calls);
    }

    lemma StaysOvertaken(before: seq<Item<Site, nat>>, next: nat, wait: Pending)
      requires OnlyFresh(before, next, siteTokens) && next <= tokens
      requires wait.epoch < cacheEpoch || (wait.token < next && Find(before, wait.site) != Some(wait.token))
      ensures Overtaken(wait)
    {
    }
  }

  /** What the cache counts for a partition. */
  method MeasurePartition(world: World, rows: Rows) returns (bytes: nat)
    ensures bytes == 128 + RowsBytes(world, rows)
  {
    bytes := 128;
    var left := rows.Keys;
    TotalEmpty<Id, Row>(world.cacheBytes);
    while left != {}
      invariant left <= rows.Keys && bytes == 128 + RowsBytes(world, rows - left)
      decreases |left|
    {
      var id :| id in left;
      MeasureMore(world, rows, left, id);
      bytes := bytes + world.cacheBytes(rows[id]);
      left := left - {id};
    }
    assert rows - {} == rows;
  }

  lemma MeasureMore(world: World, rows: Rows, left: set<Id>, id: Id)
    requires id in left && left <= rows.Keys
    ensures RowsBytes(world, rows - (left - {id})) == RowsBytes(world, rows - left) + world.cacheBytes(rows[id])
  {
    TotalPut(rows - left, world.cacheBytes, id, rows[id]);
    assert rows - (left - {id}) == (rows - left)[id := rows[id]];
  }

  lemma SelectedKeyed(world: World, rows: Rows, key: Key, now: Time)
    requires KeyedRows(rows)
    ensures Keyed(Selected(world, rows, key, now))
  {
  }

  lemma FoundAt(s: seq<Item<Key, CachedView>>, key: Key)
    requires Find(s, key).Some?
    ensures exists j :: 0 <= j < |s| && s[j].key == key
  {
    FindMember(s, key);
    var x := Item(key, Find(s, key).value);
    var j :| 0 <= j < |s| && s[j] == x;
    assert s[j].key == key;
  }

  lemma Nothing<K(!new), V>(f: V -> nat)
    ensures Once<K, V>([]) && Weight<K, V>([], f) == 0 && forall k: K :: Find<K, V>([], k) == None
  {
  }

  lemma NoWeight<K, V>(f: V -> nat)
    ensures Weight<K, V>([], f) == 0
  {
  }

  function Tell(token: nat): nat { 0 }

  lemma MissingWithout(s: seq<Item<Key, CachedView>>, key: Key)
    requires Find(s, key).None?
    ensures Without(s, key) == s
  {
    FindMember(s, key);
    AbsentWithout(s, key);
  }

  /** Making the most recent entry the most recent changes nothing. */
  lemma {:induction false} LastRenewed(s: seq<Item<Key, CachedView>>, key: Key)
    requires Once(s) && s != [] && s[|s| - 1].key == key
    ensures Find(s, key).Some? && Renewed(s, key, Find(s, key).value) == s
    decreases |s|
  {
    if |s| == 1 {
      assert s[1..] == [] && s == [s[0]];
    } else {
      assert s[1..][|s| - 2] == s[|s| - 1] && s[0].key != key;
      LastRenewed(s[1..], key);
      assert s == [s[0]] + s[1..];
    }
  }

  /** Deleting another key leaves the last entry last. */
  lemma {:induction false} LastStays(s: seq<Item<Key, CachedView>>, key: Key)
    requires s != [] && s[|s| - 1].key != key
    ensures Without(s, key) != [] && Without(s, key)[|Without(s, key)| - 1] == s[|s| - 1]
    decreases |s|
  {
    if |s| > 1 {
      assert s[1..][|s| - 2] == s[|s| - 1];
      LastStays(s[1..], key);
    }
  }
}
