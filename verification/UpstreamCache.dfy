/** Shared reads of the management interface
    (internal/cpamp/upstream_cache.go, internal/cpamp/client.go:1337-1358): one flight per
    path and generation, entries that a write throws away, and readers that wait for a
    flight and look again when a write came between.  What the upstream serves is a
    version that writes raise. */
module UpstreamCache {
  import opened Totals
  import opened Wrappers

  type Path = string

  const MAX_ENTRIES := 64
  const MAX_BYTES := 8_388_608
  const MAX_ENTRY := 1_048_576

  /** `cacheable` says that it parses as what the path serves. */
  datatype Body = Body(version: nat, size: nat, cacheable: bool)

  datatype Entry = Entry(body: Body, storedAt: int, expiresAt: int)

  function Size(e: Entry): int {
    e.body.size
  }

  function StoredAt(e: Entry): int {
    e.storedAt
  }

  predicate Cacheable(b: Body) {
    0 < b.size <= MAX_ENTRY && b.cacheable
  }

  ghost function Bytes(entries: map<Path, Entry>): int {
    Total(entries, Size)
  }

  lemma BytesSplit(entries: map<Path, Entry>, k: Path)
    requires k in entries
    ensures Bytes(entries) == entries[k].body.size + Bytes(entries - {k})
    ensures |entries - {k}| == |entries| - 1
  {
    TotalSplit(entries, Size, k);
    Smaller(entries, k);
  }

  lemma BytesInsert(entries: map<Path, Entry>, k: Path, e: Entry)
    requires k !in entries
    ensures Bytes(entries[k := e]) == e.body.size + Bytes(entries) && |entries[k := e]| == |entries| + 1
  {
    TotalInsert(entries, Size, k, e);
  }

  predicate Fits(entries: int, bytes: int) {
    entries < MAX_ENTRIES && bytes <= MAX_BYTES
  }

  /** The entries that are neither for this path nor expired. */
  function Live(entries: map<Path, Entry>, path: Path, now: int): map<Path, Entry> {
    map k | k in entries && k != path && now < entries[k].expiresAt :: entries[k]
  }

  /** What storing a body may leave behind besides it. */
  ghost predicate Evicted(entries: map<Path, Entry>, path: Path, size: int, now: int, after: map<Path, Entry>) {
    && Kept(Live(entries, path, now), after, StoredAt) && Needed(Live(entries, path, now), after, Size, Fits, size)
    && Fits(|after|, Bytes(after) + size)
  }

  ghost predicate WithinLimits(entries: map<Path, Entry>) {
    && |entries| <= MAX_ENTRIES && Bytes(entries) <= MAX_BYTES
    && forall k | k in entries :: Cacheable(entries[k].body)
  }

  /** The fields under the lock, without the flights. */
  class Cache {
    var generation: nat
    var entries: map<Path, Entry>
    var bytes: int

    ghost predicate Valid()
      reads this
    {
      WithinLimits(entries) && bytes == Bytes(entries)
    }

    constructor ()
      ensures Valid() && entries == map[] && generation == 0
    {
      generation, entries, bytes := 0, map[], 0;
      new;
      TotalOfNothing(Size);
    }

    method Invalidate()
      modifies this
      ensures Valid() && generation == old(generation) + 1 && entries == map[]
    {
      generation, entries, bytes := generation + 1, map[], 0;
      TotalOfNothing(Size);
    }

    /** Takes one entry out. */
    method Remove(k: Path)
      requires Valid() && k in entries
      modifies `entries, `bytes
      ensures Valid() && entries == old(entries) - {k}
    {
      BytesSplit(entries, k);
      bytes := bytes - entries[k].body.size;
      entries := entries - {k};
    }

    /** An entry that is still good, or none; one that expired goes. */
    method Lookup(path: Path, now: int) returns (r: Option<Body>)
      requires Valid()
      modifies `entries, `bytes
      ensures Valid()
      ensures r == Found(old(entries), path, now)
      ensures entries == AfterLookup(old(entries), path, now)
    {
      if path in entries {
        if now < entries[path].expiresAt {
          return Some(entries[path].body);
        }
        Remove(path);
      } else {
        assert entries - {path} == entries;
      }
      r := None;
    }

    /** Drops what is for this path or has expired. */
    method Expire(path: Path, now: int)
      requires Valid()
      modifies `entries, `bytes
      ensures Valid() && entries == Live(old(entries), path, now)
    {
      hide WithinLimits, Live;
      ghost var before := entries;
      var keys := entries.Keys;
      LeftEnds(before, path, now);
      while keys != {}
        invariant Valid() && keys <= before.Keys && entries == LeftOver(before, keys, path, now)
        decreases keys
      {
        var k :| k in keys;
        LeftStep(before, keys, k, path, now);
        hide LeftOver;
        if k == path || now >= entries[k].expiresAt {
          Remove(k);
        }
        keys := keys - {k};
      }
    }

    method Oldest() returns (oldest: Path)
      requires entries != map[]
      ensures oldest in entries && forall k | k in entries :: entries[oldest].storedAt <= entries[k].storedAt
    {
      var keys := entries.Keys;
      oldest :| oldest in keys;
      keys := keys - {oldest};
      while keys != {}
        invariant keys <= entries.Keys && oldest in entries
        invariant forall k | k in entries && k !in keys :: entries[oldest].storedAt <= entries[k].storedAt
        decreases keys
      {
        var k :| k in keys;
        if entries[k].storedAt < entries[oldest].storedAt {
          oldest := k;
        }
        keys := keys - {k};
      }
    }

    /** Makes room; it ends because an empty cache has room for any body. */
    method Evict(size: nat)
      requires Valid() && size <= MAX_ENTRY
      modifies `entries, `bytes
      ensures Valid() && Kept(old(entries), entries, StoredAt) && Needed(old(entries), entries, Size, Fits, size)
      ensures Fits(|entries|, Bytes(entries) + size)
    {
      ghost var before := entries;
      TotalOfNothing(Size);
      KeptAll(before, StoredAt, Size, Fits, size);
      while |entries| >= MAX_ENTRIES || bytes + size > MAX_BYTES
        invariant Valid() && Kept(before, entries, StoredAt) && Needed(before, entries, Size, Fits, size)
        decreases |entries|
      {
        hide Kept, Needed, WithinLimits;
        var oldest := Oldest();
        KeptLess(before, entries, oldest, StoredAt, Size, Fits, size);
        Remove(oldest);
      }
    }

    method Store(path: Path, body: Body, ttl: int, now: int)
      requires Valid() && Cacheable(body)
      modifies `entries, `bytes
      ensures Valid() && path in entries && entries[path] == Entry(body, now, now + ttl)
      ensures Evicted(old(entries), path, body.size, now, entries - {path})
    {
      hide Kept, Needed, Live, Bytes;
      Expire(path, now);
      ghost var live := entries;
      NotLive(old(entries), path, now);
      Evict(body.size);
      KeptSubset(live, entries);
      BytesInsert(entries, path, Entry(body, now, now + ttl));
      PutBack(entries, path, Entry(body, now, now + ttl));
      entries := entries[path := Entry(body, now, now + ttl)];
      bytes := bytes + body.size;
    }
  }

  lemma PutBack(entries: map<Path, Entry>, path: Path, e: Entry)
    requires path !in entries
    ensures entries[path := e] - {path} == entries
  {
  }

  lemma NotLive(entries: map<Path, Entry>, path: Path, now: int)
    ensures path !in Live(entries, path, now)
  {
  }

  lemma KeptSubset(before: map<Path, Entry>, after: map<Path, Entry>)
    requires Kept(before, after, StoredAt)
    ensures forall k | k in after :: k in before && after[k] == before[k]
  {
  }

  function LeftOver(entries: map<Path, Entry>, keys: set<Path>, path: Path, now: int): map<Path, Entry> {
    map k | k in entries && (k in keys || k in Live(entries, path, now)) :: entries[k]
  }

  lemma LeftEnds(entries: map<Path, Entry>, path: Path, now: int)
    ensures LeftOver(entries, entries.Keys, path, now) == entries
    ensures LeftOver(entries, {}, path, now) == Live(entries, path, now)
  {
  }

  lemma LeftStep(entries: map<Path, Entry>, keys: set<Path>, k: Path, path: Path, now: int)
    requires k in keys && k in entries
    ensures k in LeftOver(entries, keys, path, now) && LeftOver(entries, keys, path, now)[k] == entries[k]
    ensures LeftOver(entries, keys - {k}, path, now)
         == if k != path && now < entries[k].expiresAt then LeftOver(entries, keys, path, now)
            else LeftOver(entries, keys, path, now) - {k}
  {
  }

  function Found(entries: map<Path, Entry>, path: Path, now: int): Option<Body> {
    if path in entries && now < entries[path].expiresAt then Some(entries[path].body) else None
  }

  function AfterLookup(entries: map<Path, Entry>, path: Path, now: int): map<Path, Entry> {
    if Found(entries, path, now).Some? then entries else entries - {path}
  }
}
