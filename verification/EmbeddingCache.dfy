/** The bounded in-memory embedding cache with LRU, FIFO and LFU eviction. Readings of the clock are
    parameters. */
module EmbeddingCache {
  import opened Messages
  import opened Sorting
  import opened Utf8

  type Embedding = seq<real>

  datatype Strategy = LRU | FIFO | LFU

  datatype CacheEntry = CacheEntry(embedding: Embedding, accessCount: nat, lastAccessed: nat, createdAt: nat)

  type Cache = map<string, CacheEntry>

  datatype Keyed = Keyed(key: string, entry: CacheEntry)

  function NewEntry(embedding: Embedding, now: nat): CacheEntry {
    CacheEntry(embedding, 1, now, now)
  }

  function Accessed(e: CacheEntry, now: nat): CacheEntry {
    e.(accessCount := e.accessCount + 1, lastAccessed := now)
  }

  // ---- Eviction ----

  /** `a` is evicted no later than `b`. */
  predicate RanksBelow(strategy: Strategy, a: CacheEntry, b: CacheEntry) {
    match strategy
    case LRU => a.lastAccessed < b.lastAccessed || (a.lastAccessed == b.lastAccessed && a.createdAt <= b.createdAt)
    case FIFO => a.createdAt <= b.createdAt
    case LFU => a.accessCount <= b.accessCount
  }

  function ByRank(strategy: Strategy): (Keyed, Keyed) -> bool {
    (a: Keyed, b: Keyed) => RanksBelow(strategy, a.entry, b.entry)
  }

  /** `after` is a proper outcome of evicting from `before`: as many entries as fit are left,
      unchanged, and none that was evicted ranks above one that was not. */
  ghost predicate Evicted(strategy: Strategy, maxSize: nat, before: Cache, after: Cache) {
    && after.Keys <= before.Keys
    && (forall k :: k in after ==> after[k] == before[k])
    && |after| == (if |before| <= maxSize then |before| else maxSize)
    && (forall k, gone :: k in after && gone in before && gone !in after ==>
        RanksBelow(strategy, before[gone], before[k]))
  }

  predicate DistinctKeys(entries: seq<Keyed>) {
    forall i, j :: 0 <= i < j < |entries| ==> entries[i].key != entries[j].key
  }

  /** The map that inserting the entries one by one builds. */
  function MapOf(entries: seq<Keyed>): Cache {
    if entries == [] then map[]
    else MapOf(entries[..|entries| - 1])[entries[|entries| - 1].key := entries[|entries| - 1].entry]
  }

  /** The entries are those of the map, each once, in some order. */
  predicate Enumerates(entries: seq<Keyed>, cache: Cache) {
    && DistinctKeys(entries)
    && (forall e :: e in entries ==> e.key in cache && cache[e.key] == e.entry)
    && (forall k :: k in cache ==> Keyed(k, cache[k]) in entries)
  }

  function SortedByRank(strategy: Strategy, entries: seq<Keyed>): (r: seq<Keyed>)
    ensures |r| == |entries|
  {
    SortPermutes(entries, ByRank(strategy));
    Sort(entries, ByRank(strategy))
  }

  lemma {:induction false} MapOfKeys(entries: seq<Keyed>)
    ensures forall k :: k in MapOf(entries) <==> exists i :: 0 <= i < |entries| && entries[i].key == k
  {
    if entries != [] {
      var n := |entries| - 1;
      MapOfKeys(entries[..n]);
      forall k
        ensures k in MapOf(entries) <==> exists i :: 0 <= i < |entries| && entries[i].key == k
      {
        if i :| 0 <= i < |entries| && entries[i].key == k && i < n {
          assert entries[..n][i].key == k;
        }
        if k in MapOf(entries[..n]) {
          var i :| 0 <= i < n && entries[..n][i].key == k;
          assert entries[i].key == k;
        }
        assert k == entries[n].key ==> k in MapOf(entries);
      }
    }
  }

  lemma {:induction false} MapOfEntries(entries: seq<Keyed>)
    requires DistinctKeys(entries)
    ensures |MapOf(entries)| == |entries|
    ensures forall i :: 0 <= i < |entries| ==>
            entries[i].key in MapOf(entries) && MapOf(entries)[entries[i].key] == entries[i].entry
  {
    if entries != [] {
      var n := |entries| - 1;
      var before, last := MapOf(entries[..n]), entries[n];
      MapOfEntries(entries[..n]);
      MapOfKeys(entries[..n]);
      assert MapOf(entries).Keys == before.Keys + {last.key};
      forall i | 0 <= i < n
        ensures entries[i].key in MapOf(entries) && MapOf(entries)[entries[i].key] == entries[i].entry
      {
        assert entries[..n][i] == entries[i];
      }
    }
  }

  lemma EnumerationCounts(entries: seq<Keyed>, cache: Cache)
    requires Enumerates(entries, cache)
    ensures |entries| == |cache|
  {
    hide MapOf;
    MapOfEntries(entries);
    MapOfKeys(entries);
    assert MapOf(entries).Keys == cache.Keys;
  }

  lemma ByRankIsAPreorder(strategy: Strategy)
    ensures TotalPreorder(ByRank(strategy))
  {
  }

  lemma SortedEnumeration(strategy: Strategy, entries: seq<Keyed>, cache: Cache)
    requires Enumerates(entries, cache)
    ensures Enumerates(SortedByRank(strategy, entries), cache)
    ensures Sorted(SortedByRank(strategy, entries), ByRank(strategy))
  {
    hide Sort;
    var leq := ByRank(strategy);
    ByRankIsAPreorder(strategy);
    SortSorts(entries, leq);
    SortPermutes(entries, leq);
    assert Unique(entries);
    SortKeepsUnique(entries, leq);
    var sorted := Sort(entries, leq);
    forall i, j | 0 <= i < j < |sorted|
      ensures sorted[i].key != sorted[j].key
    {
      assert sorted[i] in entries && sorted[j] in entries;
    }
  }

  /** The entries from place `n` on of an enumeration are entries of the map. */
  lemma SuffixOfEnumeration(entries: seq<Keyed>, cache: Cache, n: nat)
    requires Enumerates(entries, cache) && n <= |entries|
    ensures var left := MapOf(entries[n..]);
            && |left| == |entries| - n
            && (forall k :: k in left ==> k in cache && left[k] == cache[k])
            && (forall k :: k in left <==> exists i :: n <= i < |entries| && entries[i].key == k)
  {
    hide MapOf;
    var suffix := entries[n..];
    MapOfEntries(suffix);
    MapOfKeys(suffix);
    forall k | k in MapOf(suffix)
      ensures k in cache && MapOf(suffix)[k] == cache[k] && exists i :: n <= i < |entries| && entries[i].key == k
    {
      var i :| 0 <= i < |suffix| && suffix[i].key == k;
      assert entries[n + i] in entries && suffix[i] == entries[n + i];
    }
    forall i | n <= i < |entries|
      ensures entries[i].key in MapOf(suffix)
    {
      assert suffix[i - n] == entries[i];
    }
  }

  /** Draining the lowest-ranking entries of a sorted enumeration is a proper eviction. */
  lemma DrainingEvicts(strategy: Strategy, maxSize: nat, sorted: seq<Keyed>, cache: Cache)
    requires Enumerates(sorted, cache) && Sorted(sorted, ByRank(strategy)) && maxSize < |sorted|
    ensures Evicted(strategy, maxSize, cache, MapOf(sorted[|sorted| - maxSize..]))
  {
    hide MapOf;
    var n := |sorted| - maxSize;
    var left := MapOf(sorted[n..]);
    SuffixOfEnumeration(sorted, cache, n);
    EnumerationCounts(sorted, cache);
    forall k, gone | k in left && gone in cache && gone !in left
      ensures RanksBelow(strategy, cache[gone], cache[k])
    {
      var i :| n <= i < |sorted| && sorted[i].key == k;
      var j :| 0 <= j < |sorted| && sorted[j] == Keyed(gone, cache[gone]);
      assert sorted[i] in sorted;
      assert ByRank(strategy)(sorted[j], sorted[i]);
    }
  }

  // ---- Operations ----

  /** The cache after a lookup. */
  function AfterGet(cache: Cache, key: string, now: nat): Cache {
    if key in cache then cache[key := Accessed(cache[key], now)] else cache
  }

  function Found(cache: Cache, key: string): Option<Embedding> {
    if key in cache then Some(cache[key].embedding) else None
  }

  function AfterGets(cache: Cache, keys: seq<string>, times: seq<nat>): Cache
    requires |keys| == |times|
  {
    if keys == [] then cache
    else AfterGet(AfterGets(cache, keys[..|keys| - 1], times[..|keys| - 1]), keys[|keys| - 1], times[|keys| - 1])
  }

  function FoundAll(cache: Cache, keys: seq<string>): seq<Option<Embedding>> {
    seq(|keys|, i requires 0 <= i < |keys| => Found(cache, keys[i]))
  }

  function WithAll(cache: Cache, keys: seq<string>, embeddings: seq<Embedding>, times: seq<nat>): Cache
    requires |keys| == |embeddings| == |times|
  {
    if keys == [] then cache
    else
      var n := |keys| - 1;
      WithAll(cache, keys[..n], embeddings[..n], times[..n])[keys[n] := NewEntry(embeddings[n], times[n])]
  }

  lemma AccessKeepsEmbeddings(cache: Cache, key: string, now: nat)
    ensures AfterGet(cache, key, now).Keys == cache.Keys
    ensures forall k :: Found(AfterGet(cache, key, now), k) == Found(cache, k)
  {
  }

  class InMemoryEmbeddingCache {
    const maxSize: nat
    const strategy: Strategy
    var cache: Cache

    constructor (maxSize: nat, strategy: Strategy)
      ensures this.maxSize == maxSize && this.strategy == strategy && cache == map[]
    {
      this.maxSize := maxSize;
      this.strategy := strategy;
      cache := map[];
    }

    /** Take the entries out, sort them by rank, drain the lowest, put the rest back. */
    method EvictIfNeeded()
      modifies this
      ensures Evicted(strategy, maxSize, old(cache), cache)
    {
      hide RanksBelow, Enumerates, Sort;
      if |cache| <= maxSize {
        return;
      }
      ghost var before := cache;
      var entriesToRemove := |cache| - maxSize;
      var entries := Drain();
      EnumerationCounts(entries, before);
      SortedEnumeration(strategy, entries, before);
      entries := SortedByRank(strategy, entries);
      DrainingEvicts(strategy, maxSize, entries, before);
      entries := entries[entriesToRemove..];
      for i := 0 to |entries|
        invariant cache == MapOf(entries[..i])
      {
        assert entries[..i + 1][..i] == entries[..i];
        cache := cache[entries[i].key := entries[i].entry];
      }
      assert entries[..|entries|] == entries;
    }

    /** Empty the map into a list, in whatever order the map gives. */
    method Drain() returns (entries: seq<Keyed>)
      modifies this
      ensures cache == map[] && Enumerates(entries, old(cache))
    {
      entries := [];
      while cache != map[]
        invariant cache.Keys <= old(cache).Keys && forall k :: k in cache ==> cache[k] == old(cache)[k]
        invariant DistinctKeys(entries)
        invariant forall e :: e in entries ==> e.key in old(cache) && old(cache)[e.key] == e.entry && e.key !in cache
        invariant forall k :: k in old(cache) ==> k in cache || Keyed(k, old(cache)[k]) in entries
        decreases |cache|
      {
        assert cache.Keys != {};
        var key :| key in cache;
        var rest := cache - {key};
        assert cache.Keys == rest.Keys + {key};
        entries := entries + [Keyed(key, cache[key])];
        cache := rest;
      }
    }

    method Get(key: string, now: nat) returns (r: Option<Embedding>)
      modifies this
      ensures r == Found(old(cache), key) && cache == AfterGet(old(cache), key, now)
    {
      if key in cache {
        cache := cache[key := Accessed(cache[key], now)];
        r := Some(cache[key].embedding);
      } else {
        r := None;
      }
    }

    method Put(key: string, embedding: Embedding, now: nat)
      modifies this
      ensures Evicted(strategy, maxSize, old(cache)[key := NewEntry(embedding, now)], cache)
    {
      cache := cache[key := NewEntry(embedding, now)];
      EvictIfNeeded();
    }

    method GetBatch(keys: seq<string>, times: seq<nat>) returns (r: seq<Option<Embedding>>)
      requires |keys| == |times|
      modifies this
      ensures r == FoundAll(old(cache), keys) && cache == AfterGets(old(cache), keys, times)
    {
      r := [];
      for i := 0 to |keys|
        invariant cache == AfterGets(old(cache), keys[..i], times[..i])
        invariant forall k :: Found(cache, k) == Found(old(cache), k)
        invariant r == FoundAll(old(cache), keys[..i])
      {
        assert keys[..i + 1][..i] == keys[..i] && times[..i + 1][..i] == times[..i];
        AccessKeepsEmbeddings(cache, keys[i], times[i]);
        var found := Get(keys[i], times[i]);
        r := r + [found];
      }
      assert keys[..|keys|] == keys && times[..|keys|] == times;
    }

    method PutBatch(keys: seq<string>, embeddings: seq<Embedding>, times: seq<nat>) returns (r: Result<()>)
      requires |keys| == |times|
      modifies this
      ensures |keys| != |embeddings| ==> r.Err? && cache == old(cache)
      ensures |keys| == |embeddings| ==>
                r == Ok(()) && Evicted(strategy, maxSize, WithAll(old(cache), keys, embeddings, times), cache)
    {
      if |keys| != |embeddings| {
        return Err(OtherError(Ascii("RAG operation failed: Texts and embeddings length mismatch")));
      }
      for i := 0 to |keys|
        invariant cache == WithAll(old(cache), keys[..i], embeddings[..i], times[..i])
      {
        assert keys[..i + 1][..i] == keys[..i] && embeddings[..i + 1][..i] == embeddings[..i]
            && times[..i + 1][..i] == times[..i];
        cache := cache[keys[i] := NewEntry(embeddings[i], times[i])];
      }
      assert keys[..|keys|] == keys && embeddings[..|keys|] == embeddings && times[..|keys|] == times;
      EvictIfNeeded();
      r := Ok(());
    }

    method Clear()
      modifies this
      ensures cache == map[]
    {
      cache := map[];
    }

    /** Replace the contents by saved ones; nothing is evicted. */
    method Load(data: Cache)
      modifies this
      ensures cache == data
    {
      cache := data;
    }
  }
}
