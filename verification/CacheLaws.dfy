/** What the embedding cache promises: bounded size, which entries eviction spares, and, for LRU and
    FIFO, that over whole runs it is a bounded list ordered by last use. */
module CacheLaws {
  import opened EmbeddingCache
  import opened Messages
  import opened Sequences
  import opened Sorting

  // ---- Eviction ----

  /** No two entries are tied. */
  ghost predicate NoTies(strategy: Strategy, cache: Cache) {
    forall k, j :: k in cache && j in cache && k != j ==>
      !(RanksBelow(strategy, cache[k], cache[j]) && RanksBelow(strategy, cache[j], cache[k]))
  }

  lemma SameSizeSubset<T>(a: set<T>, b: set<T>)
    requires a <= b && |a| == |b|
    ensures a == b
  {
    if a != b {
      var x :| x in b && x !in a;
      assert a <= b - {x};
      SubsetSize(a, b - {x});
    }
  }

  /** Without ties, the outcome of an eviction does not depend on the order in which the map gives its
      entries. */
  lemma EvictionIsDetermined(strategy: Strategy, maxSize: nat, before: Cache, a: Cache, b: Cache)
    requires NoTies(strategy, before) && Evicted(strategy, maxSize, before, a) && Evicted(strategy, maxSize, before, b)
    ensures a == b
  {
    hide RanksBelow;
    if a.Keys != b.Keys {
      assert !(a.Keys <= b.Keys) by {
        if a.Keys <= b.Keys {
          SameSizeSubset(a.Keys, b.Keys);
        }
      }
      assert !(b.Keys <= a.Keys) by {
        if b.Keys <= a.Keys {
          SameSizeSubset(b.Keys, a.Keys);
        }
      }
    }
  }

  /** An eviction leaves everything if it fits. */
  lemma NothingToEvict(strategy: Strategy, maxSize: nat, before: Cache, after: Cache)
    requires |before| <= maxSize && Evicted(strategy, maxSize, before, after)
    ensures after == before
  {
    SameSizeSubset(after.Keys, before.Keys);
  }

  /** Which entries eviction may take, in plain terms: under LRU none used later than a survivor, nor at
      the same time and created later; under FIFO none created later; under LFU none used more often. */
  lemma EvictionSpares(strategy: Strategy, maxSize: nat, before: Cache, after: Cache, gone: string, kept: string)
    requires Evicted(strategy, maxSize, before, after) && gone in before && gone !in after && kept in after
    ensures after[kept] == before[kept] && |before| > maxSize == |after|
    ensures var a, b := before[gone], before[kept];
            && (strategy == LRU ==>
                  a.lastAccessed <= b.lastAccessed && (a.lastAccessed == b.lastAccessed ==> a.createdAt <= b.createdAt))
            && (strategy == FIFO ==> a.createdAt <= b.createdAt)
            && (strategy == LFU ==> a.accessCount <= b.accessCount)
  {
    if |before| <= maxSize {
      NothingToEvict(strategy, maxSize, before, after);
    }
  }

  // ---- The list ordered by last use ----

  datatype Item = Item(key: string, value: Embedding)

  predicate Holds(list: seq<Item>, key: string) {
    exists i :: 0 <= i < |list| && list[i].key == key
  }

  function WithoutKey(list: seq<Item>, key: string): seq<Item> {
    if list == [] then []
    else WithoutKey(list[..|list| - 1], key) + (if list[|list| - 1].key == key then [] else [list[|list| - 1]])
  }

  /** The value last put under `key`, if the list still holds it. */
  function Lookup(list: seq<Item>, key: string): Option<Embedding> {
    if list == [] then None
    else if list[|list| - 1].key == key then Some(list[|list| - 1].value)
    else Lookup(list[..|list| - 1], key)
  }

  /** Put at the end, the most recent place. */
  function PutLast(list: seq<Item>, key: string, value: Embedding): seq<Item> {
    WithoutKey(list, key) + [Item(key, value)]
  }

  /** Moved to the end, if it is there. */
  function Touched(list: seq<Item>, key: string): seq<Item> {
    match Lookup(list, key)
    case None => list
    case Some(value) => PutLast(list, key, value)
  }

  /** The most recent `maxSize`. */
  function Bounded(list: seq<Item>, maxSize: nat): seq<Item> {
    if |list| <= maxSize then list else list[|list| - maxSize..]
  }

  predicate KeysDistinct(list: seq<Item>) {
    forall i, j :: 0 <= i < j < |list| ==> list[i].key != list[j].key
  }

  /** Removing takes away the one item with the key, and leaves the others in order. */
  lemma WithoutKeyAt(list: seq<Item>, key: string, i: nat)
    requires KeysDistinct(list) && i < |list| && list[i].key == key
    ensures WithoutKey(list, key) == list[..i] + list[i + 1..]
  {
    hide WithoutKey;
    WithoutKeyIfAbsent(list[..i], key);
    WithoutKeyIfAbsent(list[i + 1..], key);
    assert list == list[..i] + [list[i]] + list[i + 1..];
    WithoutKeyConcat(list[..i] + [list[i]], list[i + 1..], key);
    WithoutKeyConcat(list[..i], [list[i]], key);
    WithoutKeyOne(list[i], key);
  }

  lemma WithoutKeyOne(item: Item, key: string)
    requires item.key == key
    ensures WithoutKey([item], key) == []
  {
  }

  lemma {:induction false} WithoutKeyIfAbsent(list: seq<Item>, key: string)
    requires !Holds(list, key)
    ensures WithoutKey(list, key) == list
  {
    if list != [] {
      var n := |list| - 1;
      assert !Holds(list[..n], key) by {
        assert forall i :: 0 <= i < n ==> list[..n][i] == list[i];
      }
      WithoutKeyIfAbsent(list[..n], key);
      assert list == list[..n] + [list[n]];
    }
  }

  lemma {:induction false} WithoutKeyConcat(a: seq<Item>, b: seq<Item>, key: string)
    ensures WithoutKey(a + b, key) == WithoutKey(a, key) + WithoutKey(b, key)
    decreases |b|
  {
    hide WithoutKey;
    WithoutKeyUnfold(b, key);
    if b == [] {
      assert a + b == a;
    } else {
      var n := |b| - 1;
      WithoutKeyConcat(a, b[..n], key);
      WithoutKeyUnfold(a + b, key);
      assert (a + b)[..|a + b| - 1] == a + b[..n];
    }
  }

  lemma WithoutKeyUnfold(list: seq<Item>, key: string)
    ensures WithoutKey(list, key) ==
            if list == [] then []
            else WithoutKey(list[..|list| - 1], key) + (if list[|list| - 1].key == key then [] else [list[|list| - 1]])
  {
  }

  lemma {:induction false} LookupFinds(list: seq<Item>, key: string)
    requires KeysDistinct(list)
    ensures forall i :: 0 <= i < |list| && list[i].key == key ==> Lookup(list, key) == Some(list[i].value)
    ensures !Holds(list, key) ==> Lookup(list, key) == None
  {
    if list != [] {
      var n := |list| - 1;
      LookupFinds(list[..n], key);
      assert forall i :: 0 <= i < n ==> list[..n][i] == list[i];
    }
  }

  // ---- The list refines the cache ----

  /** When an entry was last used; for FIFO, only putting it counts. */
  function When(strategy: Strategy, e: CacheEntry): nat {
    if strategy == FIFO then e.createdAt else e.lastAccessed
  }

  /** The item's key is in the cache, with the item's value, last used no later than `now`. */
  predicate Matches(strategy: Strategy, cache: Cache, item: Item, now: int) {
    item.key in cache && cache[item.key].embedding == item.value && When(strategy, cache[item.key]) <= now
  }

  predicate UsedBefore(strategy: Strategy, cache: Cache, a: string, b: string) {
    a in cache && b in cache && When(strategy, cache[a]) < When(strategy, cache[b])
  }

  /** The list holds the cache's keys and values, each key later in the list the later it was used. */
  ghost predicate Refines(strategy: Strategy, cache: Cache, list: seq<Item>, now: int) {
    && strategy != LFU && KeysDistinct(list)
    && (forall k :: k in cache ==> Holds(list, k))
    && (forall i :: 0 <= i < |list| ==> Matches(strategy, cache, list[i], now))
    && (forall i, j :: 0 <= i < j < |list| ==> UsedBefore(strategy, cache, list[i].key, list[j].key))
  }

  lemma FoundIsLookup(strategy: Strategy, cache: Cache, list: seq<Item>, now: int, key: string)
    requires Refines(strategy, cache, list, now)
    ensures Found(cache, key) == Lookup(list, key)
  {
    LookupFinds(list, key);
    if key in cache {
      var i :| 0 <= i < |list| && list[i].key == key;
    } else {
      assert !Holds(list, key);
    }
  }

  /** Using or replacing an entry later than all others moves it to the end. */
  lemma MoveRefines(strategy: Strategy, cache: Cache, list: seq<Item>, now: int, key: string, e: CacheEntry)
    requires Refines(strategy, cache, list, now) && now < When(strategy, e)
    ensures Refines(strategy, cache[key := e], PutLast(list, key, e.embedding), When(strategy, e))
  {
    hide WithoutKey;
    if Holds(list, key) {
      var i :| 0 <= i < |list| && list[i].key == key;
      WithoutKeyAt(list, key, i);
      MoveOutRefines(strategy, cache, list, now, key, i);
      AppendRefines(strategy, cache - {key}, list[..i] + list[i + 1..], now, key, e);
      assert (cache - {key})[key := e] == cache[key := e];
    } else {
      WithoutKeyIfAbsent(list, key);
      AppendRefines(strategy, cache, list, now, key, e);
    }
  }

  lemma MoveOutRefines(strategy: Strategy, cache: Cache, list: seq<Item>, now: int, key: string, i: nat)
    requires Refines(strategy, cache, list, now) && i < |list| && list[i].key == key
    ensures Refines(strategy, cache - {key}, list[..i] + list[i + 1..], now)
  {
    hide Matches, UsedBefore;
    var rest := list[..i] + list[i + 1..];
    forall k | k in cache - {key}
      ensures Holds(rest, k)
    {
      var j :| 0 <= j < |list| && list[j].key == k;
      assert rest[if j < i then j else j - 1] == list[j];
    }
    assert forall j :: 0 <= j < |rest| ==> rest[j] == list[if j < i then j else j + 1];
    forall j | 0 <= j < |rest|
      ensures rest[j].key != key && Matches(strategy, cache - {key}, rest[j], now)
    {
      assert Matches(strategy, cache, rest[j], now);
      MatchesWithout(strategy, cache, key, rest[j], now);
    }
    forall j, k | 0 <= j < k < |rest|
      ensures UsedBefore(strategy, cache - {key}, rest[j].key, rest[k].key)
    {
      assert UsedBefore(strategy, cache, rest[j].key, rest[k].key);
      UsedBeforeWithout(strategy, cache, key, rest[j].key, rest[k].key);
    }
  }

  lemma MatchesWithout(strategy: Strategy, cache: Cache, key: string, item: Item, now: int)
    requires Matches(strategy, cache, item, now) && item.key != key
    ensures Matches(strategy, cache - {key}, item, now)
  {
  }

  lemma UsedBeforeWithout(strategy: Strategy, cache: Cache, key: string, a: string, b: string)
    requires UsedBefore(strategy, cache, a, b) && a != key && b != key
    ensures UsedBefore(strategy, cache - {key}, a, b)
  {
  }

  lemma AppendRefines(strategy: Strategy, cache: Cache, list: seq<Item>, now: int, key: string, e: CacheEntry)
    requires Refines(strategy, cache, list, now) && key !in cache && now < When(strategy, e)
    ensures Refines(strategy, cache[key := e], list + [Item(key, e.embedding)], When(strategy, e))
  {
    var list' := list + [Item(key, e.embedding)];
    forall k | k in cache[key := e]
      ensures Holds(list', k)
    {
      if k == key {
        assert list'[|list|].key == k;
      } else {
        var j :| 0 <= j < |list| && list[j].key == k;
        assert list'[j].key == k;
      }
    }
  }

  lemma RefinedHasNoTies(strategy: Strategy, cache: Cache, list: seq<Item>, now: int)
    requires Refines(strategy, cache, list, now)
    ensures NoTies(strategy, cache)
  {
    forall k, j | k in cache && j in cache && k != j
      ensures When(strategy, cache[k]) != When(strategy, cache[j])
    {
      var a :| 0 <= a < |list| && list[a].key == k;
      var b :| 0 <= b < |list| && list[b].key == j;
    }
  }

  /** The cache's entries in the order of the list: sorted by last use. */
  function Entries(cache: Cache, list: seq<Item>): seq<Keyed> {
    seq(|list|, i requires 0 <= i < |list| =>
      Keyed(list[i].key, if list[i].key in cache then cache[list[i].key] else NewEntry([], 0)))
  }

  lemma EntriesEnumerate(strategy: Strategy, cache: Cache, list: seq<Item>, now: int)
    requires Refines(strategy, cache, list, now)
    ensures Enumerates(Entries(cache, list), cache) && Sorted(Entries(cache, list), ByRank(strategy))
  {
    var entries := Entries(cache, list);
    forall k | k in cache
      ensures Keyed(k, cache[k]) in entries
    {
      var i :| 0 <= i < |list| && list[i].key == k;
      assert entries[i] == Keyed(k, cache[k]);
    }
  }

  /** What is left of the cache when all but the items from place `n` on are evicted. */
  lemma SuffixRefines(strategy: Strategy, before: Cache, after: Cache, list: seq<Item>, now: int, n: nat)
    requires Refines(strategy, before, list, now) && n <= |list|
    requires forall k :: k in after ==> k in before && after[k] == before[k]
    requires forall k :: k in after <==> Holds(list[n..], k)
    ensures Refines(strategy, after, list[n..], now)
  {
    var suffix := list[n..];
    forall i | 0 <= i < |suffix|
      ensures Matches(strategy, after, suffix[i], now)
    {
      assert Holds(suffix, suffix[i].key);
      assert Matches(strategy, before, list[n + i], now);
    }
    forall i, j | 0 <= i < j < |suffix|
      ensures UsedBefore(strategy, after, suffix[i].key, suffix[j].key)
    {
      assert UsedBefore(strategy, before, list[n + i].key, list[n + j].key);
    }
  }

  /** Draining the entries before place `n` leaves the keys of the items from there on. */
  lemma SuffixKeys(strategy: Strategy, before: Cache, list: seq<Item>, now: int, n: nat)
    requires Refines(strategy, before, list, now) && n <= |list|
    ensures var left := MapOf(Entries(before, list)[n..]);
            && (forall k :: k in left ==> k in before && left[k] == before[k])
            && (forall k :: k in left <==> Holds(list[n..], k))
  {
    hide MapOf, Entries, Holds, Refines, Enumerates;
    EntriesEnumerate(strategy, before, list, now);
    EntriesAreInOrder(before, list);
    SuffixOfEnumeration(Entries(before, list), before, n);
    var left := MapOf(Entries(before, list)[n..]);
    forall k
      ensures k in left <==> Holds(list[n..], k)
    {
      HeldInSuffix(list, n, k);
    }
  }

  lemma EntriesAreInOrder(cache: Cache, list: seq<Item>)
    ensures |Entries(cache, list)| == |list|
    ensures forall i :: 0 <= i < |list| ==> Entries(cache, list)[i].key == list[i].key
  {
  }

  lemma HeldInSuffix(list: seq<Item>, n: nat, k: string)
    requires n <= |list|
    ensures Holds(list[n..], k) <==> exists i :: n <= i < |list| && list[i].key == k
  {
    if i :| n <= i < |list| && list[i].key == k {
      assert list[n..][i - n].key == k;
    }
  }

  /** Evicting the least recently used entries keeps exactly the most recent part of the list. */
  lemma EvictionRefines(strategy: Strategy, maxSize: nat, before: Cache, after: Cache, list: seq<Item>, now: int)
    requires Refines(strategy, before, list, now) && Evicted(strategy, maxSize, before, after)
    ensures Refines(strategy, after, Bounded(list, maxSize), now)
  {
    hide Evicted, NoTies, Enumerates, Sorted, MapOf, Holds, Matches, UsedBefore, KeysDistinct;
    EntriesEnumerate(strategy, before, list, now);
    var entries := Entries(before, list);
    EnumerationCounts(entries, before);
    if |list| <= maxSize {
      NothingToEvict(strategy, maxSize, before, after);
    } else {
      var n := |list| - maxSize;
      DrainingEvicts(strategy, maxSize, entries, before);
      RefinedHasNoTies(strategy, before, list, now);
      EvictionIsDetermined(strategy, maxSize, before, after, MapOf(entries[n..]));
      SuffixKeys(strategy, before, list, now, n);
      SuffixRefines(strategy, before, after, list, now, n);
    }
  }

  // ---- Whole runs ----

  datatype Op =
    | PutOne(key: string, value: Embedding, now: nat)
    | GetOne(key: string, now: nat)
    | PutMany(keys: seq<string>, values: seq<Embedding>, times: seq<nat>)
    | GetMany(keys: seq<string>, times: seq<nat>)
    | ClearAll
    | LoadSaved(data: Cache, list: seq<Item>, asOf: int)   // saved contents, and a list they refine

  /** One value and one reading of the clock for each key. */
  predicate IsAligned(op: Op) {
    && (op.PutMany? ==> |op.keys| == |op.values| == |op.times|)
    && (op.GetMany? ==> |op.keys| == |op.times|)
  }

  /** The operation reads the clock after `now`, later each time. */
  ghost predicate IsTimed(strategy: Strategy, op: Op, now: int) {
    IsAligned(op) &&
    match op
    case PutOne(_, _, t) => now < t
    case GetOne(_, t) => now < t
    case PutMany(_, _, times) => Increasing(times, now)
    case GetMany(_, times) => Increasing(times, now)
    case ClearAll => true
    case LoadSaved(data, list, asOf) => Refines(strategy, data, list, asOf)
  }

  predicate Increasing(times: seq<nat>, now: int) {
    forall i :: 0 <= i < |times| ==> now < times[i] && (i > 0 ==> times[i - 1] < times[i])
  }

  /** When the operation last read the clock, or what it loaded was last used. */
  function Ends(op: Op, now: int): int {
    match op
    case PutOne(_, _, t) => t
    case GetOne(_, t) => t
    case PutMany(_, _, times) => if times == [] then now else times[|times| - 1]
    case GetMany(_, times) => if times == [] then now else times[|times| - 1]
    case ClearAll => now
    case LoadSaved(_, _, asOf) => if asOf < now then now else asOf
  }

  /** What the operation may do to a cache, and what it returns: the contracts of the methods. */
  ghost predicate CacheStep(strategy: Strategy, maxSize: nat, op: Op, before: Cache, after: Cache,
                            found: seq<Option<Embedding>>)
    requires IsAligned(op)
  {
    match op
    case PutOne(key, value, now) => found == []
        && Evicted(strategy, maxSize, before[key := NewEntry(value, now)], after)
    case GetOne(key, now) => found == [Found(before, key)] && after == AfterGet(before, key, now)
    case PutMany(keys, values, times) => found == []
        && Evicted(strategy, maxSize, WithAll(before, keys, values, times), after)
    case GetMany(keys, times) => found == FoundAll(before, keys) && after == AfterGets(before, keys, times)
    case ClearAll => found == [] && after == map[]
    case LoadSaved(data, _, _) => found == [] && after == data
  }

  function TouchedAll(list: seq<Item>, keys: seq<string>): seq<Item> {
    if keys == [] then list else Touched(TouchedAll(list, keys[..|keys| - 1]), keys[|keys| - 1])
  }

  function PutAllLast(list: seq<Item>, keys: seq<string>, values: seq<Embedding>): seq<Item>
    requires |keys| == |values|
  {
    if keys == [] then list
    else
      var n := |keys| - 1;
      PutLast(PutAllLast(list, keys[..n], values[..n]), keys[n], values[n])
  }

  /** The same operation on the list. */
  function ListStep(strategy: Strategy, maxSize: nat, op: Op, list: seq<Item>): seq<Item>
    requires IsAligned(op)
  {
    match op
    case PutOne(key, value, _) => Bounded(PutLast(list, key, value), maxSize)
    case GetOne(key, _) => if strategy == FIFO then list else Touched(list, key)
    case PutMany(keys, values, _) => Bounded(PutAllLast(list, keys, values), maxSize)
    case GetMany(keys, _) => if strategy == FIFO then list else TouchedAll(list, keys)
    case ClearAll => []
    case LoadSaved(_, saved, _) => saved
  }

  function ListFinds(op: Op, list: seq<Item>): seq<Option<Embedding>> {
    match op
    case GetOne(key, _) => [Lookup(list, key)]
    case GetMany(keys, _) => seq(|keys|, i requires 0 <= i < |keys| => Lookup(list, keys[i]))
    case _ => []
  }

  lemma GetRefines(strategy: Strategy, cache: Cache, list: seq<Item>, now: int, key: string, t: nat)
    requires Refines(strategy, cache, list, now) && now < t
    ensures Refines(strategy, AfterGet(cache, key, t), if strategy == FIFO then list else Touched(list, key), t)
  {
    hide Holds, KeysDistinct, UsedBefore, PutLast, Lookup;
    FoundIsLookup(strategy, cache, list, now, key);
    if strategy == FIFO {
      GetKeepsOrder(cache, list, now, key, t);
    } else if key in cache {
      MoveRefines(strategy, cache, list, now, key, Accessed(cache[key], t));
    } else {
      assert forall i :: 0 <= i < |list| ==> Matches(strategy, cache, list[i], now);
    }
  }

  /** Under FIFO a lookup does not change the order. */
  lemma GetKeepsOrder(cache: Cache, list: seq<Item>, now: int, key: string, t: nat)
    requires Refines(FIFO, cache, list, now) && now < t
    ensures Refines(FIFO, AfterGet(cache, key, t), list, t)
  {
    forall i | 0 <= i < |list|
      ensures Matches(FIFO, AfterGet(cache, key, t), list[i], t)
    {
      assert Matches(FIFO, cache, list[i], now);
    }
    forall i, j | 0 <= i < j < |list|
      ensures UsedBefore(FIFO, AfterGet(cache, key, t), list[i].key, list[j].key)
    {
      assert UsedBefore(FIFO, cache, list[i].key, list[j].key);
    }
  }

  lemma {:induction false} GetsRefine(strategy: Strategy, cache: Cache, list: seq<Item>, now: int, keys: seq<string>,
                                      times: seq<nat>)
    requires Refines(strategy, cache, list, now) && |keys| == |times| && Increasing(times, now)
    ensures var later := if times == [] then now else times[|times| - 1];
            Refines(strategy, AfterGets(cache, keys, times),
                if strategy == FIFO then list else TouchedAll(list, keys), later)
  {
    hide Refines;
    if keys != [] {
      var n := |keys| - 1;
      GetsRefine(strategy, cache, list, now, keys[..n], times[..n]);
      GetRefines(strategy, AfterGets(cache, keys[..n], times[..n]),
          if strategy == FIFO then list else TouchedAll(list, keys[..n]),
                 if n == 0 then now else times[n - 1], keys[n], times[n]);
    }
  }

  lemma {:induction false} PutsRefine(strategy: Strategy, cache: Cache, list: seq<Item>, now: int, keys: seq<string>,
                                      values: seq<Embedding>, times: seq<nat>)
    requires Refines(strategy, cache, list, now) && |keys| == |values| == |times| && Increasing(times, now)
    ensures var later := if times == [] then now else times[|times| - 1];
            Refines(strategy, WithAll(cache, keys, values, times), PutAllLast(list, keys, values), later)
  {
    hide Refines;
    if keys != [] {
      var n := |keys| - 1;
      PutsRefine(strategy, cache, list, now, keys[..n], values[..n], times[..n]);
      MoveRefines(strategy, WithAll(cache, keys[..n], values[..n], times[..n]),
          PutAllLast(list, keys[..n], values[..n]),
                  if n == 0 then now else times[n - 1], keys[n], NewEntry(values[n], times[n]));
    }
  }

  /** Every operation on the cache is the same operation on the list. */
  lemma StepRefines(strategy: Strategy, maxSize: nat, op: Op, before: Cache, after: Cache,
                    found: seq<Option<Embedding>>, list: seq<Item>, now: int)
    requires IsTimed(strategy, op, now) && Refines(strategy, before, list, now)
            && CacheStep(strategy, maxSize, op, before, after, found)
    ensures Refines(strategy, after, ListStep(strategy, maxSize, op, list), Ends(op, now))
            && found == ListFinds(op, list)
  {
    hide Refines, Evicted, PutLast, Touched, Bounded, PutAllLast, TouchedAll, Lookup;
    match op {
      case PutOne(key, value, t) =>
        MoveRefines(strategy, before, list, now, key, NewEntry(value, t));
        EvictionRefines(strategy, maxSize, before[key := NewEntry(value, t)], after, PutLast(list, key, value), t);
      case GetOne(key, t) =>
        FoundIsLookup(strategy, before, list, now, key);
        GetRefines(strategy, before, list, now, key, t);
      case PutMany(keys, values, times) =>
        PutsRefine(strategy, before, list, now, keys, values, times);
        EvictionRefines(strategy, maxSize, WithAll(before, keys, values, times), after, PutAllLast(list, keys, values),
            Ends(op, now));
      case GetMany(keys, times) =>
        GetsRefine(strategy, before, list, now, keys, times);
        forall i | 0 <= i < |keys|
          ensures Found(before, keys[i]) == Lookup(list, keys[i])
        {
          FoundIsLookup(strategy, before, list, now, keys[i]);
        }
      case ClearAll =>
        OnlyOrdered(strategy, before, list, now);
        EmptyRefines(strategy, now);
      case LoadSaved(data, saved, asOf) =>
        RefinesLater(strategy, data, saved, asOf, Ends(op, now));
    }
  }

  lemma OnlyOrdered(strategy: Strategy, cache: Cache, list: seq<Item>, now: int)
    requires Refines(strategy, cache, list, now)
    ensures strategy != LFU
  {
  }

  lemma EmptyRefines(strategy: Strategy, now: int)
    requires strategy != LFU
    ensures Refines(strategy, map[], [], now)
  {
  }

  lemma RefinesLater(strategy: Strategy, cache: Cache, list: seq<Item>, now: int, later: int)
    requires Refines(strategy, cache, list, now) && now <= later
    ensures Refines(strategy, cache, list, later)
  {
    forall i | 0 <= i < |list|
      ensures Matches(strategy, cache, list[i], later)
    {
      assert Matches(strategy, cache, list[i], now);
    }
  }

  /** When a run that starts after `now` last read the clock. */
  function EndsAll(ops: seq<Op>, now: int): int {
    if ops == [] then now else Ends(ops[|ops| - 1], EndsAll(ops[..|ops| - 1], now))
  }

  ghost predicate AllTimed(strategy: Strategy, ops: seq<Op>, now: int) {
    ops == [] || (AllTimed(strategy, ops[..|ops| - 1], now)
        && IsTimed(strategy, ops[|ops| - 1], EndsAll(ops[..|ops| - 1], now)))
  }

  /** The caches a cache goes through after `now`, however the map orders its entries. */
  ghost predicate IsRun(strategy: Strategy, maxSize: nat, ops: seq<Op>, caches: seq<Cache>,
                        founds: seq<seq<Option<Embedding>>>, now: int) {
    && AllTimed(strategy, ops, now) && |caches| == |ops| + 1 && |founds| == |ops|
    && (ops == [] ||
        (var n := |ops| - 1;
         IsRun(strategy, maxSize, ops[..n], caches[..n + 1], founds[..n], now)
         && CacheStep(strategy, maxSize, ops[n], caches[n], caches[n + 1], founds[n])))
  }

  function ListAfter(strategy: Strategy, maxSize: nat, ops: seq<Op>, list: seq<Item>): seq<Item>
    requires forall op :: op in ops ==> IsAligned(op)
  {
    if ops == [] then list
    else
      assert ops[|ops| - 1] in ops;
      ListStep(strategy, maxSize, ops[|ops| - 1], ListAfter(strategy, maxSize, ops[..|ops| - 1], list))
  }

  lemma {:induction false} TimedIsAligned(strategy: Strategy, ops: seq<Op>, now: int)
    requires AllTimed(strategy, ops, now)
    ensures forall op :: op in ops ==> IsAligned(op)
  {
    if ops != [] {
      TimedIsAligned(strategy, ops[..|ops| - 1], now);
    }
  }

  /** Refinement of LRU and FIFO: with a clock that never shows the same time twice, after any run from a cache
      that refines a list, an empty cache and list for one, the keys are those of the bounded list, with
      the last value put for each, and a lookup finds what the list holds. */
  lemma {:induction false} RunsRefine(strategy: Strategy, maxSize: nat, ops: seq<Op>, caches: seq<Cache>,
                                      founds: seq<seq<Option<Embedding>>>, list: seq<Item>, now: int)
    requires IsRun(strategy, maxSize, ops, caches, founds, now) && Refines(strategy, caches[0], list, now)
    ensures forall op :: op in ops ==> IsAligned(op)
    ensures Refines(strategy, caches[|ops|], ListAfter(strategy, maxSize, ops, list), EndsAll(ops, now))
    ensures ops != [] ==>
              founds[|ops| - 1] == ListFinds(ops[|ops| - 1], ListAfter(strategy, maxSize, ops[..|ops| - 1], list))
    decreases |ops|
  {
    hide CacheStep, ListStep, Refines, IsTimed;
    TimedIsAligned(strategy, ops, now);
    if ops != [] {
      var n := |ops| - 1;
      RunsRefine(strategy, maxSize, ops[..n], caches[..n + 1], founds[..n], list, now);
      StepRefines(strategy, maxSize, ops[n], caches[n], caches[n + 1], founds[n],
          ListAfter(strategy, maxSize, ops[..n], list),
          EndsAll(ops[..n], now));
    }
  }

  // ---- A batch is as good as its puts one by one ----

  lemma PutLastDistinct(list: seq<Item>, key: string, value: Embedding)
    requires KeysDistinct(list)
    ensures KeysDistinct(PutLast(list, key, value)) && |list| <= |PutLast(list, key, value)|
  {
    hide WithoutKey;
    if Holds(list, key) {
      var i :| 0 <= i < |list| && list[i].key == key;
      WithoutKeyAt(list, key, i);
    } else {
      WithoutKeyIfAbsent(list, key);
    }
  }

  /** Items too old to be kept before a put are too old after it. */
  lemma BoundedThenPut(list: seq<Item>, maxSize: nat, key: string, value: Embedding)
    requires KeysDistinct(list)
    ensures Bounded(PutLast(Bounded(list, maxSize), key, value), maxSize) == Bounded(PutLast(list, key, value), maxSize)
  {
    hide WithoutKey;
    if |list| > maxSize {
      var n := |list| - maxSize;
      var recent := list[n..];
      assert list == list[..n] + recent;
      WithoutKeyConcat(list[..n], recent, key);
      PutLastDistinct(recent, key, value);
      assert PutLast(list, key, value) == WithoutKey(list[..n], key) + PutLast(recent, key, value);
    }
  }

  function PutOneByOne(list: seq<Item>, maxSize: nat, keys: seq<string>, values: seq<Embedding>): seq<Item>
    requires |keys| == |values|
  {
    if keys == [] then list
    else
      var n := |keys| - 1;
      Bounded(PutLast(PutOneByOne(list, maxSize, keys[..n], values[..n]), keys[n], values[n]), maxSize)
  }

  lemma {:induction false} PutAllLastDistinct(list: seq<Item>, keys: seq<string>, values: seq<Embedding>)
    requires KeysDistinct(list) && |keys| == |values|
    ensures KeysDistinct(PutAllLast(list, keys, values))
  {
    if keys != [] {
      var n := |keys| - 1;
      PutAllLastDistinct(list, keys[..n], values[..n]);
      PutLastDistinct(PutAllLast(list, keys[..n], values[..n]), keys[n], values[n]);
    }
  }

  /** Cutting down to size once, after all the puts of a batch, leaves what cutting down after each
      one would have left; an empty batch still cuts down a list that is too long. */
  lemma {:induction false} BatchIsOneByOne(list: seq<Item>, maxSize: nat, keys: seq<string>, values: seq<Embedding>)
    requires KeysDistinct(list) && |keys| == |values|
    ensures Bounded(PutAllLast(list, keys, values), maxSize) == PutOneByOne(list, maxSize, keys, values)
            <==> keys != [] || |list| <= maxSize
  {
    hide PutLast, KeysDistinct;
    if |keys| > 1 {
      var n := |keys| - 1;
      BatchIsOneByOne(list, maxSize, keys[..n], values[..n]);
      PutAllLastDistinct(list, keys[..n], values[..n]);
      BoundedThenPut(PutAllLast(list, keys[..n], values[..n]), maxSize, keys[n], values[n]);
    } else if |keys| == 1 {
      assert keys[..0] == [] && values[..0] == [];
    }
  }

  /** Caches that refine the same list hold the same keys and values. */
  lemma SameListSameContents(strategy: Strategy, a: Cache, b: Cache, list: seq<Item>, nowA: int, nowB: int)
    requires Refines(strategy, a, list, nowA) && Refines(strategy, b, list, nowB)
    ensures a.Keys == b.Keys && forall k :: Found(a, k) == Found(b, k)
  {
    forall k
      ensures Found(a, k) == Found(b, k) && (k in a <==> k in b)
    {
      FoundIsLookup(strategy, a, list, nowA, k);
      FoundIsLookup(strategy, b, list, nowB, k);
    }
  }

  /** The puts of a batch as operations of their own. */
  function Singly(keys: seq<string>, values: seq<Embedding>, times: seq<nat>): (ops: seq<Op>)
    requires |keys| == |values| == |times|
    ensures |ops| == |keys| && forall op :: op in ops ==> IsAligned(op)
  {
    seq(|keys|, i requires 0 <= i < |keys| => PutOne(keys[i], values[i], times[i]))
  }

  lemma {:induction false} ListAfterSingly(strategy: Strategy, maxSize: nat, list: seq<Item>, keys: seq<string>,
                                           values: seq<Embedding>, times: seq<nat>)
    requires |keys| == |values| == |times|
    ensures ListAfter(strategy, maxSize, Singly(keys, values, times), list) == PutOneByOne(list, maxSize, keys, values)
  {
    hide PutLast, Bounded;
    if keys != [] {
      var n := |keys| - 1;
      ListAfterSingly(strategy, maxSize, list, keys[..n], values[..n], times[..n]);
      assert Singly(keys, values, times)[..n] == Singly(keys[..n], values[..n], times[..n]);
    }
  }

  lemma RefinedSize(strategy: Strategy, cache: Cache, list: seq<Item>, now: int)
    requires Refines(strategy, cache, list, now)
    ensures |list| == |cache|
  {
    EntriesEnumerate(strategy, cache, list, now);
    EnumerationCounts(Entries(cache, list), cache);
  }

  /** From any cache that refines a list, one batch and the same puts one by one, each with a clock of
      its own, leave the same keys and values, whatever the order of the map; except that an empty
      batch evicts from an oversized cache, and no puts do not. */
  lemma BatchLeavesTheSame(strategy: Strategy, maxSize: nat, before: Cache, list: seq<Item>, now: int,
                           keys: seq<string>, values: seq<Embedding>, times: seq<nat>, batch: Cache, clock: seq<nat>,
                           caches: seq<Cache>, founds: seq<seq<Option<Embedding>>>)
    requires Refines(strategy, before, list, now) && |keys| == |values| == |times| == |clock| && Increasing(times, now)
    requires CacheStep(strategy, maxSize, PutMany(keys, values, times), before, batch, [])
    requires IsRun(strategy, maxSize, Singly(keys, values, clock), caches, founds, now) && caches[0] == before
    ensures (batch.Keys == caches[|keys|].Keys && forall k :: Found(batch, k) == Found(caches[|keys|], k))
            <==> keys != [] || |before| <= maxSize
  {
    hide Refines, AllTimed, Increasing, CacheStep, Singly, ListAfter, Found;
    var op, ones := PutMany(keys, values, times), Singly(keys, values, clock);
    RefinedSize(strategy, before, list, now);
    if keys != [] || |before| <= maxSize {
      StepRefines(strategy, maxSize, op, before, batch, [], list, now);
      RunsRefine(strategy, maxSize, ones, caches, founds, list, now);
      ListAfterSingly(strategy, maxSize, list, keys, values, clock);
      RefinedDistinct(strategy, before, list, now);
      BatchIsOneByOne(list, maxSize, keys, values);
      SameListSameContents(strategy, batch, caches[|keys|], PutOneByOne(list, maxSize, keys, values), Ends(op, now),
          EndsAll(ones, now));
    } else {
      EmptyBatchEvicts(strategy, maxSize, before, batch, times);
    }
  }

  lemma RefinedDistinct(strategy: Strategy, cache: Cache, list: seq<Item>, now: int)
    requires Refines(strategy, cache, list, now)
    ensures KeysDistinct(list)
  {
  }

  lemma EmptyBatchEvicts(strategy: Strategy, maxSize: nat, before: Cache, batch: Cache, times: seq<nat>)
    requires times == [] && maxSize < |before|
            && CacheStep(strategy, maxSize, PutMany([], [], times), before, batch, [])
    ensures batch.Keys != before.Keys
  {
    assert |batch.Keys| == maxSize < |before.Keys|;
  }

  // ---- How often an entry was used ----

  function Count(keys: seq<string>, key: string): nat {
    if keys == [] then 0 else Count(keys[..|keys| - 1], key) + (if keys[|keys| - 1] == key then 1 else 0)
  }

  /** How often a key was used since it was last put, counting the put. */
  function UsesAfter(ops: seq<Op>, key: string, start: Cache): nat {
    if ops == [] then (if key in start then start[key].accessCount else 0)
    else
      var before := UsesAfter(ops[..|ops| - 1], key, start);
      match ops[|ops| - 1]
      case PutOne(k, _, _) => if k == key then 1 else before
      case GetOne(k, _) => if k == key then before + 1 else before
      case PutMany(keys, _, _) => if key in keys then 1 else before
      case GetMany(keys, _) => before + Count(keys, key)
      case ClearAll => 0
      case LoadSaved(data, _, _) => if key in data then data[key].accessCount else 0
  }

  lemma {:induction false} PutsStartAtOne(cache: Cache, keys: seq<string>, values: seq<Embedding>, times: seq<nat>,
                                          key: string)
    requires |keys| == |values| == |times|
    ensures var after := WithAll(cache, keys, values, times);
            && (key in keys ==> key in after && after[key].accessCount == 1)
            && (key !in keys && key in after ==> key in cache && after[key] == cache[key])
  {
    if keys != [] {
      var n := |keys| - 1;
      PutsStartAtOne(cache, keys[..n], values[..n], times[..n], key);
      assert key in keys <==> key in keys[..n] || key == keys[n];
    }
  }

  lemma {:induction false} GetsAddUp(cache: Cache, keys: seq<string>, times: seq<nat>, key: string)
    requires |keys| == |times|
    ensures var after := AfterGets(cache, keys, times);
            && (key in after <==> key in cache)
            && (key in cache ==> after[key].accessCount == cache[key].accessCount + Count(keys, key))
  {
    if keys != [] {
      var n := |keys| - 1;
      GetsAddUp(cache, keys[..n], times[..n], key);
    }
  }

  /** Under every strategy an entry's count is the number of its uses since it was last put, evictions or
      not; so LFU evicts what it should. */
  lemma {:induction false} UsesAreCounted(strategy: Strategy, maxSize: nat, ops: seq<Op>, caches: seq<Cache>,
                                          founds: seq<seq<Option<Embedding>>>, now: int, key: string)
    requires IsRun(strategy, maxSize, ops, caches, founds, now)
    ensures key in caches[|ops|] ==> caches[|ops|][key].accessCount == UsesAfter(ops, key, caches[0])
    decreases |ops|
  {
    hide IsTimed, RanksBelow;
    if ops != [] {
      var n := |ops| - 1;
      UsesAreCounted(strategy, maxSize, ops[..n], caches[..n + 1], founds[..n], now, key);
      LastIsAligned(strategy, ops, now);
      match ops[n] {
        case PutMany(keys, values, times) => PutsStartAtOne(caches[n], keys, values, times, key);
        case GetMany(keys, times) => GetsAddUp(caches[n], keys, times, key);
        case _ =>
      }
    }
  }

  lemma LastIsAligned(strategy: Strategy, ops: seq<Op>, now: int)
    requires AllTimed(strategy, ops, now) && ops != []
    ensures IsAligned(ops[|ops| - 1])
  {
  }

  // ---- Does a fresh entry stay? ----

  /** Under LRU and FIFO an entry put later than all others stays, whatever the order of the map,
      exactly if the cache may hold anything. */
  lemma FreshEntryStays(strategy: Strategy, maxSize: nat, cache: Cache, key: string, value: Embedding, now: nat)
    requires strategy != LFU
    requires forall k :: k in cache ==> cache[k].lastAccessed < now && cache[k].createdAt < now
    ensures (forall after :: Evicted(strategy, maxSize, cache[key := NewEntry(value, now)], after) ==> key in after)
            <==> maxSize >= 1
  {
    var before := cache[key := NewEntry(value, now)];
    if maxSize == 0 {
      var none: Cache := map[];
      assert key in before;
      assert Evicted(strategy, maxSize, before, none);
    } else {
      forall after | Evicted(strategy, maxSize, before, after)
        ensures key in after
      {
        assert |before| > 0 by { assert key in before.Keys; }
        assert |after.Keys| >= 1;
        var k :| k in after.Keys;
      }
    }
  }

  lemma {:induction false} InsertKeepsFirst(s: seq<Keyed>, x: Keyed, leq: (Keyed, Keyed) -> bool)
    requires s != [] && leq(s[0], x)
    ensures Insert(s, x, leq) != [] && Insert(s, x, leq)[0] == s[0]
  {
    if !leq(s[|s| - 1], x) {
      InsertKeepsFirst(s[..|s| - 1], x, leq);
    }
  }

  lemma {:induction false} SortKeepsFirst(s: seq<Keyed>, leq: (Keyed, Keyed) -> bool)
    requires s != [] && forall i :: 0 < i < |s| ==> leq(s[0], s[i])
    ensures Sort(s, leq) != [] && Sort(s, leq)[0] == s[0]
  {
    if |s| > 1 {
      SortKeepsFirst(s[..|s| - 1], leq);
      InsertKeepsFirst(Sort(s[..|s| - 1], leq), s[|s| - 1], leq);
    } else {
      assert s[..|s| - 1] == [];
    }
  }

  lemma {:induction false} SomeEnumeration(cache: Cache) returns (entries: seq<Keyed>)
    ensures Enumerates(entries, cache)
    decreases |cache|
  {
    if cache == map[] {
      entries := [];
    } else {
      assert cache.Keys != {};
      var key :| key in cache;
      assert cache.Keys == (cache - {key}).Keys + {key};
      entries := SomeEnumeration(cache - {key});
      entries := ConsEnumeration(entries, cache, key);
    }
  }

  lemma ConsEnumeration(rest: seq<Keyed>, cache: Cache, key: string) returns (entries: seq<Keyed>)
    requires key in cache && Enumerates(rest, cache - {key})
    ensures entries == [Keyed(key, cache[key])] + rest && Enumerates(entries, cache)
  {
    entries := [Keyed(key, cache[key])] + rest;
    assert forall i :: 0 < i < |entries| ==> entries[i] in rest;
    forall k | k in cache
      ensures Keyed(k, cache[k]) in entries
    {
      assert k != key ==> Keyed(k, (cache - {key})[k]) in rest;
    }
  }

  /** Under LFU a fresh entry, used only once, is sure to stay exactly if nothing has to go: as soon as
      the cache is over its size, the eviction that the put itself sets off may take it. */
  lemma FreshEntryMayEvictItself(maxSize: nat, cache: Cache, key: string, value: Embedding, now: nat)
    requires forall k :: k in cache ==> cache[k].accessCount >= 1
    ensures (forall after :: Evicted(LFU, maxSize, cache[key := NewEntry(value, now)], after) ==> key in after)
            <==> |cache[key := NewEntry(value, now)]| <= maxSize
  {
    var before := cache[key := NewEntry(value, now)];
    if |before| <= maxSize {
      forall after | Evicted(LFU, maxSize, before, after)
        ensures key in after
      {
        NothingToEvict(LFU, maxSize, before, after);
      }
    } else {
      var after := EvictFirst(maxSize, before, key);
    }
  }

  /** A lowest-ranking entry that the map gives first is the first to go. */
  lemma EvictFirst(maxSize: nat, before: Cache, key: string) returns (after: Cache)
    requires key in before && maxSize < |before|
    requires forall k :: k in before ==> RanksBelow(LFU, before[key], before[k])
    ensures Evicted(LFU, maxSize, before, after) && key !in after
  {
    hide MapOf, Evicted, Sort, Enumerates, RanksBelow, Sorted;
    var rest := SomeEnumeration(before - {key});
    var entries := ConsEnumeration(rest, before, key);
    EnumerationCounts(entries, before);
    SortedEnumeration(LFU, entries, before);
    FirstRanksLowest(entries, before, key);
    SortKeepsFirst(entries, ByRank(LFU));
    var sorted := SortedByRank(LFU, entries);
    DrainingEvicts(LFU, maxSize, sorted, before);
    after := MapOf(sorted[|sorted| - maxSize..]);
    FirstIsDrained(sorted, before, |sorted| - maxSize);
  }

  lemma FirstRanksLowest(entries: seq<Keyed>, before: Cache, key: string)
    requires Enumerates(entries, before) && entries != [] && entries[0].key == key && key in before
    requires forall k :: k in before ==> RanksBelow(LFU, before[key], before[k])
    ensures forall i :: 0 < i < |entries| ==> ByRank(LFU)(entries[0], entries[i])
  {
    forall i | 0 < i < |entries|
      ensures ByRank(LFU)(entries[0], entries[i])
    {
      assert entries[0] in entries && entries[i] in entries;
    }
  }

  lemma FirstIsDrained(sorted: seq<Keyed>, before: Cache, n: nat)
    requires Enumerates(sorted, before) && 0 < n <= |sorted|
    ensures sorted[0].key !in MapOf(sorted[n..])
  {
    hide MapOf;
    SuffixOfEnumeration(sorted, before, n);
  }
}
