/** Cache capacity and least-recently-used eviction. */
module AclCapacity {
  import opened Prelude
  import opened Ordering
  import opened AclTypes
  import opened AclEngine

  /** `order` visits every key of `keys`, and no key twice. */
  ghost predicate Visits(order: seq<CacheKey>, keys: set<CacheKey>) {
    && (forall k :: k in keys ==> k in order)
    && forall i, j :: 0 <= i < j < |order| ==> order[i] != order[j]
  }

  ghost predicate DistinctKeys(stamps: seq<Stamp>) {
    forall i, j :: 0 <= i < j < |stamps| ==> stamps[i].key != stamps[j].key
  }

  lemma {:induction false} ListingStamps(cache: Cache, order: seq<CacheKey>)
    ensures forall s :: s in Listing(cache, order) ==> s.key in cache && s.at == cache[s.key].lastAccess
  {
    if order != [] {
      ListingStamps(cache, order[1..]);
    }
  }

  lemma {:induction false} ListingDistinct(cache: Cache, order: seq<CacheKey>)
    requires forall i, j :: 0 <= i < j < |order| ==> order[i] != order[j]
    ensures DistinctKeys(Listing(cache, order))
    ensures forall s :: s in Listing(cache, order) ==> s.key in order
    ensures forall k :: k in order && k in cache ==> Stamp(k, cache[k].lastAccess) in Listing(cache, order)
  {
    if order != [] {
      ListingDistinct(cache, order[1..]);
      var rest := Listing(cache, order[1..]);
      assert order == [order[0]] + order[1..];
      forall j | 0 <= j < |rest| ensures rest[j].key != order[0] {
        assert rest[j] in rest;
        var i :| 0 <= i < |order[1..]| && order[1..][i] == rest[j].key;
        assert order[i + 1] == rest[j].key;
      }
    }
  }

  lemma {:induction false} StampKeysSize(stamps: seq<Stamp>)
    requires DistinctKeys(stamps)
    ensures |StampKeys(stamps)| == |stamps|
  {
    if stamps != [] {
      StampKeysSize(stamps[1..]);
      assert stamps == [stamps[0]] + stamps[1..];
      assert StampKeys(stamps) == {stamps[0].key} + StampKeys(stamps[1..]);
      assert stamps[0].key !in StampKeys(stamps[1..]) by {
        forall s | s in stamps[1..] ensures s.key != stamps[0].key {
          var i :| 0 <= i < |stamps[1..]| && stamps[1..][i] == s;
          assert stamps[i + 1] == s;
        }
      }
    } else {
      assert StampKeys(stamps) == {};
    }
  }

  /** Distinct keys are a property of the multiset, so sorting keeps it. */
  lemma DistinctUnderSort(stamps: seq<Stamp>, sorted: seq<Stamp>)
    requires DistinctKeys(stamps) && multiset(sorted) == multiset(stamps)
    ensures DistinctKeys(sorted)
  {
    forall i, j | 0 <= i < j < |sorted| ensures sorted[i].key != sorted[j].key {
      var x, y := sorted[i], sorted[j];
      assert x in multiset(sorted) && y in multiset(sorted);
      var a :| 0 <= a < |stamps| && stamps[a] == x;
      var b :| 0 <= b < |stamps| && stamps[b] == y;
      if a == b {
        OccursTwice(sorted, i, j);
        OccursOnce(stamps, a);
      }
    }
  }

  lemma OccursTwice(sorted: seq<Stamp>, i: nat, j: nat)
    requires i < j < |sorted| && sorted[i] == sorted[j]
    ensures multiset(sorted)[sorted[i]] >= 2
  {
    var x := sorted[i];
    var front, back := sorted[..j], sorted[j..];
    assert x in front && sorted == front + back;
    assert back[0] == x && x in back;
    assert multiset(sorted) == multiset(front) + multiset(back);
  }

  lemma OccursOnce(stamps: seq<Stamp>, a: nat)
    requires DistinctKeys(stamps) && a < |stamps|
    ensures multiset(stamps)[stamps[a]] == 1
  {
    assert stamps == stamps[..a] + [stamps[a]] + stamps[a + 1..];
    assert stamps[a] !in stamps[..a];
    assert stamps[a] !in stamps[a + 1..];
  }

  /** The stamps of all entries, oldest first, without repetition. */
  lemma SortedStamps(recent: Cache, order: seq<CacheKey>) returns (sorted: seq<Stamp>)
    requires Visits(order, recent.Keys)
    ensures sorted == SortBy(Listing(recent, order), OlderFirst)
    ensures DistinctKeys(sorted) && Pairwise(sorted, OlderFirst)
    ensures StampKeys(sorted) == recent.Keys && |sorted| == |recent|
    ensures forall s :: s in sorted ==> s.key in recent && s.at == recent[s.key].lastAccess
  {
    var stamps := Listing(recent, order);
    sorted := SortBy(stamps, OlderFirst);
    ListingDistinct(recent, order);
    ListingStamps(recent, order);
    SortSorted(stamps, OlderFirst);
    SortElements(stamps, OlderFirst);
    DistinctUnderSort(stamps, sorted);
    StampKeysSize(sorted);
    forall k | k in recent ensures k in StampKeys(sorted) {
      assert Stamp(k, recent[k].lastAccess) in sorted;
    }
    assert StampKeys(sorted) == recent.Keys;
    assert |recent| == |recent.Keys|;
  }

  lemma GoneIsOlder(recent: Cache, sorted: seq<Stamp>, n: nat, evicted: CacheKey, k: CacheKey)
    requires n <= |sorted| && Pairwise(sorted, OlderFirst) && StampKeys(sorted) == recent.Keys
    requires forall s :: s in sorted ==> s.key in recent && s.at == recent[s.key].lastAccess
    requires evicted in StampKeys(sorted[..n]) && k in recent && k !in StampKeys(sorted[..n])
    ensures evicted in recent && recent[evicted].lastAccess <= recent[k].lastAccess
  {
    var x :| x in sorted[..n] && x.key == evicted;
    var i :| 0 <= i < n && sorted[i] == x;
    assert k in StampKeys(sorted);
    var y :| y in sorted && y.key == k;
    var j :| 0 <= j < |sorted| && sorted[j] == y;
    if j < n { assert false; }
    assert OlderFirst(sorted[i], sorted[j]);
  }

  lemma KeptCount(recent: Cache, sorted: seq<Stamp>, n: nat)
    requires n <= |sorted| && DistinctKeys(sorted) && StampKeys(sorted) == recent.Keys && |sorted| == |recent|
    ensures |recent - StampKeys(sorted[..n])| == |recent| - n
  {
    var gone := sorted[..n];
    var kept := recent - StampKeys(gone);
    StampKeysSize(gone);
    assert forall s :: s in gone ==> s in sorted;
    assert StampKeys(gone) <= recent.Keys;
    assert kept.Keys == recent.Keys - StampKeys(gone);
    assert |kept| == |kept.Keys|;
  }

  /** Removing the first `n` of the sorted stamps removes `n` entries, none newer than a kept one. */
  lemma RemoveOldest(recent: Cache, sorted: seq<Stamp>, n: nat)
    requires n <= |sorted| && DistinctKeys(sorted) && Pairwise(sorted, OlderFirst)
    requires StampKeys(sorted) == recent.Keys && |sorted| == |recent|
    requires forall s :: s in sorted ==> s.key in recent && s.at == recent[s.key].lastAccess
    ensures var kept := recent - StampKeys(sorted[..n]);
            && |kept| == |recent| - n
            && forall evicted, k :: evicted in recent && evicted !in kept && k in kept ==>
                 recent[evicted].lastAccess <= recent[k].lastAccess
  {
    KeptCount(recent, sorted, n);
    var kept := recent - StampKeys(sorted[..n]);
    forall evicted, k | evicted in recent && evicted !in kept && k in kept
      ensures recent[evicted].lastAccess <= recent[k].lastAccess
    {
      GoneIsOlder(recent, sorted, n, evicted, k);
    }
  }

  /**
   * Cleanup drops every idle entry. If more than `max` remain it goes on to exactly
   * `max - max/5`, and then no evicted entry was used later than a kept one.
   */
  lemma CleanupEvictsOldest(cache: Cache, max: nat, now: nat, order: seq<CacheKey>)
    requires Visits(order, RetainRecent(cache, now).Keys)
    ensures |Cleanup(cache, max, now, order)| <= max
    ensures var recent, kept := RetainRecent(cache, now), Cleanup(cache, max, now, order);
            && (|recent| <= max ==> kept == recent)
            && (|recent| > max ==> |kept| == max - max / 5)
            && forall evicted, k :: evicted in recent && evicted !in kept && k in kept ==>
                 recent[evicted].lastAccess <= recent[k].lastAccess
  {
    var recent := RetainRecent(cache, now);
    if |recent| > max {
      var sorted := SortedStamps(recent, order);
      RemoveOldest(recent, sorted, Overflow(|recent|, max));
    }
  }

  /** An entry is recent if it was used less than 15 seconds ago; in the first 15 seconds none is. */
  lemma RecentMeaning(cache: Cache, now: nat, k: CacheKey)
    requires k in cache && cache[k].lastAccess <= now
    ensures k in RetainRecent(cache, now) <==> now >= 15_000_000_000 && now < cache[k].lastAccess + 15_000_000_000
  {
  }

  /** The iteration order a map offers covers its own keys. */
  ghost predicate HonestOrder(s: AclState, ev: Event) {
    match ev
    case Packet(pkt, chain, _, order) => Visits(order, s.cache.Keys + {KeyOf(pkt, chain)})
    case SweepCache(order) => Visits(order, s.cache.Keys)
    case _ => true
  }

  ghost predicate HonestOrders(s: AclState, evs: seq<Event>)
    decreases |evs|
  {
    evs != [] ==> HonestOrder(s, evs[0]) && HonestOrders(StepCached(s, evs[0]).0, evs[1..])
  }

  lemma CacheResultBounded(cache: Cache, key: CacheKey, e: CacheEntry, max: nat, now: nat, order: seq<CacheKey>)
    requires |cache| <= 2 * max && Visits(order, cache.Keys + {key})
    ensures |CacheResult(cache, key, e, max, now, order)| <= 2 * max
  {
    var grown := cache[key := e];
    assert grown.Keys == cache.Keys + {key};
    assert RetainRecent(grown, now).Keys <= grown.Keys;
    CleanupEvictsOldest(grown, max, now, order);
  }

  /** A packet touches the entry it hits, caches the entry it lacks, or leaves the cache alone. */
  lemma PacketCache(s: AclState, pkt: PacketInfo, chain: ChainType, lag: nat, order: seq<CacheKey>)
    ensures var key, cache' := KeyOf(pkt, chain), ProcessPacket(s, pkt, chain, lag, order).0.cache;
            && (key in s.cache ==> cache'.Keys == s.cache.Keys)
            && (key !in s.cache ==>
                  || cache' == s.cache
                  || exists e, now :: cache' == CacheResult(s.cache, key, e, s.cacheMax, now, order))
    ensures ProcessPacket(s, pkt, chain, lag, order).0.cacheMax == s.cacheMax
  {
    var key := KeyOf(pkt, chain);
    if key in s.cache {
      assert s.cache[key := s.cache[key].(lastAccess := s.world.clock)].Keys == s.cache.Keys;
    }
  }

  lemma CapacityPacket(s: AclState, pkt: PacketInfo, chain: ChainType, lag: nat, order: seq<CacheKey>)
    requires |s.cache| <= 2 * s.cacheMax && Visits(order, s.cache.Keys + {KeyOf(pkt, chain)})
    ensures |ProcessPacket(s, pkt, chain, lag, order).0.cache| <= 2 * s.cacheMax
    ensures ProcessPacket(s, pkt, chain, lag, order).0.cacheMax == s.cacheMax
  {
    PacketCache(s, pkt, chain, lag, order);
    var key, cache' := KeyOf(pkt, chain), ProcessPacket(s, pkt, chain, lag, order).0.cache;
    if key in s.cache {
      assert |cache'| == |cache'.Keys| && |s.cache| == |s.cache.Keys|;
    } else if cache' != s.cache {
      var e, now :| cache' == CacheResult(s.cache, key, e, s.cacheMax, now, order);
      CacheResultBounded(s.cache, key, e, s.cacheMax, now, order);
    }
  }

  lemma CapacityStep(s: AclState, ev: Event)
    requires |s.cache| <= 2 * s.cacheMax && HonestOrder(s, ev)
    ensures |StepCached(s, ev).0.cache| <= 2 * s.cacheMax && StepCached(s, ev).0.cacheMax == s.cacheMax
  {
    match ev {
      case Packet(pkt, chain, lag, order) => CapacityPacket(s, pkt, chain, lag, order);
      case SweepCache(order) =>
        assert RetainRecent(s.cache, s.world.clock).Keys <= s.cache.Keys;
        CleanupEvictsOldest(s.cache, s.cacheMax, s.world.clock, order);
      case _ =>
    }
  }

  /** The cache never holds more than twice its nominal size, after any event of any run. */
  lemma {:induction false} CacheBounded(s: AclState, evs: seq<Event>)
    requires |s.cache| <= 2 * s.cacheMax && HonestOrders(s, evs)
    ensures |RunCached(s, evs).0.cache| <= 2 * s.cacheMax
    decreases |evs|
  {
    if evs != [] {
      CapacityStep(s, evs[0]);
      CacheBounded(StepCached(s, evs[0]).0, evs[1..]);
    }
  }
}
