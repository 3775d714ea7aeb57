/** `AclProcessor` itself: objects, shared tables and loops, proved equal to the step functions. */
module AclProcessors {
  import opened Prelude
  import opened AclTypes
  import opened AclRules
  import opened AclEngine
  import opened AclAnswers

  /** The tables that survive a hot reload; several processors may hold the same object. */
  class SharedTables {
    var conns: map<ConnKey, ConnEntry>
    var buckets: map<RateLimitKey, Bucket>
    var stats: map<StatKey, nat>

    constructor ()
      ensures conns == map[] && buckets == map[] && stats == map[]
    {
      conns, buckets, stats := map[], map[], map[];
    }
  }

  /** What recording a scan's result leaves, field by field. */
  lemma RecordedIs(s: AclState, pkt: PacketInfo, chain: ChainType, after: World, res: AclResult, order: seq<CacheKey>,
                   cache: Cache, stats: map<StatKey, nat>)
    requires chain != UnspecifiedChain
    requires res.log == RateLimitDrop ==> cache == s.cache && stats == s.stats
    requires res.log != RateLimitDrop ==>
               && stats == Bump(s.stats, ScanStat(s.world.rules(chain, pkt)))
               && cache == CacheResult(s.cache, KeyOf(pkt, chain), EntryFor(s.world.rules, pkt, chain, s.world.clock),
                                       s.cacheMax, after.clock, order)
    ensures Recorded(s, pkt, chain, after, res, order) == AclState(after, cache, s.cacheMax, stats, s.sweptAt)
  {
  }

  /** What a packet leaves when its key was not cached. */
  lemma MissLeaves(s: AclState, pkt: PacketInfo, chain: ChainType, lag: nat, order: seq<CacheKey>,
                   after: World, res: AclResult, cache: Cache, stats: map<StatKey, nat>)
    requires KeyOf(pkt, chain) !in s.cache
    requires (after, res) == Scan(s.world.(clock := s.world.clock + lag), pkt, chain)
    requires Recorded(s, pkt, chain, after, res, order) == AclState(after, cache, s.cacheMax, stats, s.sweptAt)
    ensures ProcessPacket(s, pkt, chain, lag, order) ==
            (AclState(after, cache, s.cacheMax, stats, s.sweptAt), Decided(res))
  {
    MissSettles(s, pkt, chain, lag, order);
  }

  class AclProcessor {
    const rules: Compiled
    const tables: SharedTables
    const cacheMax: nat := CACHE_MAX_SIZE
    var cache: Cache
    var counters: map<RuleRef, StatItem>
    ghost var sweptAt: Option<nat>

    ghost function Tables(clock: nat, wall: nat): World
      reads this, tables
    {
      World(RulingOf(rules), tables.buckets, tables.conns, counters, clock, wall)
    }

    ghost function State(clock: nat, wall: nat): AclState
      reads this, tables
    {
      AclState(Tables(clock, wall), cache, cacheMax, tables.stats, sweptAt)
    }

    /** `new_with_shared_state`: the tables are kept, cache and rule counters start afresh. */
    constructor (acl: Acl, shared: SharedTables)
      ensures tables == shared && rules == Compile(acl)
      ensures forall clock, wall ::
                State(clock, wall) ==
                  AclState(World(RulingOf(Compile(acl)), shared.buckets, shared.conns,
                                 map[], clock, wall), map[], CACHE_MAX_SIZE, shared.stats, None)
    {
      var inbound, outbound, forward := BuildRules(acl);
      rules := Compiled(inbound, outbound, forward,
                        DefaultFor(acl.Chains(), Inbound), DefaultFor(acl.Chains(), Outbound),
                        DefaultFor(acl.Chains(), Forward));
      tables := shared;
      cache, counters, sweptAt := map[], map[], None;
    }

    /** `check_rate_limit`; `None` is the panic. */
    method CheckLimit(key: RateLimitKey, rate: nat, burst: nat, allowCreate: bool, clock: nat, ghost wall: nat)
      returns (r: Option<bool>)
      modifies tables`buckets
      ensures var d := CheckRateLimit(old(Tables(clock, wall)), key, rate, burst, allowCreate);
              match d
              case Missing(w) => r == None && Tables(clock, wall) == w
              case Refused(w) => r == Some(false) && Tables(clock, wall) == w
              case Taken(w) => r == Some(true) && Tables(clock, wall) == w
    {
      if rate == 0 {
        return Some(true);
      }
      if key !in tables.buckets {
        if !allowCreate {
          return None;
        }
        tables.buckets := tables.buckets[key := Bucket(burst, burst, clock)];
      }
      tables.buckets := tables.buckets[key := tables.buckets[key].(lastUpdate := clock)];
      var b := tables.buckets[key];
      if 1 > b.capacity || b.tokens < 1 {
        return Some(false);
      }
      tables.buckets := tables.buckets[key := b.(tokens := b.tokens - 1)];
      return Some(true);
    }

    /** `check_connection_state`. */
    method CheckConnection(key: ConnKey, pkt: PacketInfo, ghost clock: nat, wall: nat)
      modifies tables`conns
      ensures Tables(clock, wall) == TouchConn(old(Tables(clock, wall)), key, pkt)
    {
      if key in tables.conns {
        var x := tables.conns[key];
        tables.conns := tables.conns[key :=
          x.(lastSeen := wall, packets := x.packets + 1, bytes := x.bytes + pkt.size, state := Established)];
      } else {
        tables.conns := tables.conns[key := ConnEntry(ConnKeyOf(pkt), pkt.protocol, New, wall, wall, 1, pkt.size)];
      }
    }

    /** `inc_cache_entry_stats`. */
    method IncStats(refs: seq<RuleRef>, size: nat)
      modifies this`counters
      ensures counters == Credit(old(counters), refs, size)
    {
      for i := 0 to |refs|
        invariant Credit(counters, refs[i..], size) == Credit(old(counters), refs, size)
      {
        var x := StatOf(counters, refs[i]);
        counters := counters[refs[i] := StatItem(x.packets + 1, x.bytes + size)];
        assert refs[i..][1..] == refs[i + 1..];
      }
    }

    method IncrementStat(key: StatKey)
      modifies tables`stats
      ensures tables.stats == Bump(old(tables.stats), key)
    {
      tables.stats := tables.stats[key := if key in tables.stats then tables.stats[key] + 1 else 1];
    }

    /** `process_packet_with_cache_entry`. */
    method ProcessWithEntry(pkt: PacketInfo, e: CacheEntry, clock: nat, wall: nat) returns (out: Outcome)
      modifies this`counters, tables`buckets, tables`conns
      ensures (Tables(clock, wall), out) == Replay(old(Tables(clock, wall)), pkt, e)
    {
      ghost var before := Tables(clock, wall);
      for i := 0 to |e.rateKeys|
        invariant tables.conns == old(tables.conns) && counters == old(counters)
        invariant DrawAll(Tables(clock, wall), e.rateKeys[i..]) == DrawAll(before, e.rateKeys)
      {
        assert e.rateKeys[i..][1..] == e.rateKeys[i + 1..];
        var taken := CheckLimit(e.rateKeys[i], 1, 1, false, clock, wall);
        if taken.None? {
          return Panicked;
        }
        if !taken.value {
          return Decided(AclResult(Drop, e.matchedRule, RateLimitDrop));
        }
      }
      if e.connKey.Some? {
        CheckConnection(e.connKey.value, pkt, clock, wall);
      }
      IncStats(e.stats, pkt.size);
      return Decided(e.result);
    }

    method RemoveStamped(doomed: seq<Stamp>)
      modifies this`cache
      ensures cache == old(cache) - StampKeys(doomed)
    {
      for i := 0 to |doomed|
        invariant cache == old(cache) - StampKeys(doomed[..i])
      {
        assert doomed[..i + 1] == doomed[..i] + [doomed[i]];
        assert StampKeys(doomed[..i + 1]) == StampKeys(doomed[..i]) + {doomed[i].key};
        cache := cache - {doomed[i].key};
      }
      assert doomed[..|doomed|] == doomed;
    }

    /** `cleanup_cache`. */
    method CleanupCache(now: nat, order: seq<CacheKey>)
      modifies this`cache
      ensures cache == Cleanup(old(cache), cacheMax, now, order)
    {
      cache := RetainRecent(cache, now);
      if |cache| <= cacheMax {
        return;
      }
      RemoveStamped(Oldest(cache, order, Overflow(|cache|, cacheMax)));
    }

    /** `cache_result`. */
    method CacheEntryUnder(key: CacheKey, e: CacheEntry, now: nat, order: seq<CacheKey>)
      modifies this`cache
      ensures cache == CacheResult(old(cache), key, e, cacheMax, now, order)
    {
      cache := cache[key := e];
      if |cache| > cacheMax * 2 {
        CleanupCache(now, order);
      }
    }

    /** The rule loop's body for a matching rule, up to caching: `None` when the limit refuses. */
    method ApplyRule(pkt: PacketInfo, chain: ChainType, index: nat, accessed: nat, clock: nat, wall: nat)
      returns (result: AclResult, entry: Option<CacheEntry>)
      requires chain != UnspecifiedChain && index < |rules.Rules(chain)|
      requires Decide(rules, chain, pkt) == Matched(index, rules.Rules(chain)[index])
      modifies this`counters, tables`buckets, tables`conns
      ensures (Tables(clock, wall), result) == Scan(old(Tables(clock, wall)), pkt, chain)
      ensures entry == if result.log == RateLimitDrop then None
              else Some(EntryFor(RulingOf(rules), pkt, chain, accessed))
    {
      var rule := rules.Rules(chain)[index];
      var rateKeys, credited := [], [];
      if rule.rateLimit > 0 {
        var ruleKey := RateLimitKey(chain, rule.priority);
        rateKeys := [ruleKey];
        credited := [RuleStatsOf(chain, index)];
        var taken := CheckLimit(ruleKey, rule.rateLimit, rule.burstLimit, true, clock, wall);
        if taken == Some(false) {
          return AclResult(Drop, Priority(rule.priority), RateLimitDrop), None;
        }
      }
      var connKey := None;
      if rule.stateful && rule.action == Allow {
        connKey := Some(ConnKeyOf(pkt));
        CheckConnection(ConnKeyOf(pkt), pkt, clock, wall);
        result := AclResult(Allow, Stateful(rule.priority), StatefulMatch(pkt.srcIp, pkt.dstIp));
      } else {
        result := AclResult(rule.action, Priority(rule.priority), RuleMatch(pkt.srcIp, pkt.dstIp, rule.action));
      }
      credited := credited + [RuleStatsOf(chain, index)];
      IncStats(credited, pkt.size);
      entry := Some(CacheEntry(result.matchedRule, accessed, connKey, rateKeys, result, credited));
    }

    /** The loop over the rules, then the default. */
    method ScanRules(pkt: PacketInfo, chain: ChainType, accessed: nat, clock: nat, wall: nat)
      returns (result: AclResult, entry: Option<CacheEntry>, stat: StatKey)
      requires chain != UnspecifiedChain
      modifies this`counters, tables`buckets, tables`conns
      ensures (Tables(clock, wall), result) == Scan(old(Tables(clock, wall)), pkt, chain)
      ensures entry == if result.log == RateLimitDrop then None
              else Some(EntryFor(RulingOf(rules), pkt, chain, accessed))
      ensures stat == ScanStat(RulingOf(rules)(chain, pkt))
      ensures forall acl :: rules == Compile(acl) ==> Answers(acl, old(Tables(clock, wall)), chain, pkt, result)
    {
      forall acl | rules == Compile(acl)
        ensures Answers(acl, Tables(clock, wall), chain, pkt, Scan(Tables(clock, wall), pkt, chain).1)
      {
        ScanAnswers(acl, Tables(clock, wall), chain, pkt);
      }
      var vector := rules.Rules(chain);
      for i := 0 to |vector|
        invariant FirstMatch(vector, pkt, i) == FirstMatch(vector, pkt, 0)
        invariant Tables(clock, wall) == old(Tables(clock, wall))
      {
        if Eligible(vector[i], pkt) {
          result, entry := ApplyRule(pkt, chain, i, accessed, clock, wall);
          return result, entry, RuleMatchesStat;
        }
      }
      var action := rules.Default(chain);
      IncStats([DefaultStats], pkt.size);
      result := DefaultResult(action);
      entry := Some(CacheEntry(DefaultId, accessed, None, [], result, [DefaultStats]));
      stat := if action == Drop then DefaultDrops else DefaultAllows;
    }

    method ProcessHit(pkt: PacketInfo, chain: ChainType, clock: nat, lag: nat, wall: nat, ghost order: seq<CacheKey>)
        returns (out: Outcome)
      requires KeyOf(pkt, chain) in cache
      modifies this`cache, this`counters, tables
      ensures out == ProcessPacket(old(State(clock, wall)), pkt, chain, lag, order).1
      ensures State(clock + lag, wall) == ProcessPacket(old(State(clock, wall)), pkt, chain, lag, order).0
    {
      var key := KeyOf(pkt, chain);
      cache := cache[key := cache[key].(lastAccess := clock)];
      IncrementStat(CacheHits);
      out := ProcessWithEntry(pkt, cache[key], clock + lag, wall);
    }

    /** The rest of `process_packet` after a miss: scan, then count and cache what was not refused. */
    method ScanAndCache(pkt: PacketInfo, chain: ChainType, accessed: nat, clock: nat, wall: nat, order: seq<CacheKey>)
        returns (result: AclResult)
      requires chain != UnspecifiedChain
      modifies this`cache, this`counters, tables
      ensures (Tables(clock, wall), result) == Scan(old(Tables(clock, wall)), pkt, chain)
      ensures result.log == RateLimitDrop ==> cache == old(cache) && tables.stats == old(tables.stats)
      ensures result.log != RateLimitDrop ==>
                && tables.stats == Bump(old(tables.stats), ScanStat(RulingOf(rules)(chain, pkt)))
                && cache == CacheResult(old(cache), KeyOf(pkt, chain), EntryFor(RulingOf(rules), pkt, chain, accessed),
                                        cacheMax, clock, order)
    {
      var entry, stat;
      result, entry, stat := ScanRules(pkt, chain, accessed, clock, wall);
      ghost var after := Tables(clock, wall);
      if entry.Some? {
        IncrementStat(stat);
        CacheEntryUnder(KeyOf(pkt, chain), entry.value, clock, order);
        assert Tables(clock, wall) == after;
      }
    }

    method ProcessMiss(pkt: PacketInfo, chain: ChainType, clock: nat, lag: nat, wall: nat, order: seq<CacheKey>)
        returns (out: Outcome)
      requires KeyOf(pkt, chain) !in cache && chain != UnspecifiedChain
      modifies this`cache, this`counters, tables
      ensures out == ProcessPacket(old(State(clock, wall)), pkt, chain, lag, order).1
      ensures State(clock + lag, wall) == ProcessPacket(old(State(clock, wall)), pkt, chain, lag, order).0
    {
      ghost var before := State(clock, wall);
      assert before.world.(clock := before.world.clock + lag) == Tables(clock + lag, wall);
      var result := ScanAndCache(pkt, chain, clock, clock + lag, wall, order);
      RecordedIs(before, pkt, chain, Tables(clock + lag, wall), result, order, cache, tables.stats);
      MissLeaves(before, pkt, chain, lag, order, Tables(clock + lag, wall), result, cache, tables.stats);
      assert State(clock + lag, wall) == AclState(Tables(clock + lag, wall), cache, cacheMax, tables.stats, sweptAt);
      return Decided(result);
    }

    method Route(pkt: PacketInfo, chain: ChainType, clock: nat, lag: nat, wall: nat, order: seq<CacheKey>)
        returns (out: Outcome)
      modifies this`cache, this`counters, tables
      ensures out == ProcessPacket(old(State(clock, wall)), pkt, chain, lag, order).1
      ensures State(clock + lag, wall) == ProcessPacket(old(State(clock, wall)), pkt, chain, lag, order).0
    {
      if KeyOf(pkt, chain) in cache {
        out := ProcessHit(pkt, chain, clock, lag, wall, order);
      } else if chain == UnspecifiedChain {
        out := Decided(AclResult(Drop, DefaultId, UnsupportedChainType));
      } else {
        out := ProcessMiss(pkt, chain, clock, lag, wall, order);
      }
    }

    /** `process_packet`. */
    method Process(pkt: PacketInfo, chain: ChainType, clock: nat, lag: nat, wall: nat, order: seq<CacheKey>)
        returns (out: Outcome)
      modifies this`cache, this`counters, tables
      ensures out == ProcessPacket(old(State(clock, wall)), pkt, chain, lag, order).1
      ensures State(clock + lag, wall) == ProcessPacket(old(State(clock, wall)), pkt, chain, lag, order).0
      ensures Owed(rules, old(State(clock, wall)), pkt, chain, lag, out)
    {
      ProcessOwed(rules, State(clock, wall), pkt, chain, lag, order);
      out := Route(pkt, chain, clock, lag, wall, order);
    }

    /** One round of the cleanup task, first half. */
    method SweepCacheNow(clock: nat, ghost wall: nat, order: seq<CacheKey>)
      modifies this`cache, this`sweptAt
      ensures State(clock, wall) == StepCached(old(State(clock, wall)), SweepCache(order)).0
    {
      CleanupCache(clock, order);
      sweptAt := Some(clock);
    }

    /** Second half: `rate_limiters.retain(...)` over all shards. */
    method SweepBucketsNow(clock: nat, ghost wall: nat)
      modifies tables`buckets
      ensures State(clock, wall) == StepCached(old(State(clock, wall)), SweepBuckets(old(tables.buckets.Keys))).0
    {
      tables.buckets := map k | k in tables.buckets
          && clock - tables.buckets[k].lastUpdate < CLEANUP_INTERVAL :: tables.buckets[k];
    }

    /** `cleanup_expired_connections`: collect the idle keys, then remove them. */
    method CleanupExpiredConnections(ghost clock: nat, wall: nat)
      modifies tables`conns
      ensures State(clock, wall) == StepCached(old(State(clock, wall)), SweepConns).0
    {
      var toVisit, toRemove := tables.conns.Keys, {};
      while toVisit != {}
        invariant toVisit <= tables.conns.Keys && tables.conns == old(tables.conns)
        invariant toRemove == set k | k in tables.conns && k !in toVisit
                  && wall - tables.conns[k].lastSeen > CONN_TIMEOUT_SECS
        decreases toVisit
      {
        var k :| k in toVisit;
        if wall - tables.conns[k].lastSeen > CONN_TIMEOUT_SECS {
          toRemove := toRemove + {k};
        }
        toVisit := toVisit - {k};
      }
      tables.conns := tables.conns - toRemove;
    }
  }
}
