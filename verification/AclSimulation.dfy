/**
 * The cached, evicting, hot-reloaded processor against the plain scan, and the timing argument
 * that keeps the "Rate limit bucket not found" panic unreachable.
 */
module AclSimulation {
  import opened Prelude
  import opened Ordering
  import opened AclTypes
  import opened AclRules
  import opened AclEngine
  import Ports
  import Text

  // --- Which packets the cache key tells apart ---

  /** Equal up to the packet size. */
  predicate SameFlow(p: PacketInfo, q: PacketInfo) {
    p.(size := 0) == q.(size := 0)
  }

  /** Within `pkts` the cache key determines the flow, in particular whether each port is present. */
  ghost predicate KeyDeterminesFlow(pkts: iset<PacketInfo>) {
    forall p, q, c :: p in pkts && q in pkts && KeyOf(p, c) == KeyOf(q, c) ==> SameFlow(p, q)
  }

  ghost predicate PacketsIn(evs: seq<Event>, pkts: iset<PacketInfo>) {
    forall i :: 0 <= i < |evs| && evs[i].Packet? ==> evs[i].pkt in pkts
  }

  lemma PacketsTail(evs: seq<Event>, pkts: iset<PacketInfo>)
    requires evs != [] && PacketsIn(evs, pkts)
    ensures PacketsIn(evs[1..], pkts)
  {
  }

  // --- When the cleanup task may run ---

  /** Buckets are expired only within `gap` of the last cache sweep. */
  predicate OnTime(s: AclState, ev: Event, gap: nat) {
    ev.SweepBuckets? ==> s.sweptAt.Some? && s.world.clock <= s.sweptAt.value + gap
  }

  predicate OnSchedule(s: AclState, evs: seq<Event>, gap: nat)
    decreases |evs|
  {
    evs != [] ==> OnTime(s, evs[0], gap) && OnSchedule(StepCached(s, evs[0]).0, evs[1..], gap)
  }

  const SAFE_GAP: nat := 5 * SECOND

  // --- The invariant ---

  /** Every rate-limit key of a cached entry has a bucket at least as fresh as the entry. */
  ghost predicate BucketsPresent(s: AclState) {
    forall k, r :: k in s.cache && r in s.cache[k].rateKeys ==>
      r in s.world.buckets && s.world.buckets[r].lastUpdate >= s.cache[k].lastAccess
  }

  /** Since the last cache sweep no entry is older than the idle limit at that sweep. */
  ghost predicate Timely(s: AclState) {
    && (s.sweptAt.Some? ==> s.sweptAt.value <= s.world.clock)
    && forall k :: k in s.cache ==>
         && s.cache[k].lastAccess <= s.world.clock
         && (s.sweptAt.Some? ==> s.cache[k].lastAccess + CACHE_IDLE > s.sweptAt.value)
  }

  ghost predicate TimingInv(s: AclState) {
    && BucketsPresent(s) && Timely(s)
    && forall k :: k in s.cache ==> |s.cache[k].rateKeys| <= 1
  }

  lemma DrawAtMostOne(w: World, keys: seq<RateLimitKey>)
    requires |keys| <= 1
    ensures keys == [] ==> DrawAll(w, keys) == Taken(w)
    ensures |keys| == 1 ==> DrawAll(w, keys) == CheckRateLimit(w, keys[0], 1, 1, false)
  {
    if |keys| == 1 {
      assert keys[1..] == [];
      var d := CheckRateLimit(w, keys[0], 1, 1, false);
      if d.Taken? {
        assert DrawAll(d.world, []) == Taken(d.world);
      }
    }
  }

  /** Buckets only ever move forward in time while a packet is handled. */
  ghost predicate BucketsAdvance(b: map<RateLimitKey, Bucket>, b': map<RateLimitKey, Bucket>, now: nat) {
    forall r :: r in b ==> r in b' && (b'[r].lastUpdate == b[r].lastUpdate || b'[r].lastUpdate == now)
  }

  lemma ReplayBuckets(w: World, pkt: PacketInfo, e: CacheEntry)
    requires |e.rateKeys| <= 1
    ensures BucketsAdvance(w.buckets, Replay(w, pkt, e).0.buckets, w.clock)
    ensures Replay(w, pkt, e).0.clock == w.clock
    ensures Replay(w, pkt, e).1.Panicked? <==> exists r :: r in e.rateKeys && r !in w.buckets
    ensures !Replay(w, pkt, e).1.Panicked? ==>
              forall r :: r in e.rateKeys ==>
                r in Replay(w, pkt, e).0.buckets && Replay(w, pkt, e).0.buckets[r].lastUpdate == w.clock
  {
    DrawAtMostOne(w, e.rateKeys);
  }

  lemma ScanBuckets(w: World, pkt: PacketInfo, chain: ChainType)
    ensures BucketsAdvance(w.buckets, Scan(w, pkt, chain).0.buckets, w.clock)
    ensures Scan(w, pkt, chain).0.clock == w.clock
    ensures chain != UnspecifiedChain && Scan(w, pkt, chain).1.log != RateLimitDrop ==>
              forall r :: r in EntryFor(w.rules, pkt, chain, 0).rateKeys ==>
                r in Scan(w, pkt, chain).0.buckets && Scan(w, pkt, chain).0.buckets[r].lastUpdate == w.clock
  {
  }

  lemma EntryForShape(rules: Ruling, pkt: PacketInfo, chain: ChainType, accessed: nat)
    ensures |EntryFor(rules, pkt, chain, accessed).rateKeys| <= 1
    ensures EntryFor(rules, pkt, chain, accessed) == EntryFor(rules, pkt, chain, 0).(lastAccess := accessed)
  {
  }

  /** Moving buckets forward and writing at most one fresh entry keeps the invariant. */
  lemma TimingTransfer(s: AclState, s': AclState, key: CacheKey)
    requires TimingInv(s) && s'.sweptAt == s.sweptAt && s'.world.clock >= s.world.clock
    requires BucketsAdvance(s.world.buckets, s'.world.buckets, s'.world.clock)
    requires forall k :: k in s'.cache && k != key ==> k in s.cache && s'.cache[k] == s.cache[k]
    requires key in s'.cache ==>
               && |s'.cache[key].rateKeys| <= 1 && s'.cache[key].lastAccess == s.world.clock
               && forall r :: r in s'.cache[key].rateKeys ==>
                  r in s'.world.buckets && s'.world.buckets[r].lastUpdate == s'.world.clock
    ensures TimingInv(s')
  {
    forall k, r | k in s'.cache && r in s'.cache[k].rateKeys
      ensures r in s'.world.buckets && s'.world.buckets[r].lastUpdate >= s'.cache[k].lastAccess
    {
      if k != key {
        assert r in s.world.buckets && s.world.buckets[r].lastUpdate >= s.cache[k].lastAccess;
      }
    }
  }

  lemma TimingHit(s: AclState, pkt: PacketInfo, chain: ChainType, lag: nat, order: seq<CacheKey>)
    requires TimingInv(s) && KeyOf(pkt, chain) in s.cache
    ensures TimingInv(ProcessPacket(s, pkt, chain, lag, order).0)
    ensures !ProcessPacket(s, pkt, chain, lag, order).1.Panicked?
  {
    var key := KeyOf(pkt, chain);
    ReplayBuckets(s.world.(clock := s.world.clock + lag), pkt, s.cache[key].(lastAccess := s.world.clock));
    TimingTransfer(s, ProcessPacket(s, pkt, chain, lag, order).0, key);
  }

  lemma TimingMiss(s: AclState, pkt: PacketInfo, chain: ChainType, lag: nat, order: seq<CacheKey>)
    requires TimingInv(s) && KeyOf(pkt, chain) !in s.cache
    ensures TimingInv(ProcessPacket(s, pkt, chain, lag, order).0)
    ensures !ProcessPacket(s, pkt, chain, lag, order).1.Panicked?
  {
    var w := s.world.(clock := s.world.clock + lag);
    var s' := ProcessPacket(s, pkt, chain, lag, order).0;
    ScanBuckets(w, pkt, chain);
    SimulateMiss(s, pkt, chain, lag, order);
    if KeyOf(pkt, chain) in s'.cache {
      EntryForShape(w.rules, pkt, chain, s.world.clock);
      MissCached(s, pkt, chain, lag, order);
    }
    TimingTransfer(s, s', KeyOf(pkt, chain));
  }

  lemma TimingPacket(s: AclState, pkt: PacketInfo, chain: ChainType, lag: nat, order: seq<CacheKey>)
    requires TimingInv(s)
    ensures TimingInv(ProcessPacket(s, pkt, chain, lag, order).0)
    ensures !ProcessPacket(s, pkt, chain, lag, order).1.Panicked?
  {
    if KeyOf(pkt, chain) in s.cache {
      TimingHit(s, pkt, chain, lag, order);
    } else {
      TimingMiss(s, pkt, chain, lag, order);
    }
  }

  /** A bucket that goes has not been used for so long that no entry kept by the last sweep needs it. */
  lemma TimingBuckets(s: AclState, ev: Event)
    requires ev.SweepBuckets? && TimingInv(s) && OnTime(s, ev, SAFE_GAP)
    ensures TimingInv(StepCached(s, ev).0)
  {
    var s' := StepCached(s, ev).0;
    forall k, r | k in s'.cache && r in s'.cache[k].rateKeys ensures r in s'.world.buckets {
      assert s.world.buckets[r].lastUpdate >= s.cache[k].lastAccess;
    }
  }

  lemma TimingQuiet(s: AclState, ev: Event)
    requires !ev.SweepBuckets? && !ev.Packet? && TimingInv(s)
    ensures TimingInv(StepCached(s, ev).0)
  {
    if ev.SweepCache? {
      assert StepCached(s, ev).0.cache.Keys <= s.cache.Keys;
    }
  }

  /** A step on schedule keeps the timing invariant and does not panic. */
  lemma TimingStep(s: AclState, ev: Event)
    requires TimingInv(s) && OnTime(s, ev, SAFE_GAP)
    ensures TimingInv(StepCached(s, ev).0)
    ensures StepCached(s, ev).1 != Some(Panicked)
  {
    if ev.Packet? {
      TimingPacket(s, ev.pkt, ev.chain, ev.lag, ev.order);
    } else if ev.SweepBuckets? {
      TimingBuckets(s, ev);
    } else {
      TimingQuiet(s, ev);
    }
  }

  /** The panic branch is unreachable from every state a processor on schedule can be in. */
  lemma {:induction false} NeverPanics(s: AclState, evs: seq<Event>)
    requires TimingInv(s) && OnSchedule(s, evs, SAFE_GAP)
    ensures TimingInv(RunCached(s, evs).0)
    ensures forall i :: 0 <= i < |evs| ==> RunCached(s, evs).1[i] != Some(Panicked)
    decreases |evs|
  {
    if evs != [] {
      TimingStep(s, evs[0]);
      NeverPanics(StepCached(s, evs[0]).0, evs[1..]);
    }
  }

  // --- The simulation ---

  /** The entry is the one a scan of some packet of `pkts` with this key would leave. */
  ghost predicate FromScan(rules: Ruling, pkts: iset<PacketInfo>, k: CacheKey, e: CacheEntry) {
    k.chain != UnspecifiedChain
    && exists p :: p in pkts && KeyOf(p, k.chain) == k && e == EntryFor(rules, p, k.chain, e.lastAccess)
  }

  /** The size of a packet plays no part in the decision. */
  ghost predicate SizeBlind(rules: Ruling) {
    forall t, p, q :: SameFlow(p, q) ==> rules(t, p) == rules(t, q)
  }

  ghost predicate Coherent(s: AclState, pkts: iset<PacketInfo>) {
    SizeBlind(s.world.rules) && forall k :: k in s.cache ==> FromScan(s.world.rules, pkts, k, s.cache[k])
  }

  /** What the caller sees: the same result, save the rule id reported with a rate-limit drop. */
  predicate Agrees(cached: Option<Outcome>, plain: Option<AclResult>) {
    match (cached, plain)
    case (None, None) => true
    case (Some(Decided(c)), Some(p)) =>
      || c == p
      || (&& c.action == Drop && p.action == Drop && c.log == RateLimitDrop && p.log == RateLimitDrop
          && c.matchedRule.Stateful? && p.matchedRule == Priority(c.matchedRule.p))
    case _ => false
  }

  lemma SameFlowMatches(rule: FastRule, p: PacketInfo, q: PacketInfo)
    requires SameFlow(p, q)
    ensures Eligible(rule, p) == Eligible(rule, q)
  {
    assert p.srcPort == q.(size := 0).srcPort;
    assert q == q.(size := 0).(size := q.size);
    assert p == q.(size := p.size);
  }

  lemma SameFlowDecides(rules: Compiled, chain: ChainType, p: PacketInfo, q: PacketInfo)
    requires SameFlow(p, q) && chain != UnspecifiedChain
    ensures Decide(rules, chain, p) == Decide(rules, chain, q)
  {
    var v := rules.Rules(chain);
    var i, j := FirstMatch(v, p, 0), FirstMatch(v, q, 0);
    if i < |v| { SameFlowMatches(v[i], p, q); }
    if j < |v| { SameFlowMatches(v[j], p, q); }
  }

  lemma CompiledSizeBlind(c: Compiled)
    ensures SizeBlind(RulingOf(c))
  {
    forall t, p, q | SameFlow(p, q) ensures RulingOf(c)(t, p) == RulingOf(c)(t, q) {
      if t != UnspecifiedChain { SameFlowDecides(c, t, p, q); }
    }
  }

  lemma SameFlowEntry(rules: Ruling, chain: ChainType, p: PacketInfo, q: PacketInfo, accessed: nat)
    requires SameFlow(p, q) && SizeBlind(rules)
    ensures EntryFor(rules, p, chain, accessed) == EntryFor(rules, q, chain, accessed)
  {
    assert rules(chain, p) == rules(chain, q);
    assert p == q.(size := p.size) by {
      assert p == p.(size := 0).(size := p.size);
      assert q.(size := 0).(size := p.size) == q.(size := p.size);
    }
  }

  /** Replaying the entry of a scan has the effect of the scan, once the buckets exist. */
  lemma ReplayIsScan(w: World, pkt: PacketInfo, chain: ChainType, accessed: nat)
    requires chain != UnspecifiedChain
    requires forall r :: r in EntryFor(w.rules, pkt, chain, accessed).rateKeys ==> r in w.buckets
    ensures Replay(w, pkt, EntryFor(w.rules, pkt, chain, accessed)).0 == Scan(w, pkt, chain).0
    ensures Agrees(Some(Replay(w, pkt, EntryFor(w.rules, pkt, chain, accessed)).1), Some(Scan(w, pkt, chain).1))
  {
    DrawAtMostOne(w, EntryFor(w.rules, pkt, chain, accessed).rateKeys);
  }

  /** A hit finds exactly the entry that scanning this packet now would leave. */
  lemma HitEntry(s: AclState, pkts: iset<PacketInfo>, pkt: PacketInfo, chain: ChainType)
    requires KeyDeterminesFlow(pkts) && pkt in pkts
    requires Coherent(s, pkts) && KeyOf(pkt, chain) in s.cache
    ensures chain != UnspecifiedChain
    ensures s.cache[KeyOf(pkt, chain)] == EntryFor(s.world.rules, pkt, chain, s.cache[KeyOf(pkt, chain)].lastAccess)
  {
    var key := KeyOf(pkt, chain);
    var cached := s.cache[key];
    assert FromScan(s.world.rules, pkts, key, cached);
    var p :| p in pkts && KeyOf(p, chain) == key && cached == EntryFor(s.world.rules, p, chain, cached.lastAccess);
    SameFlowEntry(s.world.rules, chain, p, pkt, cached.lastAccess);
  }

  lemma CacheResultEntries(cache: Cache, key: CacheKey, e: CacheEntry, max: nat, now: nat, order: seq<CacheKey>)
    ensures forall k :: k in CacheResult(cache, key, e, max, now, order) ==>
              if k == key then CacheResult(cache, key, e, max, now, order)[k] == e
              else k in cache && CacheResult(cache, key, e, max, now, order)[k] == cache[k]
  {
  }

  lemma SimulateHit(s: AclState, pkt: PacketInfo, chain: ChainType, lag: nat, order: seq<CacheKey>)
    requires KeyOf(pkt, chain) in s.cache && chain != UnspecifiedChain
    requires s.cache[KeyOf(pkt, chain)] == EntryFor(s.world.rules, pkt, chain, s.cache[KeyOf(pkt, chain)].lastAccess)
    requires forall r :: r in s.cache[KeyOf(pkt, chain)].rateKeys ==> r in s.world.buckets
    ensures ProcessPacket(s, pkt, chain, lag, order).0.world ==
            Scan(s.world.(clock := s.world.clock + lag), pkt, chain).0
    ensures Agrees(Some(ProcessPacket(s, pkt, chain, lag, order).1),
                   Some(Scan(s.world.(clock := s.world.clock + lag), pkt, chain).1))
    ensures ProcessPacket(s, pkt, chain, lag, order).0.cache ==
              s.cache[KeyOf(pkt, chain) := EntryFor(s.world.rules, pkt, chain, s.world.clock)]
  {
    var w := s.world.(clock := s.world.clock + lag);
    var cached := s.cache[KeyOf(pkt, chain)];
    EntryForShape(w.rules, pkt, chain, cached.lastAccess);
    EntryForShape(w.rules, pkt, chain, s.world.clock);
    ReplayIsScan(w, pkt, chain, s.world.clock);
  }

  /** A packet refused for its rate is not cached. */
  lemma MissCached(s: AclState, pkt: PacketInfo, chain: ChainType, lag: nat, order: seq<CacheKey>)
    requires KeyOf(pkt, chain) !in s.cache && KeyOf(pkt, chain) in ProcessPacket(s, pkt, chain, lag, order).0.cache
    ensures Scan(s.world.(clock := s.world.clock + lag), pkt, chain).1.log != RateLimitDrop
  {
  }

  lemma RecordedWorld(s: AclState, pkt: PacketInfo, chain: ChainType, after: World, res: AclResult,
                      order: seq<CacheKey>)
    ensures Recorded(s, pkt, chain, after, res, order).world == after
  {
  }

  lemma MissWorld(s: AclState, pkt: PacketInfo, chain: ChainType, lag: nat, order: seq<CacheKey>)
    requires KeyOf(pkt, chain) !in s.cache
    ensures ProcessPacket(s, pkt, chain, lag, order).0.world ==
            Scan(s.world.(clock := s.world.clock + lag), pkt, chain).0
    ensures ProcessPacket(s, pkt, chain, lag, order).1 ==
            Decided(Scan(s.world.(clock := s.world.clock + lag), pkt, chain).1)
  {
    var scanned := Scan(s.world.(clock := s.world.clock + lag), pkt, chain);
    MissSettles(s, pkt, chain, lag, order);
    RecordedWorld(s, pkt, chain, scanned.0, scanned.1, order);
  }

  /** The cache after a miss is the old one, or what `cache_result` makes of it. */
  lemma MissCache(s: AclState, pkt: PacketInfo, chain: ChainType, lag: nat, order: seq<CacheKey>)
    requires KeyOf(pkt, chain) !in s.cache
    ensures var cache' := ProcessPacket(s, pkt, chain, lag, order).0.cache;
            var entry := EntryFor(s.world.rules, pkt, chain, s.world.clock);
            || cache' == s.cache
            || (chain != UnspecifiedChain
                && exists now :: cache' == CacheResult(s.cache, KeyOf(pkt, chain), entry, s.cacheMax, now, order))
  {
  }

  lemma SimulateMiss(s: AclState, pkt: PacketInfo, chain: ChainType, lag: nat, order: seq<CacheKey>)
    requires KeyOf(pkt, chain) !in s.cache
    ensures ProcessPacket(s, pkt, chain, lag, order).0.world ==
            Scan(s.world.(clock := s.world.clock + lag), pkt, chain).0
    ensures ProcessPacket(s, pkt, chain, lag, order).1 ==
            Decided(Scan(s.world.(clock := s.world.clock + lag), pkt, chain).1)
    ensures var cache' := ProcessPacket(s, pkt, chain, lag, order).0.cache;
            forall k :: k in cache' ==>
              if k == KeyOf(pkt, chain) then chain != UnspecifiedChain
                && cache'[k] == EntryFor(s.world.rules, pkt, chain, s.world.clock)
              else k in s.cache && cache'[k] == s.cache[k]
  {
    MissWorld(s, pkt, chain, lag, order);
    MissCache(s, pkt, chain, lag, order);
    var key, cache' := KeyOf(pkt, chain), ProcessPacket(s, pkt, chain, lag, order).0.cache;
    if cache' != s.cache {
      var e := EntryFor(s.world.rules, pkt, chain, s.world.clock);
      var now :| cache' == CacheResult(s.cache, key, e, s.cacheMax, now, order);
      CacheResultEntries(s.cache, key, e, s.cacheMax, now, order);
    }
  }

  lemma SimulatePacket(s: AclState, pkts: iset<PacketInfo>, pkt: PacketInfo, chain: ChainType, lag: nat,
                       order: seq<CacheKey>)
    requires KeyDeterminesFlow(pkts) && pkt in pkts
    requires Coherent(s, pkts) && TimingInv(s)
    ensures ProcessPacket(s, pkt, chain, lag, order).0.world ==
            Scan(s.world.(clock := s.world.clock + lag), pkt, chain).0
    ensures Agrees(Some(ProcessPacket(s, pkt, chain, lag, order).1),
                   Some(Scan(s.world.(clock := s.world.clock + lag), pkt, chain).1))
    ensures Coherent(ProcessPacket(s, pkt, chain, lag, order).0, pkts)
  {
    var key := KeyOf(pkt, chain);
    var s' := ProcessPacket(s, pkt, chain, lag, order).0;
    KeepsRules(s.world.(clock := s.world.clock + lag), pkt, chain);
    if key in s.cache {
      HitEntry(s, pkts, pkt, chain);
      SimulateHit(s, pkt, chain, lag, order);
    } else {
      SimulateMiss(s, pkt, chain, lag, order);
    }
    assert s'.world.rules == s.world.rules;
    forall k | k in s'.cache ensures FromScan(s'.world.rules, pkts, k, s'.cache[k]) {
      if k == key {
        EntryForShape(s.world.rules, pkt, chain, s.world.clock);
        assert KeyOf(pkt, k.chain) == k;
      } else {
        assert FromScan(s.world.rules, pkts, k, s.cache[k]);
      }
    }
  }

  lemma KeepsRules(w: World, pkt: PacketInfo, chain: ChainType)
    ensures Scan(w, pkt, chain).0.rules == w.rules
  {
  }

  lemma SimulateQuiet(s: AclState, pkts: iset<PacketInfo>, ev: Event)
    requires !ev.Packet? && Coherent(s, pkts)
    ensures StepCached(s, ev).0.world == StepPlain(s.world, ev).0
    ensures StepCached(s, ev).1 == None && StepPlain(s.world, ev).1 == None
    ensures Coherent(StepCached(s, ev).0, pkts)
  {
    var s' := StepCached(s, ev).0;
    if ev.Reload? { CompiledSizeBlind(Compile(ev.acl)); }
    forall k | k in s'.cache ensures FromScan(s'.world.rules, pkts, k, s'.cache[k]) {
      assert FromScan(s.world.rules, pkts, k, s.cache[k]);
    }
  }

  lemma StepWorlds(s: AclState, pkt: PacketInfo, chain: ChainType, lag: nat, order: seq<CacheKey>)
    requires ProcessPacket(s, pkt, chain, lag, order).0.world ==
             Scan(s.world.(clock := s.world.clock + lag), pkt, chain).0
    ensures StepCached(s, Packet(pkt, chain, lag, order)).0.world ==
            StepPlain(s.world, Packet(pkt, chain, lag, order)).0
  {
  }

  lemma StepAnswers(s: AclState, pkt: PacketInfo, chain: ChainType, lag: nat, order: seq<CacheKey>)
    requires Agrees(Some(ProcessPacket(s, pkt, chain, lag, order).1),
                    Some(Scan(s.world.(clock := s.world.clock + lag), pkt, chain).1))
    ensures Agrees(StepCached(s, Packet(pkt, chain, lag, order)).1,
                   StepPlain(s.world, Packet(pkt, chain, lag, order)).1)
  {
  }

  lemma SimulatePacketStep(s: AclState, pkts: iset<PacketInfo>, pkt: PacketInfo, chain: ChainType, lag: nat,
                           order: seq<CacheKey>)
    requires KeyDeterminesFlow(pkts) && pkt in pkts && Coherent(s, pkts) && TimingInv(s)
    ensures StepCached(s, Packet(pkt, chain, lag, order)).0.world ==
            StepPlain(s.world, Packet(pkt, chain, lag, order)).0
    ensures Agrees(StepCached(s, Packet(pkt, chain, lag, order)).1,
                   StepPlain(s.world, Packet(pkt, chain, lag, order)).1)
    ensures Coherent(StepCached(s, Packet(pkt, chain, lag, order)).0, pkts)
  {
    SimulatePacket(s, pkts, pkt, chain, lag, order);
    StepWorlds(s, pkt, chain, lag, order);
    StepAnswers(s, pkt, chain, lag, order);
  }

  lemma SimulateStep(s: AclState, pkts: iset<PacketInfo>, ev: Event)
    requires KeyDeterminesFlow(pkts) && (ev.Packet? ==> ev.pkt in pkts)
    requires Coherent(s, pkts) && TimingInv(s)
    ensures StepCached(s, ev).0.world == StepPlain(s.world, ev).0
    ensures Agrees(StepCached(s, ev).1, StepPlain(s.world, ev).1)
    ensures Coherent(StepCached(s, ev).0, pkts)
  {
    match ev {
      case Packet(pkt, chain, lag, order) => SimulatePacketStep(s, pkts, pkt, chain, lag, order);
      case _ => SimulateQuiet(s, pkts, ev);
    }
  }

  /**
   * Over every run the cached processor and the plain scan give the same answers, take the same
   * tokens from the same buckets, and leave the same connection table and rule counters.
   */
  lemma {:induction false} CachedSimulatesPlain(s: AclState, pkts: iset<PacketInfo>, evs: seq<Event>)
    requires KeyDeterminesFlow(pkts) && PacketsIn(evs, pkts)
    requires Coherent(s, pkts) && TimingInv(s) && OnSchedule(s, evs, SAFE_GAP)
    ensures RunCached(s, evs).0.world == RunPlain(s.world, evs).0
    ensures forall i :: 0 <= i < |evs| ==> Agrees(RunCached(s, evs).1[i], RunPlain(s.world, evs).1[i])
    decreases |evs|
  {
    if evs != [] {
      SimulateStep(s, pkts, evs[0]);
      TimingStep(s, evs[0]);
      PacketsTail(evs, pkts);
      CachedSimulatesPlain(StepCached(s, evs[0]).0, pkts, evs[1..]);
    }
  }

  lemma FreshCoherent(s: AclState, pkts: iset<PacketInfo>)
    requires Fresh(s)
    ensures Coherent(s, pkts) && TimingInv(s)
  {
    var c :| s.world.rules == RulingOf(c);
    CompiledSizeBlind(c);
  }

  // --- The packets of the filter ---

  /** How the filter reads a packet: TCP and UDP have both ports, other protocols neither. */
  predicate Extracted(p: PacketInfo) {
    && (p.srcPort.Some? <==> p.protocol == Tcp || p.protocol == Udp)
    && (p.dstPort.Some? <==> p.protocol == Tcp || p.protocol == Udp)
  }

  /** It is enough that the protocol says which ports are present. */
  lemma PresenceByProtocolSuffices(pkts: iset<PacketInfo>)
    requires forall p, q :: p in pkts && q in pkts && p.protocol == q.protocol ==>
               p.srcPort.Some? == q.srcPort.Some? && p.dstPort.Some? == q.dstPort.Some?
    ensures KeyDeterminesFlow(pkts)
  {
  }

  /** So for the packets that reach the processor the cache is invisible, in every run on schedule. */
  lemma ExtractedRunsFaithful(s: AclState, evs: seq<Event>)
    requires Fresh(s) && OnSchedule(s, evs, SAFE_GAP)
    requires forall i :: 0 <= i < |evs| && evs[i].Packet? ==> Extracted(evs[i].pkt)
    ensures RunFaithful(s, evs)
  {
    var pkts := iset p | Extracted(p);
    PresenceByProtocolSuffices(pkts);
    FreshCoherent(s, pkts);
    CachedSimulatesPlain(s, pkts, evs);
  }

  // --- Exactly when ---

  ghost predicate RunFaithful(s: AclState, evs: seq<Event>) {
    && RunCached(s, evs).0.world == RunPlain(s.world, evs).0
    && forall i :: 0 <= i < |evs| ==> Agrees(RunCached(s, evs).1[i], RunPlain(s.world, evs).1[i])
  }

  /** For every configuration, tables and on-schedule run over `pkts`, the cache is invisible. */
  ghost predicate CacheInvisible(pkts: iset<PacketInfo>) {
    forall s, evs :: Fresh(s) && PacketsIn(evs, pkts) && OnSchedule(s, evs, SAFE_GAP) ==> RunFaithful(s, evs)
  }

  /** Drops packets without the port and lets port 0 through. */
  function PortProbe(onSource: bool): Rule {
    Rule(1, true, AnyProtocol, if onSource then [] else ["1"], [], [], if onSource then ["1"] else [],
         Drop, 0, 0, false, [], [])
  }

  function OneRule(rule: Rule): Compiled {
    Compile(Acl(Some([Chain(Inbound, true, [rule], Allow)])))
  }

  /** A fresh processor at `clock` with one inbound rule and default `Allow`. */
  function OneRuleState(rule: Rule, clock: nat): AclState {
    AclState(World(RulingOf(OneRule(rule)), map[], map[], map[], clock, 0), map[], CACHE_MAX_SIZE, map[], None)
  }

  lemma OneRuleCompiles(rule: Rule)
    requires rule.enabled
    ensures OneRule(rule).Rules(Inbound) == [Convert(rule)]
    ensures OneRule(rule).Default(Inbound) == Allow
  {
    var chain := Chain(Inbound, true, [rule], Allow);
    assert [rule][1..] == [];
    assert EnabledRules([rule]) == [Convert(rule)];
    assert [Convert(rule)][1..] == []
           && SortBy([Convert(rule)], PriorityFirst) == Insert(Convert(rule), [], PriorityFirst);
    assert ChainRules(chain) == [Convert(rule)];
    assert [chain][1..] == [];
    assert RulesFor([chain], Inbound) == ChainRules(chain) + RulesFor([], Inbound);
    assert OneRule(rule) == Compile(Acl(Some([chain])));
  }

  lemma OneRuleDecides(rule: Rule, clock: nat, pkt: PacketInfo)
    requires rule.enabled
    ensures OneRuleState(rule, clock).world.rules(Inbound, pkt) ==
            if RuleMatches(Convert(rule), pkt) then Matched(0, Convert(rule)) else NoMatch(Allow)
  {
    OneRuleCompiles(rule);
  }

  lemma OnePortRange()
    ensures KeepRanges(["1"]) == [Ports.PortRange(1, 1)]
  {
    assert "1" == Text.PrintNat(1);
    Text.ParsePrinted(1);
    Ports.TrimParsed("1");
    assert Ports.ParsePortRange("1") == Some(Ports.PortRange(1, 1));
    assert ["1"][1..] == [];
  }

  predicate PortsDiffer(onSource: bool, missing: PacketInfo, zero: PacketInfo) {
    if onSource then missing.srcPort == None && zero.srcPort == Some(0)
    else missing.dstPort == None && zero.dstPort == Some(0)
  }

  lemma ProbeTellsApart(onSource: bool, missing: PacketInfo, zero: PacketInfo)
    requires PortsDiffer(onSource, missing, zero)
    ensures RuleMatches(Convert(PortProbe(onSource)), missing)
    ensures !RuleMatches(Convert(PortProbe(onSource)), zero)
  {
    OnePortRange();
  }

  /** With the cache, the second packet is given the first one's answer. */
  lemma ProbeCached(onSource: bool, missing: PacketInfo, zero: PacketInfo)
    requires PortsDiffer(onSource, missing, zero) && KeyOf(missing, Inbound) == KeyOf(zero, Inbound)
    ensures var s1 := StepCached(OneRuleState(PortProbe(onSource), 0), Packet(missing, Inbound, 0, [])).0;
            var out := StepCached(s1, Packet(zero, Inbound, 0, [])).1;
            out.Some? && out.value.Decided? && out.value.result.action == Drop
  {
    var s := OneRuleState(PortProbe(onSource), 0);
    ProbeTellsApart(onSource, missing, zero);
    OneRuleDecides(PortProbe(onSource), 0, missing);
    var s1 := StepCached(s, Packet(missing, Inbound, 0, [])).0;
    assert KeyOf(zero, Inbound) in s1.cache && s1.cache[KeyOf(zero, Inbound)].result.action == Drop;
    assert s1.cache[KeyOf(zero, Inbound)].rateKeys == [];
    DrawAtMostOne(s1.world.(clock := s1.world.clock + 0), []);
  }

  /** Without it, the second packet passes. */
  lemma ProbePlain(onSource: bool, missing: PacketInfo, zero: PacketInfo)
    requires PortsDiffer(onSource, missing, zero)
    ensures var w1 := StepPlain(OneRuleState(PortProbe(onSource), 0).world, Packet(missing, Inbound, 0, [])).0;
            var out := StepPlain(w1, Packet(zero, Inbound, 0, [])).1;
            out.Some? && out.value.action == Allow
  {
    var w := OneRuleState(PortProbe(onSource), 0).world;
    ProbeTellsApart(onSource, missing, zero);
    OneRuleDecides(PortProbe(onSource), 0, zero);
    KeepsRules(w.(clock := w.clock + 0), missing, Inbound);
  }

  lemma SecondCachedAnswer(s: AclState, e1: Event, e2: Event)
    ensures RunCached(s, [e1, e2]).1[1] == StepCached(StepCached(s, e1).0, e2).1
  {
    var evs := [e1, e2];
    assert evs[1..] == [e2] && [e2][1..] == [];
  }

  /** Two packets, one without a port and one with port 0, share an entry and get one answer. */
  lemma ProbeExposes(onSource: bool, missing: PacketInfo, zero: PacketInfo)
    requires PortsDiffer(onSource, missing, zero) && KeyOf(missing, Inbound) == KeyOf(zero, Inbound)
    ensures !RunFaithful(OneRuleState(PortProbe(onSource), 0),
                         [Packet(missing, Inbound, 0, []), Packet(zero, Inbound, 0, [])])
  {
    var s := OneRuleState(PortProbe(onSource), 0);
    var e1, e2 := Packet(missing, Inbound, 0, []), Packet(zero, Inbound, 0, []);
    ProbeCached(onSource, missing, zero);
    ProbePlain(onSource, missing, zero);
    SecondCachedAnswer(s, e1, e2);
    SecondAnswer(s.world, e1, e2);
  }

  /** Two flows under one key differ by a missing port against port 0. */
  lemma AmbiguousPort(p: PacketInfo, q: PacketInfo, c: ChainType)
      returns (onSource: bool, missing: PacketInfo, zero: PacketInfo)
    requires KeyOf(p, c) == KeyOf(q, c) && !SameFlow(p, q)
    ensures {missing, zero} == {p, q}
    ensures KeyOf(missing, Inbound) == KeyOf(zero, Inbound)
    ensures if onSource then missing.srcPort == None && zero.srcPort == Some(0)
            else missing.dstPort == None && zero.dstPort == Some(0)
  {
    onSource := p.srcPort != q.srcPort;
    var a, b := if onSource then p.srcPort else p.dstPort, if onSource then q.srcPort else q.dstPort;
    assert a != b && UnwrapOr(a) == UnwrapOr(b);
    missing, zero := if a.None? then p else q, if a.None? then q else p;
  }

  lemma AmbiguousKeyVisible(pkts: iset<PacketInfo>, onSource: bool, missing: PacketInfo, zero: PacketInfo)
    requires missing in pkts && zero in pkts
    requires KeyOf(missing, Inbound) == KeyOf(zero, Inbound)
    requires PortsDiffer(onSource, missing, zero)
    ensures !CacheInvisible(pkts)
  {
    var s := OneRuleState(PortProbe(onSource), 0);
    var evs := [Packet(missing, Inbound, 0, []), Packet(zero, Inbound, 0, [])];
    ProbeExposes(onSource, missing, zero);
    NoSweepOnSchedule(s, evs);
    assert Fresh(s) && PacketsIn(evs, pkts) && !RunFaithful(s, evs);
  }

  /** The cache is invisible on a set of packets if and only if the key determines the flow in it. */
  lemma CacheInvisibleExactly(pkts: iset<PacketInfo>)
    ensures CacheInvisible(pkts) <==> KeyDeterminesFlow(pkts)
  {
    if KeyDeterminesFlow(pkts) {
      forall s, evs | Fresh(s) && PacketsIn(evs, pkts) && OnSchedule(s, evs, SAFE_GAP) ensures RunFaithful(s, evs) {
        FreshCoherent(s, pkts);
        CachedSimulatesPlain(s, pkts, evs);
      }
    } else {
      var p, q, c :| p in pkts && q in pkts && KeyOf(p, c) == KeyOf(q, c) && !SameFlow(p, q);
      var onSource, missing, zero := AmbiguousPort(p, q, c);
      assert missing in {p, q} && zero in {p, q};
      AmbiguousKeyVisible(pkts, onSource, missing, zero);
    }
  }

  lemma {:induction false} NoSweepOnSchedule(s: AclState, evs: seq<Event>)
    requires forall i :: 0 <= i < |evs| ==> !evs[i].SweepBuckets?
    ensures OnSchedule(s, evs, SAFE_GAP)
    decreases |evs|
  {
    if evs != [] {
      NoSweepOnSchedule(StepCached(s, evs[0]).0, evs[1..]);
    }
  }

  // --- How late the bucket sweep may be ---

  ghost predicate PanicFree(gap: nat) {
    forall s, evs, i :: Fresh(s) && OnSchedule(s, evs, gap) && 0 <= i < |evs| ==>
      RunCached(s, evs).1[i] != Some(Panicked)
  }

  lemma {:induction false} ScheduleWidens(s: AclState, evs: seq<Event>, gap: nat, wider: nat)
    requires gap <= wider && OnSchedule(s, evs, gap)
    ensures OnSchedule(s, evs, wider)
    decreases |evs|
  {
    if evs != [] {
      ScheduleWidens(StepCached(s, evs[0]).0, evs[1..], gap, wider);
    }
  }

  function LimitedRule(): Rule {
    Rule(7, true, AnyProtocol, [], [], [], [], Allow, 1, 1, false, [], [])
  }

  function AnyPacket(): PacketInfo {
    PacketInfo(V4(1), V4(2), Some(3), Some(4), Udp, 0, [], [])
  }

  /** The state after one packet at 15 s: an entry and its bucket, both stamped 15 s. */
  lemma LimitedPacket() returns (s1: AclState)
    ensures s1 == StepCached(OneRuleState(LimitedRule(), CACHE_IDLE), Packet(AnyPacket(), Inbound, 0, [])).0
    ensures s1.world.clock == CACHE_IDLE && s1.sweptAt == None && s1.cacheMax == CACHE_MAX_SIZE
    ensures var key := KeyOf(AnyPacket(), Inbound);
            && s1.cache.Keys == {key} && s1.cache[key].lastAccess == CACHE_IDLE
            && s1.cache[key].rateKeys == [RateLimitKey(Inbound, 7)]
    ensures s1.world.buckets.Keys == {RateLimitKey(Inbound, 7)}
    ensures s1.world.buckets[RateLimitKey(Inbound, 7)].lastUpdate == CACHE_IDLE
  {
    var s := OneRuleState(LimitedRule(), CACHE_IDLE);
    OneRuleDecides(LimitedRule(), CACHE_IDLE, AnyPacket());
    s1 := StepCached(s, Packet(AnyPacket(), Inbound, 0, [])).0;
  }

  /** The sweep just before the entry's idle limit keeps it. */
  lemma SweepKeepsEntry(s: AclState, key: CacheKey)
    requires s.cache.Keys == {key} && s.cache[key].lastAccess == CACHE_IDLE && s.cacheMax == CACHE_MAX_SIZE
    requires s.world.clock == 2 * CACHE_IDLE - 1
    ensures StepCached(s, SweepCache([])).0 == s.(sweptAt := Some(s.world.clock))
  {
    var recent := RetainRecent(s.cache, s.world.clock);
    assert key in recent;
    assert recent == s.cache;
    assert |recent.Keys| == 1;
  }

  lemma MissingBucketPanics(s: AclState, pkt: PacketInfo, limit: RateLimitKey)
    requires KeyOf(pkt, Inbound) in s.cache && s.cache[KeyOf(pkt, Inbound)].rateKeys == [limit]
    requires limit !in s.world.buckets
    ensures StepCached(s, Packet(pkt, Inbound, 0, [])).1 == Some(Panicked)
  {
    DrawAtMostOne(s.world.(clock := s.world.clock + 0), [limit]);
  }

  /** The run is on schedule and its last event panics. */
  ghost predicate EndsInPanic(s: AclState, evs: seq<Event>, gap: nat) {
    evs != [] && OnSchedule(s, evs, gap) && RunCached(s, evs).1[|evs| - 1] == Some(Panicked)
  }

  lemma Prepend(s: AclState, ev: Event, s': AclState, rest: seq<Event>, gap: nat)
    requires StepCached(s, ev).0 == s' && OnTime(s, ev, gap) && EndsInPanic(s', rest, gap)
    ensures EndsInPanic(s, [ev] + rest, gap)
  {
    assert ([ev] + rest)[1..] == rest;
  }

  /** With the bucket sweep more than five seconds late, a live entry can lose its bucket. */
  lemma LateSweepPanics(gap: nat)
    requires gap > SAFE_GAP
    ensures !PanicFree(gap)
  {
    var s0 := OneRuleState(LimitedRule(), CACHE_IDLE);
    var e1 := Packet(AnyPacket(), Inbound, 0, []);
    var s1 := LimitedPacket();
    var rest := LateSweepRun(s1, gap);
    Prepend(s0, e1, s1, rest, gap);
    assert Fresh(s0) && EndsInPanic(s0, [e1] + rest, gap);
  }

  lemma LateSweepRun(s1: AclState, gap: nat) returns (evs: seq<Event>)
    requires gap > SAFE_GAP
    requires s1.world.clock == CACHE_IDLE && s1.cacheMax == CACHE_MAX_SIZE
    requires var key := KeyOf(AnyPacket(), Inbound);
             && s1.cache.Keys == {key} && s1.cache[key].lastAccess == CACHE_IDLE
             && s1.cache[key].rateKeys == [RateLimitKey(Inbound, 7)]
    requires s1.world.buckets.Keys == {RateLimitKey(Inbound, 7)}
    requires s1.world.buckets[RateLimitKey(Inbound, 7)].lastUpdate == CACHE_IDLE
    ensures EndsInPanic(s1, evs, gap)
  {
    var limit := RateLimitKey(Inbound, 7);
    var s2 := s1.(world := s1.world.(clock := 2 * CACHE_IDLE - 1));
    var s3 := s2.(sweptAt := Some(s2.world.clock));
    var s4 := s3.(world := s3.world.(clock := 2 * CACHE_IDLE + SAFE_GAP));
    var s5 := StepCached(s4, SweepBuckets({limit})).0;
    assert limit !in s5.world.buckets;
    MissingBucketPanics(s5, AnyPacket(), limit);
    evs := [Packet(AnyPacket(), Inbound, 0, [])];
    assert evs[1..] == [];
    assert EndsInPanic(s5, evs, gap);
    Prepend(s4, SweepBuckets({limit}), s5, evs, gap);
    evs := [SweepBuckets({limit})] + evs;
    Prepend(s3, Advance(SAFE_GAP + 1, 0), s4, evs, gap);
    evs := [Advance(SAFE_GAP + 1, 0)] + evs;
    SweepKeepsEntry(s2, KeyOf(AnyPacket(), Inbound));
    Prepend(s2, SweepCache([]), s3, evs, gap);
    evs := [SweepCache([])] + evs;
    Prepend(s1, Advance(CACHE_IDLE - 1, 0), s2, evs, gap);
    evs := [Advance(CACHE_IDLE - 1, 0)] + evs;
  }

  /** The panic is unreachable exactly when the two sweeps are at most five seconds apart. */
  lemma PanicFreeExactly(gap: nat)
    ensures PanicFree(gap) <==> gap <= SAFE_GAP
  {
    if gap <= SAFE_GAP {
      forall s, evs, i | Fresh(s) && OnSchedule(s, evs, gap) && 0 <= i < |evs|
        ensures RunCached(s, evs).1[i] != Some(Panicked)
      {
        ScheduleWidens(s, evs, gap, SAFE_GAP);
        NeverPanics(s, evs);
      }
    } else {
      LateSweepPanics(gap);
    }
  }
}
