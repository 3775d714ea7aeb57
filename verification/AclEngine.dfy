/**
 * The packet path of `AclProcessor` as a step function: the plain scan, the memoised decision,
 * the cleanup task and the shared tables.
 */
module AclEngine {
  import opened Prelude
  import opened Ordering
  import opened AclTypes
  import opened AclRules

  // Instants are nanoseconds since the clock's origin; wall-clock times are Unix seconds.
  const SECOND: nat := 1_000_000_000
  const CLEANUP_INTERVAL: nat := 20 * SECOND
  const CACHE_IDLE: nat := 15 * SECOND
  const CACHE_MAX_SIZE: nat := 1024
  const CONN_TIMEOUT_SECS: nat := 60

  datatype RateLimitKey = RateLimitKey(chain: ChainType, priority: nat)

  /** A token bucket with the time of its last use; `burst` is its capacity. */
  datatype Bucket = Bucket(tokens: nat, capacity: nat, lastUpdate: nat)

  /** The text `src:port->dst:port`, as its four parts. */
  datatype ConnKey = ConnKey(srcIp: IpAddr, srcPort: nat, dstIp: IpAddr, dstPort: nat)

  datatype ConnState = New | Established

  datatype ConnEntry = ConnEntry(
    key: ConnKey, protocol: Protocol, state: ConnState,
    createdAt: nat, lastSeen: nat, packets: nat, bytes: nat)

  /** Which `RuleStats` object is credited: a rule of a compiled vector, or the default's. */
  datatype RuleRef = RuleStatsOf(chain: ChainType, index: nat) | DefaultStats

  datatype StatItem = StatItem(packets: nat, bytes: nat)

  datatype RuleId = Priority(p: nat) | Stateful(p: nat) | DefaultId

  datatype LogContext =
    | StatefulMatch(srcIp: IpAddr, dstIp: IpAddr)
    | RuleMatch(srcIp: IpAddr, dstIp: IpAddr, action: Action)
    | DefaultDrop
    | DefaultAllow
    | UnsupportedChainType
    | RateLimitDrop

  datatype AclResult = AclResult(action: Action, matchedRule: RuleId, log: LogContext)

  datatype StatKey = CacheHits | RuleMatchesStat | DefaultAllows | DefaultDrops

  datatype CacheKey = CacheKey(
    chain: ChainType, protocol: Protocol, srcIp: IpAddr, dstIp: IpAddr,
    srcPort: nat, dstPort: nat, srcGroups: seq<string>, dstGroups: seq<string>)

  datatype CacheEntry = CacheEntry(
    matchedRule: RuleId,
    lastAccess: nat,
    connKey: Option<ConnKey>,
    rateKeys: seq<RateLimitKey>,
    result: AclResult,
    stats: seq<RuleRef>)

  /** What the compiled rules of a processor decide about a packet on a chain. */
  type Ruling = (ChainType, PacketInfo) -> Verdict

  /** Chains of the unspecified type have no rules and are never asked. */
  function RulingOf(c: Compiled): Ruling {
    (t: ChainType, pkt: PacketInfo) => if t == UnspecifiedChain then NoMatch(Drop) else Decide(c, t, pkt)
  }

  /** Everything a packet can change besides the cache and the global statistics. */
  datatype World = World(
    rules: Ruling,
    buckets: map<RateLimitKey, Bucket>,
    conns: map<ConnKey, ConnEntry>,
    counters: map<RuleRef, StatItem>,
    clock: nat,
    wall: nat)

  function UnwrapOr(port: Option<nat>): nat {
    if port.Some? then port.value else 0
  }

  /** `AclCacheKey::from_packet_info`. */
  function KeyOf(pkt: PacketInfo, chain: ChainType): CacheKey {
    CacheKey(chain, pkt.protocol, pkt.srcIp, pkt.dstIp, UnwrapOr(pkt.srcPort), UnwrapOr(pkt.dstPort),
             pkt.srcGroups, pkt.dstGroups)
  }

  function ConnKeyOf(pkt: PacketInfo): ConnKey {
    ConnKey(pkt.srcIp, UnwrapOr(pkt.srcPort), pkt.dstIp, UnwrapOr(pkt.dstPort))
  }

  // --- Shared tables ---

  datatype Draw = Missing(world: World) | Refused(world: World) | Taken(world: World)

  /** `check_rate_limit`: find or create the bucket, stamp it, take one token. */
  function CheckRateLimit(w: World, key: RateLimitKey, rate: nat, burst: nat, allowCreate: bool): (d: Draw)
    ensures d.Missing? <==> rate != 0 && !allowCreate && key !in w.buckets
    ensures d.world == w.(buckets := d.world.buckets) && (d.Missing? ==> d.world == w)
  {
    if rate == 0 then Taken(w)
    else if key !in w.buckets && !allowCreate then Missing(w)
    else
      var b := if key in w.buckets then w.buckets[key] else Bucket(burst, burst, w.clock);
      var stamped := b.(lastUpdate := w.clock);
      if 1 > b.capacity || b.tokens < 1 then
        Refused(w.(buckets := w.buckets[key := stamped]))
      else
        Taken(w.(buckets := w.buckets[key := stamped.(tokens := b.tokens - 1)]))
  }

  /** The bucket's background refill adds `n` tokens up to the capacity. */
  function RefillBucket(w: World, key: RateLimitKey, n: nat): (w': World) {
    if key !in w.buckets then w
    else
      var b := w.buckets[key];
      w.(buckets := w.buckets[key := b.(tokens := if b.tokens + n > b.capacity then b.capacity else b.tokens + n)])
  }

  /** `check_connection_state`. */
  function TouchConn(w: World, key: ConnKey, pkt: PacketInfo): (w': World) {
    var entry :=
      if key in w.conns then
        var x := w.conns[key];
        x.(lastSeen := w.wall, packets := x.packets + 1, bytes := x.bytes + pkt.size, state := Established)
      else ConnEntry(ConnKeyOf(pkt), pkt.protocol, New, w.wall, w.wall, 1, pkt.size);
    w.(conns := w.conns[key := entry])
  }

  function StatOf(counters: map<RuleRef, StatItem>, r: RuleRef): StatItem {
    if r in counters then counters[r] else StatItem(0, 0)
  }

  function CreditOne(counters: map<RuleRef, StatItem>, r: RuleRef, size: nat): map<RuleRef, StatItem> {
    var x := StatOf(counters, r);
    counters[r := StatItem(x.packets + 1, x.bytes + size)]
  }

  /** `inc_cache_entry_stats`: one credit per listed object, duplicates included. */
  function Credit(counters: map<RuleRef, StatItem>, refs: seq<RuleRef>, size: nat): map<RuleRef, StatItem>
    decreases |refs|
  {
    if refs == [] then counters else Credit(CreditOne(counters, refs[0], size), refs[1..], size)
  }

  // --- The plain scan ---

  function RateKeysOf(chain: ChainType, rule: FastRule): seq<RateLimitKey> {
    if rule.rateLimit > 0 then [RateLimitKey(chain, rule.priority)] else []
  }

  /** A rate-limited rule's statistics object is listed twice. */
  function StatsListOf(chain: ChainType, index: nat, rule: FastRule): seq<RuleRef> {
    (if rule.rateLimit > 0 then [RuleStatsOf(chain, index)] else []) + [RuleStatsOf(chain, index)]
  }

  predicate TracksConnections(rule: FastRule) {
    rule.stateful && rule.action == Allow
  }

  function RuleResult(rule: FastRule, pkt: PacketInfo): AclResult {
    if TracksConnections(rule) then
      AclResult(Allow, Stateful(rule.priority), StatefulMatch(pkt.srcIp, pkt.dstIp))
    else
      AclResult(rule.action, Priority(rule.priority), RuleMatch(pkt.srcIp, pkt.dstIp, rule.action))
  }

  function DefaultResult(action: Action): AclResult {
    AclResult(action, DefaultId, if action == Drop then DefaultDrop else DefaultAllow)
  }

  /** One packet through the rules, without any cache: the reference behaviour. */
  function Scan(w: World, pkt: PacketInfo, chain: ChainType): (r: (World, AclResult)) {
    if chain == UnspecifiedChain then (w, AclResult(Drop, DefaultId, UnsupportedChainType))
    else
      match w.rules(chain, pkt)
      case NoMatch(action) =>
        (w.(counters := Credit(w.counters, [DefaultStats], pkt.size)), DefaultResult(action))
      case Matched(index, rule) =>
        match CheckRateLimit(w, RateLimitKey(chain, rule.priority), rule.rateLimit, rule.burstLimit, true)
        case Refused(w1) => (w1, AclResult(Drop, Priority(rule.priority), RateLimitDrop))
        case Taken(w1) =>
          var w2 := if TracksConnections(rule) then TouchConn(w1, ConnKeyOf(pkt), pkt) else w1;
          (w2.(counters := Credit(w2.counters, StatsListOf(chain, index, rule), pkt.size)), RuleResult(rule, pkt))
  }

  // --- The cache ---

  /** The entry a completed scan of `pkt` leaves behind. It depends on the rules only. */
  function EntryFor(rules: Ruling, pkt: PacketInfo, chain: ChainType, accessed: nat): (e: CacheEntry) {
    match rules(chain, pkt)
    case NoMatch(action) => CacheEntry(DefaultId, accessed, None, [], DefaultResult(action), [DefaultStats])
    case Matched(index, rule) =>
      CacheEntry(
        RuleResult(rule, pkt).matchedRule, accessed,
        if TracksConnections(rule) then Some(ConnKeyOf(pkt)) else None,
        RateKeysOf(chain, rule), RuleResult(rule, pkt), StatsListOf(chain, index, rule))
  }

  datatype Outcome = Decided(result: AclResult) | Panicked

  function DrawAll(w: World, keys: seq<RateLimitKey>): (d: Draw)
    decreases |keys|
  {
    if keys == [] then Taken(w)
    else
      match CheckRateLimit(w, keys[0], 1, 1, false)
      case Missing(w1) => Missing(w1)
      case Refused(w1) => Refused(w1)
      case Taken(w1) => DrawAll(w1, keys[1..])
  }

  /** `process_packet_with_cache_entry`. */
  function Replay(w: World, pkt: PacketInfo, e: CacheEntry): (r: (World, Outcome)) {
    match DrawAll(w, e.rateKeys)
    case Missing(w1) => (w1, Panicked)
    case Refused(w1) => (w1, Decided(AclResult(Drop, e.matchedRule, RateLimitDrop)))
    case Taken(w1) =>
      var w2 := if e.connKey.Some? then TouchConn(w1, e.connKey.value, pkt) else w1;
      (w2.(counters := Credit(w2.counters, e.stats, pkt.size)), Decided(e.result))
  }

  type Cache = map<CacheKey, CacheEntry>

  datatype Stamp = Stamp(key: CacheKey, at: nat)

  predicate OlderFirst(a: Stamp, b: Stamp) {
    a.at <= b.at
  }

  /** `Instant::now().checked_sub(15s).unwrap_or(now)`. */
  function ExpiryPoint(now: nat): nat {
    if now >= CACHE_IDLE then now - CACHE_IDLE else now
  }

  function RetainRecent(cache: Cache, now: nat): (kept: Cache)
    ensures kept.Keys <= cache.Keys && forall k :: k in kept ==> kept[k] == cache[k]
  {
    map k | k in cache && cache[k].lastAccess > ExpiryPoint(now) :: cache[k]
  }

  /** The entries in the map's iteration order, which is the map's to choose. */
  function Listing(cache: Cache, order: seq<CacheKey>): (stamps: seq<Stamp>) {
    if order == [] then []
    else if order[0] in cache then [Stamp(order[0], cache[order[0]].lastAccess)] + Listing(cache, order[1..])
    else Listing(cache, order[1..])
  }

  function StampKeys(stamps: seq<Stamp>): (keys: set<CacheKey>) {
    set s | s in stamps :: s.key
  }

  function Oldest(kept: Cache, order: seq<CacheKey>, n: nat): (stamps: seq<Stamp>) {
    var sorted := SortBy(Listing(kept, order), OlderFirst);
    if n <= |sorted| then sorted[..n] else sorted
  }

  function Overflow(size: nat, max: nat): nat
    requires size > max
  {
    size - max + max / 5
  }

  /** `cleanup_cache`: drop idle entries, then the oldest ones if still too many. */
  function Cleanup(cache: Cache, max: nat, now: nat, order: seq<CacheKey>): (kept: Cache)
    ensures kept.Keys <= cache.Keys && forall k :: k in kept ==> kept[k] == cache[k]
  {
    var recent := RetainRecent(cache, now);
    if |recent| <= max then recent
    else recent - StampKeys(Oldest(recent, order, Overflow(|recent|, max)))
  }

  /** `cache_result`. */
  function CacheResult(cache: Cache, key: CacheKey, e: CacheEntry, max: nat, now: nat, order: seq<CacheKey>): (c: Cache)
  {
    var grown := cache[key := e];
    if |grown| > max * 2 then Cleanup(grown, max, now, order) else grown
  }

  // --- The processor ---

  /** `sweptAt` is when the cleanup task last swept the cache. */
  datatype AclState = AclState(
    world: World,
    cache: Cache,
    cacheMax: nat,
    stats: map<StatKey, nat>,
    sweptAt: Option<nat>)

  function StatCount(stats: map<StatKey, nat>, key: StatKey): nat {
    if key in stats then stats[key] else 0
  }

  function Bump(stats: map<StatKey, nat>, key: StatKey): map<StatKey, nat> {
    stats[key := StatCount(stats, key) + 1]
  }

  /** The statistic a completed scan increments. */
  function ScanStat(v: Verdict): StatKey {
    if v.Matched? then RuleMatchesStat else if v.action == Drop then DefaultDrops else DefaultAllows
  }

  /** A scan's result is counted and cached, unless the chain is unsupported or a limit refused the packet. */
  function Recorded(s: AclState, pkt: PacketInfo, chain: ChainType, after: World, res: AclResult,
                    order: seq<CacheKey>): (s': AclState)
  {
    if chain == UnspecifiedChain || res.log == RateLimitDrop then s.(world := after)
    else
      s.(world := after,
         stats := Bump(s.stats, ScanStat(s.world.rules(chain, pkt))),
         cache := CacheResult(s.cache, KeyOf(pkt, chain), EntryFor(s.world.rules, pkt, chain, s.world.clock),
                              s.cacheMax, after.clock, order))
  }

  function Settled(s: AclState, pkt: PacketInfo, chain: ChainType, order: seq<CacheKey>,
                   scanned: (World, AclResult)): (AclState, Outcome)
  {
    (Recorded(s, pkt, chain, scanned.0, scanned.1, order), Decided(scanned.1))
  }

  /**
   * `process_packet`. The access time is read at the start; `lag` later the rest of the work reads
   * the clock again.
   */
  function ProcessPacket(s: AclState, pkt: PacketInfo, chain: ChainType, lag: nat,
                         order: seq<CacheKey>): (r: (AclState, Outcome))
  {
    var key := KeyOf(pkt, chain);
    var accessed := s.world.clock;
    var w := s.world.(clock := s.world.clock + lag);
    if key in s.cache then
      var e := s.cache[key].(lastAccess := accessed);
      var replayed := Replay(w, pkt, e);
      (s.(world := replayed.0, cache := s.cache[key := e], stats := Bump(s.stats, CacheHits)), replayed.1)
    else
      Settled(s, pkt, chain, order, Scan(w, pkt, chain))
  }

  lemma MissSettles(s: AclState, pkt: PacketInfo, chain: ChainType, lag: nat, order: seq<CacheKey>)
    requires KeyOf(pkt, chain) !in s.cache
    ensures ProcessPacket(s, pkt, chain, lag, order) ==
            Settled(s, pkt, chain, order, Scan(s.world.(clock := s.world.clock + lag), pkt, chain))
  {
  }

  function ExpireBuckets(w: World, keys: set<RateLimitKey>): (w': World) {
    w.(buckets := map k | k in w.buckets
          && !(k in keys && w.clock - w.buckets[k].lastUpdate >= CLEANUP_INTERVAL) :: w.buckets[k])
  }

  /** `cleanup_expired_connections` with the timeout its caller passes. */
  function ExpireConns(w: World): (w': World) {
    w.(conns := map k | k in w.conns && !(w.wall - w.conns[k].lastSeen > CONN_TIMEOUT_SECS) :: w.conns[k])
  }

  // --- Runs ---

  datatype Event =
    | Packet(pkt: PacketInfo, chain: ChainType, lag: nat, order: seq<CacheKey>)
    | Advance(nanos: nat, secs: nat)
    | SweepCache(order: seq<CacheKey>)
    | SweepBuckets(keys: set<RateLimitKey>)  // the shards `retain` has reached
    | SweepConns
    | Refill(key: RateLimitKey, tokens: nat)
    | Reload(acl: Acl)

  /** Events that do not concern packets or the cache act on the tables alone. */
  function Environment(w: World, ev: Event): (w': World) {
    match ev
    case Packet(_, _, _, _) => w
    case Advance(nanos, secs) => w.(clock := w.clock + nanos, wall := w.wall + secs)
    case SweepCache(_) => w
    case SweepBuckets(keys) => ExpireBuckets(w, keys)
    case SweepConns => ExpireConns(w)
    case Refill(key, n) => RefillBucket(w, key, n)
    case Reload(acl) => w.(rules := RulingOf(Compile(acl)), counters := map[])
  }

  /** A packet's answer as an event shows it. */
  function Shown<S, A>(r: (S, A)): (S, Option<A>) {
    (r.0, Some(r.1))
  }

  function StepPlain(w: World, ev: Event): (r: (World, Option<AclResult>)) {
    if ev.Packet? then Shown(Scan(w.(clock := w.clock + ev.lag), ev.pkt, ev.chain))
    else (Environment(w, ev), None)
  }

  lemma PacketStep(w: World, pkt: PacketInfo, chain: ChainType, lag: nat, order: seq<CacheKey>)
    ensures StepPlain(w, Packet(pkt, chain, lag, order)) == Shown(Scan(w.(clock := w.clock + lag), pkt, chain))
  {
  }

  function StepCached(s: AclState, ev: Event): (r: (AclState, Option<Outcome>)) {
    match ev
    case Packet(pkt, chain, lag, order) => Shown(ProcessPacket(s, pkt, chain, lag, order))
    case SweepCache(order) =>
      (s.(cache := Cleanup(s.cache, s.cacheMax, s.world.clock, order), sweptAt := Some(s.world.clock)), None)
    case Reload(_) => (s.(world := Environment(s.world, ev), cache := map[], sweptAt := None), None)
    case _ => (s.(world := Environment(s.world, ev)), None)
  }

  function RunPlain(w: World, evs: seq<Event>): (r: (World, seq<Option<AclResult>>))
    ensures |r.1| == |evs|
    decreases |evs|
  {
    if evs == [] then (w, [])
    else
      var (w1, out) := StepPlain(w, evs[0]);
      var (w2, outs) := RunPlain(w1, evs[1..]);
      (w2, [out] + outs)
  }

  lemma SecondAnswer(w: World, first: Event, second: Event)
    ensures RunPlain(w, [first, second]).1[1] == StepPlain(StepPlain(w, first).0, second).1
  {
    var evs := [first, second];
    assert evs[1..] == [second] && [second][1..] == [];
  }

  function RunCached(s: AclState, evs: seq<Event>): (r: (AclState, seq<Option<Outcome>>))
    ensures |r.1| == |evs|
    decreases |evs|
  {
    if evs == [] then (s, [])
    else
      var (s1, out) := StepCached(s, evs[0]);
      var (s2, outs) := RunCached(s1, evs[1..]);
      (s2, [out] + outs)
  }

  /** A processor just built over existing tables: its cache is empty. */
  ghost predicate Fresh(s: AclState) {
    s.cache == map[] && s.sweptAt == None && exists c :: s.world.rules == RulingOf(c)
  }
}
