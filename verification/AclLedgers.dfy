/** What the counters and the connection table record, stated on the history of events. */
module AclLedgers {
  import opened AclTypes
  import opened AclRules
  import opened AclEngine
  import opened AclSimulation

  // --- Global statistics ---

  function StatTotal(stats: map<StatKey, nat>): nat {
    StatCount(stats, CacheHits) + StatCount(stats, RuleMatchesStat) + StatCount(stats, DefaultAllows)
        + StatCount(stats, DefaultDrops)
  }

  function SupportedCalls(evs: seq<Event>): nat {
    if evs == [] then 0
    else (if evs[0].Packet? && evs[0].chain != UnspecifiedChain then 1 else 0) + SupportedCalls(evs[1..])
  }

  /** Packets refused by a rate limit during a scan: they leave no entry and no statistic. */
  function UncachedDrops(s: AclState, evs: seq<Event>): nat
    decreases |evs|
  {
    if evs == [] then 0
    else
      var dropped := evs[0].Packet? && KeyOf(evs[0].pkt, evs[0].chain) !in s.cache
                     && StepCached(s, evs[0]).1.value.Decided?
                     && StepCached(s, evs[0]).1.value.result.log == RateLimitDrop;
      (if dropped then 1 else 0) + UncachedDrops(StepCached(s, evs[0]).0, evs[1..])
  }

  predicate SupportedKeys(s: AclState) {
    forall k :: k in s.cache ==> k.chain != UnspecifiedChain
  }

  lemma SupportedStep(s: AclState, ev: Event)
    requires SupportedKeys(s)
    ensures SupportedKeys(StepCached(s, ev).0)
  {
    if ev.Packet? && KeyOf(ev.pkt, ev.chain) !in s.cache {
      SimulateMiss(s, ev.pkt, ev.chain, ev.lag, ev.order);
    }
  }

  /** Every call on a supported chain is counted once, unless a scan refused it for its rate. */
  lemma {:induction false} CallsConserved(s: AclState, evs: seq<Event>)
    requires SupportedKeys(s)
    ensures StatTotal(RunCached(s, evs).0.stats) + UncachedDrops(s, evs) == StatTotal(s.stats) + SupportedCalls(evs)
    decreases |evs|
  {
    if evs != [] {
      SupportedStep(s, evs[0]);
      CallsStep(s, evs[0]);
      CallsConserved(StepCached(s, evs[0]).0, evs[1..]);
    }
  }

  lemma BumpTotal(stats: map<StatKey, nat>, k: StatKey)
    ensures StatTotal(Bump(stats, k)) == StatTotal(stats) + 1
  {
  }

  lemma CallsStep(s: AclState, ev: Event)
    requires SupportedKeys(s)
    ensures StatTotal(StepCached(s, ev).0.stats) ==
              StatTotal(s.stats)
              + (if ev.Packet? && ev.chain != UnspecifiedChain then 1 else 0)
              - (if ev.Packet? && KeyOf(ev.pkt, ev.chain) !in s.cache
                    && StepCached(s, ev).1.value.Decided?
                    && StepCached(s, ev).1.value.result.log == RateLimitDrop then 1 else 0)
  {
    if ev.Packet? {
      BumpTotal(s.stats, CacheHits);
      BumpTotal(s.stats, ScanStat(s.world.rules(ev.chain, ev.pkt)));
    }
  }

  // --- Per-rule counters ---

  /** The statistics object that decides a packet. */
  function DecidedBy(v: Verdict, chain: ChainType): RuleRef {
    if v.Matched? then RuleStatsOf(chain, v.index) else DefaultStats
  }

  /** A rate-limited rule counts every packet it passes twice. */
  function Weight(v: Verdict): nat {
    if v.Matched? && v.rule.rateLimit > 0 then 2 else 1
  }

  function Earned(w: World, ev: Event, r: RuleRef): nat {
    if !ev.Packet? || ev.chain == UnspecifiedChain then 0
    else
      var at := w.(clock := w.clock + ev.lag);
      var v := w.rules(ev.chain, ev.pkt);
      if Scan(at, ev.pkt, ev.chain).1.log == RateLimitDrop || DecidedBy(v, ev.chain) != r then 0 else Weight(v)
  }

  /** The balance of `r`: everything earned since the last reload. */
  function RuleLedger(acc: StatItem, w: World, evs: seq<Event>, r: RuleRef): StatItem
    decreases |evs|
  {
    if evs == [] then acc
    else
      var ev := evs[0];
      var n := Earned(w, ev, r);
      var next := if ev.Reload? then StatItem(0, 0) else if ev.Packet? then Plus(acc, n, ev.pkt.size) else acc;
      RuleLedger(next, StepPlain(w, ev).0, evs[1..], r)
  }

  lemma CreditOnce(counters: map<RuleRef, StatItem>, ref: RuleRef, size: nat)
    ensures Credit(counters, [ref], size) == CreditOne(counters, ref, size)
  {
    assert [ref][1..] == [];
    assert Credit(CreditOne(counters, ref, size), [], size) == CreditOne(counters, ref, size);
  }

  lemma CreditTwice(counters: map<RuleRef, StatItem>, ref: RuleRef, size: nat)
    ensures Credit(counters, [ref] + [ref], size) == CreditOne(CreditOne(counters, ref, size), ref, size)
  {
    assert ([ref] + [ref])[1..] == [ref];
    CreditOnce(CreditOne(counters, ref, size), ref, size);
  }

  function CreditWeighted(counters: map<RuleRef, StatItem>, ref: RuleRef, size: nat,
                          weight: nat): map<RuleRef, StatItem>
  {
    if weight == 2 then CreditOne(CreditOne(counters, ref, size), ref, size) else CreditOne(counters, ref, size)
  }

  lemma WeightedAdds(counters: map<RuleRef, StatItem>, ref: RuleRef, size: nat, weight: nat, r: RuleRef)
    requires 1 <= weight <= 2
    ensures StatOf(CreditWeighted(counters, ref, size, weight), r) ==
            Plus(StatOf(counters, r), if r == ref then weight else 0, size)
  {
  }

  /** What a scan credits: nothing, or its deciding object with its weight. */
  lemma ScanCredits(w: World, pkt: PacketInfo, chain: ChainType)
    ensures chain == UnspecifiedChain || Scan(w, pkt, chain).1.log == RateLimitDrop ==>
              Scan(w, pkt, chain).0.counters == w.counters
    ensures chain != UnspecifiedChain && Scan(w, pkt, chain).1.log != RateLimitDrop ==>
              var v := w.rules(chain, pkt);
              Scan(w, pkt, chain).0.counters == CreditWeighted(w.counters, DecidedBy(v, chain), pkt.size, Weight(v))
  {
    if chain != UnspecifiedChain {
      var ref := DecidedBy(w.rules(chain, pkt), chain);
      CreditOnce(w.counters, ref, pkt.size);
      CreditTwice(w.counters, ref, pkt.size);
      assert [] + [ref] == [ref];
    }
  }

  function Plus(x: StatItem, n: nat, size: nat): StatItem {
    StatItem(x.packets + n, x.bytes + n * size)
  }

  /** Crediting the deciding object with its weight adds exactly what was earned. */
  lemma CreditsAdd(before: map<RuleRef, StatItem>, after: map<RuleRef, StatItem>, v: Verdict, chain: ChainType,
                   passed: bool, size: nat, r: RuleRef)
    requires after == if passed then CreditWeighted(before, DecidedBy(v, chain), size, Weight(v)) else before
    ensures StatOf(after, r) ==
            Plus(StatOf(before, r), if !passed || DecidedBy(v, chain) != r then 0 else Weight(v), size)
  {
    if passed {
      WeightedAdds(before, DecidedBy(v, chain), size, Weight(v), r);
    }
  }

  lemma EarnedStep(w: World, ev: Event, r: RuleRef)
    requires ev.Packet?
    ensures StatOf(StepPlain(w, ev).0.counters, r) == Plus(StatOf(w.counters, r), Earned(w, ev, r), ev.pkt.size)
  {
    var at := w.(clock := w.clock + ev.lag);
    var passed := ev.chain != UnspecifiedChain && Scan(at, ev.pkt, ev.chain).1.log != RateLimitDrop;
    ScanCredits(at, ev.pkt, ev.chain);
    CreditsAdd(w.counters, Scan(at, ev.pkt, ev.chain).0.counters, w.rules(ev.chain, ev.pkt), ev.chain, passed,
               ev.pkt.size, r);
  }

  /** Along every plain run each rule's counter is its ledger. */
  lemma {:induction false} PlainCountersAreLedgers(w: World, evs: seq<Event>, r: RuleRef)
    ensures StatOf(RunPlain(w, evs).0.counters, r) == RuleLedger(StatOf(w.counters, r), w, evs, r)
    decreases |evs|
  {
    if evs != [] {
      if evs[0].Packet? {
        EarnedStep(w, evs[0], r);
      }
      PlainCountersAreLedgers(StepPlain(w, evs[0]).0, evs[1..], r);
    }
  }

  // --- The connection table ---

  datatype Touch = Touch(wall: nat, size: nat)

  /** The stateful packets seen on `k` since its entry was last absent. */
  function NextTouches(touches: seq<Touch>, w: World, ev: Event, k: ConnKey): (next: seq<Touch>) {
    match ev
    case Packet(pkt, chain, lag, _) =>
      if Scan(w.(clock := w.clock + lag), pkt, chain).1.log.StatefulMatch? && ConnKeyOf(pkt) == k
      then touches + [Touch(w.wall, pkt.size)] else touches
    case SweepConns =>
      if touches != [] && w.wall - touches[|touches| - 1].wall > CONN_TIMEOUT_SECS then [] else touches
    case _ => touches
  }

  function Touches(touches: seq<Touch>, w: World, evs: seq<Event>, k: ConnKey): seq<Touch>
    decreases |evs|
  {
    if evs == [] then touches
    else Touches(NextTouches(touches, w, evs[0], k), StepPlain(w, evs[0]).0, evs[1..], k)
  }

  function TotalSize(touches: seq<Touch>): nat {
    if touches == [] then 0 else TotalSize(touches[..|touches| - 1]) + touches[|touches| - 1].size
  }

  /** The table's entry for `k` says exactly what `touches` says. */
  ghost predicate Records(conns: map<ConnKey, ConnEntry>, wall: nat, k: ConnKey, touches: seq<Touch>) {
    && (k in conns <==> touches != [])
    && (forall i :: 0 <= i < |touches| ==> touches[i].wall <= wall)
    && (forall i, j :: 0 <= i < j < |touches| ==> touches[i].wall <= touches[j].wall)
    && (k in conns ==>
          var e := conns[k];
          && e.packets == |touches|
          && e.bytes == TotalSize(touches)
          && e.createdAt == touches[0].wall
          && e.lastSeen == touches[|touches| - 1].wall
          && e.createdAt <= e.lastSeen
          && (e.state == Established <==> |touches| >= 2))
  }

  lemma TouchRecorded(w: World, k: ConnKey, touches: seq<Touch>, pkt: PacketInfo)
    requires Records(w.conns, w.wall, k, touches) && ConnKeyOf(pkt) == k
    ensures Records(TouchConn(w, k, pkt).conns, w.wall, k, touches + [Touch(w.wall, pkt.size)])
  {
    var next := touches + [Touch(w.wall, pkt.size)];
    assert next[..|next| - 1] == touches;
  }

  lemma ScanConns(w: World, pkt: PacketInfo, chain: ChainType)
    ensures Scan(w, pkt, chain).0.wall == w.wall
    ensures Scan(w, pkt, chain).1.log.StatefulMatch? ==>
              Scan(w, pkt, chain).0.conns == TouchConn(w, ConnKeyOf(pkt), pkt).conns
    ensures !Scan(w, pkt, chain).1.log.StatefulMatch? ==> Scan(w, pkt, chain).0.conns == w.conns
  {
  }

  lemma RecordsPacket(w: World, after: map<ConnKey, ConnEntry>, k: ConnKey, touches: seq<Touch>, pkt: PacketInfo,
                      touched: bool)
    requires Records(w.conns, w.wall, k, touches)
    requires after == if touched then TouchConn(w, ConnKeyOf(pkt), pkt).conns else w.conns
    ensures Records(after, w.wall, k,
                    if touched && ConnKeyOf(pkt) == k then touches + [Touch(w.wall, pkt.size)] else touches)
  {
    if touched && ConnKeyOf(pkt) == k {
      TouchRecorded(w, k, touches, pkt);
    }
  }

  lemma RecordsQuiet(w: World, ev: Event, k: ConnKey, touches: seq<Touch>)
    requires Records(w.conns, w.wall, k, touches) && !ev.Packet?
    ensures Records(StepPlain(w, ev).0.conns, StepPlain(w, ev).0.wall, k, NextTouches(touches, w, ev, k))
  {
  }

  lemma RecordsPacketStep(w: World, ev: Event, k: ConnKey, touches: seq<Touch>)
    requires Records(w.conns, w.wall, k, touches) && ev.Packet?
    ensures Records(StepPlain(w, ev).0.conns, StepPlain(w, ev).0.wall, k, NextTouches(touches, w, ev, k))
  {
    var at := w.(clock := w.clock + ev.lag);
    var (after, result) := Scan(at, ev.pkt, ev.chain);
    ScanConns(at, ev.pkt, ev.chain);
    RecordsPacket(at, after.conns, k, touches, ev.pkt, result.log.StatefulMatch?);
    PlainPacket(w, ev);
    NextAfterPacket(w, ev, k, touches);
  }

  lemma PlainPacket(w: World, ev: Event)
    requires ev.Packet?
    ensures StepPlain(w, ev).0 == Scan(w.(clock := w.clock + ev.lag), ev.pkt, ev.chain).0
  {
  }

  lemma NextAfterPacket(w: World, ev: Event, k: ConnKey, touches: seq<Touch>)
    requires ev.Packet?
    ensures NextTouches(touches, w, ev, k) ==
            if Scan(w.(clock := w.clock + ev.lag), ev.pkt, ev.chain).1.log.StatefulMatch? && ConnKeyOf(ev.pkt) == k
            then touches + [Touch(w.wall, ev.pkt.size)] else touches
  {
  }

  lemma RecordsStep(w: World, ev: Event, k: ConnKey, touches: seq<Touch>)
    requires Records(w.conns, w.wall, k, touches)
    ensures Records(StepPlain(w, ev).0.conns, StepPlain(w, ev).0.wall, k, NextTouches(touches, w, ev, k))
  {
    if ev.Packet? {
      RecordsPacketStep(w, ev, k, touches);
    } else {
      RecordsQuiet(w, ev, k, touches);
    }
  }

  lemma {:induction false} PlainConnsAreLedgers(w: World, evs: seq<Event>, k: ConnKey, touches: seq<Touch>)
    requires Records(w.conns, w.wall, k, touches)
    ensures Records(RunPlain(w, evs).0.conns, RunPlain(w, evs).0.wall, k, Touches(touches, w, evs, k))
    decreases |evs|
  {
    if evs != [] {
      RecordsStep(w, evs[0], k, touches);
      PlainConnsAreLedgers(StepPlain(w, evs[0]).0, evs[1..], k, NextTouches(touches, w, evs[0], k));
    }
  }

  /**
   * The real processor, cache and all: from empty tables, each rule counter and each connection
   * entry is the ledger of the packets that earned it, across evictions, sweeps and reloads.
   */
  lemma CachedLedgers(s: AclState, pkts: iset<PacketInfo>, evs: seq<Event>, r: RuleRef, k: ConnKey)
    requires Fresh(s) && s.world.conns == map[] && s.world.counters == map[]
    requires KeyDeterminesFlow(pkts) && PacketsIn(evs, pkts) && OnSchedule(s, evs, SAFE_GAP)
    ensures StatOf(RunCached(s, evs).0.world.counters, r) == RuleLedger(StatItem(0, 0), s.world, evs, r)
    ensures Records(RunCached(s, evs).0.world.conns, RunCached(s, evs).0.world.wall, k, Touches([], s.world, evs, k))
  {
    FreshCoherent(s, pkts);
    CachedSimulatesPlain(s, pkts, evs);
    PlainCountersAreLedgers(s.world, evs, r);
    PlainConnsAreLedgers(s.world, evs, k, []);
  }
}
