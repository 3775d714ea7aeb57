/** What `process_packet` answers and leaves behind, stated on the configuration. */
module AclAnswers {
  import opened Prelude
  import opened AclTypes
  import opened AclRules
  import opened AclEngine
  import opened AclSimulation

  /** The rule's bucket has a token, or would be created with one. */
  predicate HasToken(w: World, t: ChainType, rule: Rule) {
    var k := RateLimitKey(t, rule.priority);
    if k in w.buckets then w.buckets[k].tokens >= 1 && w.buckets[k].capacity >= 1 else rule.burstLimit >= 1
  }

  predicate Refuses(w: World, t: ChainType, rule: Rule) {
    rule.rateLimit > 0 && !HasToken(w, t, rule)
  }

  /** The answer of the winning rule: refused for its rate, else its action, tracked or not. */
  predicate WinnerAnswer(w: World, t: ChainType, rule: Rule, pkt: PacketInfo, res: AclResult) {
    if Refuses(w, t, rule) then
      res == AclResult(Drop, Priority(rule.priority), RateLimitDrop)
    else if rule.stateful && rule.action == Allow then
      res == AclResult(Allow, Stateful(rule.priority), StatefulMatch(pkt.srcIp, pkt.dstIp))
    else
      res == AclResult(rule.action, Priority(rule.priority), RuleMatch(pkt.srcIp, pkt.dstIp, rule.action))
  }

  /** `action` is the default of the first chain of type `t`, enabled or not, or `Allow` without one. */
  ghost predicate FirstDefault(chains: seq<Chain>, t: ChainType, action: Action) {
    || (action == Allow && forall i :: 0 <= i < |chains| ==> chains[i].chainType != t)
    || exists i :: 0 <= i < |chains| && chains[i].chainType == t && chains[i].defaultAction == action
                   && forall j :: 0 <= j < i ==> chains[j].chainType != t
  }

  ghost predicate DefaultAnswer(chains: seq<Chain>, t: ChainType, res: AclResult) {
    && FirstDefault(chains, t, res.action)
    && res.matchedRule == DefaultId
    && res.log == if res.action == Drop then DefaultDrop else DefaultAllow
  }

  /** The answer that a configuration owes a packet, given the tables. */
  ghost predicate Answers(acl: Acl, w: World, t: ChainType, pkt: PacketInfo, res: AclResult) {
    if t == UnspecifiedChain then res == AclResult(Drop, DefaultId, UnsupportedChainType)
    else
      && (forall o :: IsWinner(acl.Chains(), t, pkt, o) ==> WinnerAnswer(w, t, RuleAt(acl.Chains(), o), pkt, res))
      && ((forall o :: !Candidate(acl.Chains(), t, pkt, o)) ==> DefaultAnswer(acl.Chains(), t, res))
  }

  lemma MatchedAnswer(w: World, t: ChainType, pkt: PacketInfo, rule: Rule)
    requires t != UnspecifiedChain && w.rules(t, pkt).Matched? && w.rules(t, pkt).rule == Convert(rule)
    ensures WinnerAnswer(w, t, rule, pkt, Scan(w, pkt, t).1)
  {
  }

  lemma {:induction false} DefaultIsTheFirst(chains: seq<Chain>, t: ChainType)
    ensures FirstDefault(chains, t, DefaultFor(chains, t))
  {
    if chains != [] && chains[0].chainType != t {
      DefaultIsTheFirst(chains[1..], t);
      assert forall i :: 0 <= i < |chains[1..]| ==> chains[1..][i] == chains[i + 1];
      if i :| 0 <= i < |chains[1..]| && chains[1..][i].chainType == t
              && chains[1..][i].defaultAction == DefaultFor(chains[1..], t)
              && forall j :: 0 <= j < i ==> chains[1..][j].chainType != t {
        assert chains[i + 1].chainType == t;
        forall j | 0 <= j < i + 1 ensures chains[j].chainType != t {
          if j > 0 { assert chains[j] == chains[1..][j - 1]; }
        }
      }
    }
  }

  lemma DefaultedAnswer(w: World, t: ChainType, pkt: PacketInfo, chains: seq<Chain>)
    requires t != UnspecifiedChain && w.rules(t, pkt) == NoMatch(DefaultFor(chains, t))
    ensures DefaultAnswer(chains, t, Scan(w, pkt, t).1)
  {
    DefaultIsTheFirst(chains, t);
  }

  /** A scan answers as the configuration says. */
  lemma ScanAnswers(acl: Acl, w: World, t: ChainType, pkt: PacketInfo)
    requires w.rules == RulingOf(Compile(acl))
    ensures Answers(acl, w, t, pkt, Scan(w, pkt, t).1)
  {
    if t != UnspecifiedChain {
      WinnerDecides(acl, t, pkt);
      forall o | IsWinner(acl.Chains(), t, pkt, o)
        ensures WinnerAnswer(w, t, RuleAt(acl.Chains(), o), pkt, Scan(w, pkt, t).1)
      {
        MatchedAnswer(w, t, pkt, RuleAt(acl.Chains(), o));
      }
      if forall o :: !Candidate(acl.Chains(), t, pkt, o) {
        NoMatchNoCandidate(acl, t, pkt);
        DefaultedAnswer(w, t, pkt, acl.Chains());
      }
    }
  }

  /** What a caller of the cached processor is told: the answer owed, save the id reported with a rate drop. */
  ghost predicate Answered(acl: Acl, w: World, t: ChainType, pkt: PacketInfo, out: Option<Outcome>) {
    exists res :: Answers(acl, w, t, pkt, res) && Agrees(out, Some(res))
  }

  ghost predicate EventAnswered(acl: Acl, w: World, ev: Event, out: Option<Outcome>) {
    match ev
    case Packet(pkt, chain, lag, _) => Answered(acl, w.(clock := w.clock + lag), chain, pkt, out)
    case _ => out == None
  }

  /** The configuration after an event. */
  function InForce(acl: Acl, ev: Event): Acl {
    if ev.Reload? then ev.acl else acl
  }

  ghost predicate AnsweredThroughout(acl: Acl, w: World, evs: seq<Event>, outs: seq<Option<Outcome>>)
    requires |outs| == |evs|
    decreases |evs|
  {
    evs == [] ||
    (&& EventAnswered(acl, w, evs[0], outs[0])
     && AnsweredThroughout(InForce(acl, evs[0]), StepPlain(w, evs[0]).0, evs[1..], outs[1..]))
  }

  lemma RulesInForce(acl: Acl, w: World, ev: Event)
    requires w.rules == RulingOf(Compile(acl))
    ensures StepPlain(w, ev).0.rules == RulingOf(Compile(InForce(acl, ev)))
  {
    if ev.Packet? { KeepsRules(w.(clock := w.clock + ev.lag), ev.pkt, ev.chain); }
  }

  lemma PlainOut(w: World, ev: Event)
    ensures StepPlain(w, ev).1 ==
            if ev.Packet? then Some(Scan(w.(clock := w.clock + ev.lag), ev.pkt, ev.chain).1) else None
  {
  }

  lemma OutAnswered(acl: Acl, w: World, ev: Event, out: Option<Outcome>, plain: Option<AclResult>)
    requires w.rules == RulingOf(Compile(acl)) && Agrees(out, plain)
    requires plain == if ev.Packet? then Some(Scan(w.(clock := w.clock + ev.lag), ev.pkt, ev.chain).1) else None
    ensures EventAnswered(acl, w, ev, out)
  {
    if ev.Packet? { ScanAnswers(acl, w.(clock := w.clock + ev.lag), ev.chain, ev.pkt); }
  }

  lemma StepAnswered(acl: Acl, w: World, ev: Event, out: Option<Outcome>)
    requires w.rules == RulingOf(Compile(acl)) && Agrees(out, StepPlain(w, ev).1)
    ensures EventAnswered(acl, w, ev, out)
  {
    PlainOut(w, ev);
    OutAnswered(acl, w, ev, out, StepPlain(w, ev).1);
  }

  /** Every packet of every run is answered as the configuration then in force says, cached or not. */
  lemma {:induction false} RunAnswers(acl: Acl, s: AclState, pkts: iset<PacketInfo>, evs: seq<Event>)
    requires s.world.rules == RulingOf(Compile(acl))
    requires KeyDeterminesFlow(pkts) && PacketsIn(evs, pkts)
    requires Coherent(s, pkts) && TimingInv(s) && OnSchedule(s, evs, SAFE_GAP)
    ensures AnsweredThroughout(acl, s.world, evs, RunCached(s, evs).1)
    decreases |evs|
  {
    if evs != [] {
      SimulateStep(s, pkts, evs[0]);
      TimingStep(s, evs[0]);
      PacketsTail(evs, pkts);
      RulesInForce(acl, s.world, evs[0]);
      var s1 := StepCached(s, evs[0]).0;
      StepAnswered(acl, s.world, evs[0], StepCached(s, evs[0]).1);
      RunAnswers(InForce(acl, evs[0]), s1, pkts, evs[1..]);
      CachedOuts(s, evs);
    }
  }

  lemma CachedOuts(s: AclState, evs: seq<Event>)
    requires evs != []
    ensures RunCached(s, evs).1[0] == StepCached(s, evs[0]).1
    ensures RunCached(s, evs).1[1..] == RunCached(StepCached(s, evs[0]).0, evs[1..]).1
  {
  }

  /** In particular for a processor just built, over the packets that the filter extracts. */
  lemma ExtractedRunsAnswered(acl: Acl, s: AclState, evs: seq<Event>)
    requires Fresh(s) && s.world.rules == RulingOf(Compile(acl)) && OnSchedule(s, evs, SAFE_GAP)
    requires forall i :: 0 <= i < |evs| && evs[i].Packet? ==> Extracted(evs[i].pkt)
    ensures AnsweredThroughout(acl, s.world, evs, RunCached(s, evs).1)
  {
    var pkts := iset p: PacketInfo | Extracted(p);
    PresenceByProtocolSuffices(pkts);
    FreshCoherent(s, pkts);
    RunAnswers(acl, s, pkts, evs);
  }

  /** One call of the cached processor, in any state such a run can reach. */
  lemma ProcessAnswers(acl: Acl, s: AclState, pkts: iset<PacketInfo>, pkt: PacketInfo, chain: ChainType, lag: nat,
                       order: seq<CacheKey>)
    requires s.world.rules == RulingOf(Compile(acl))
    requires KeyDeterminesFlow(pkts) && pkt in pkts && Coherent(s, pkts) && TimingInv(s)
    ensures Answered(acl, s.world.(clock := s.world.clock + lag), chain, pkt,
                     Some(ProcessPacket(s, pkt, chain, lag, order).1))
  {
    SimulatePacket(s, pkts, pkt, chain, lag, order);
    ScanAnswers(acl, s.world.(clock := s.world.clock + lag), chain, pkt);
  }

  /** Whatever configuration `rules` were compiled from, `out` is what it owes the packet. */
  ghost predicate Owed(rules: Compiled, s: AclState, pkt: PacketInfo, chain: ChainType, lag: nat, out: Outcome) {
    forall acl, pkts ::
      && rules == Compile(acl) && KeyDeterminesFlow(pkts) && pkt in pkts && Coherent(s, pkts) && TimingInv(s) ==>
      Answered(acl, s.world.(clock := s.world.clock + lag), chain, pkt, Some(out))
  }

  lemma ProcessOwed(rules: Compiled, s: AclState, pkt: PacketInfo, chain: ChainType, lag: nat, order: seq<CacheKey>)
    requires s.world.rules == RulingOf(rules)
    ensures Owed(rules, s, pkt, chain, lag, ProcessPacket(s, pkt, chain, lag, order).1)
  {
    forall acl, pkts |
      rules == Compile(acl) && KeyDeterminesFlow(pkts) && pkt in pkts && Coherent(s, pkts) && TimingInv(s)
      ensures Answered(acl, s.world.(clock := s.world.clock + lag), chain, pkt,
                       Some(ProcessPacket(s, pkt, chain, lag, order).1))
    {
      ProcessAnswers(acl, s, pkts, pkt, chain, lag, order);
    }
  }

  // --- What a packet leaves behind ---

  /** A limited rule takes one token of its bucket when it passes a packet, and touches no other bucket. */
  lemma BucketEffect(w: World, t: ChainType, pkt: PacketInfo, rule: Rule, k: RateLimitKey)
    requires t != UnspecifiedChain && w.rules(t, pkt).Matched? && w.rules(t, pkt).rule == Convert(rule)
    ensures var w' := Scan(w, pkt, t).0;
            if rule.rateLimit == 0 || k != RateLimitKey(t, rule.priority) then
              (k in w'.buckets <==> k in w.buckets) && (k in w.buckets ==> w'.buckets[k] == w.buckets[k])
            else
              var before := if k in w.buckets then w.buckets[k] else Bucket(rule.burstLimit, rule.burstLimit, w.clock);
              && k in w'.buckets && w'.buckets[k].lastUpdate == w.clock && w'.buckets[k].capacity == before.capacity
              && before.tokens == w'.buckets[k].tokens + if HasToken(w, t, rule) then 1 else 0
  {
  }

  /** Only a stateful rule that allows the packet opens or advances a connection, and only the packet's own. */
  lemma ConnectionEffect(w: World, t: ChainType, pkt: PacketInfo, rule: Rule, k: ConnKey)
    requires t != UnspecifiedChain && w.rules(t, pkt).Matched? && w.rules(t, pkt).rule == Convert(rule)
    ensures var w' := Scan(w, pkt, t).0;
            if rule.stateful && rule.action == Allow && !Refuses(w, t, rule) && k == ConnKeyOf(pkt) then
              && k in w'.conns && w'.conns[k].lastSeen == w.wall
              && (k !in w.conns ==> w'.conns[k] == ConnEntry(k, pkt.protocol, New, w.wall, w.wall, 1, pkt.size))
            else
              (k in w'.conns <==> k in w.conns) && (k in w.conns ==> w'.conns[k] == w.conns[k])
  {
  }

  /** Two packets share a connection entry exactly if addresses and ports agree, a missing port counting as 0. */
  lemma SharedConnectionExactly(p: PacketInfo, q: PacketInfo)
    ensures ConnKeyOf(p) == ConnKeyOf(q) <==>
              && p.srcIp == q.srcIp && p.dstIp == q.dstIp
              && (p.srcPort == q.srcPort || {p.srcPort, q.srcPort} == {None, Some(0)})
              && (p.dstPort == q.dstPort || {p.dstPort, q.dstPort} == {None, Some(0)})
  {
    SamePort(p.srcPort, q.srcPort);
    SamePort(p.dstPort, q.dstPort);
  }

  lemma SamePort(a: Option<nat>, b: Option<nat>)
    ensures UnwrapOr(a) == UnwrapOr(b) <==> a == b || {a, b} == {None, Some(0)}
  {
    if a != b && {a, b} == {None, Some(0)} {
      assert a in {None, Some(0)} && b in {None, Some(0)};
    }
    if a != b && UnwrapOr(a) == UnwrapOr(b) {
      assert {a, b} == {None, Some(0)};
    }
  }

  /** The statistic that says how the packet was decided. */
  ghost predicate Tells(acl: Acl, w: World, t: ChainType, pkt: PacketInfo, hit: bool, key: Option<StatKey>) {
    if hit then key == Some(CacheHits)
    else if t == UnspecifiedChain then key == None
    else
      && (forall o :: IsWinner(acl.Chains(), t, pkt, o) ==>
            key == if Refuses(w, t, RuleAt(acl.Chains(), o)) then None else Some(RuleMatchesStat))
      && ((forall o :: !Candidate(acl.Chains(), t, pkt, o)) ==>
            key == Some(if FirstDefault(acl.Chains(), t, Drop) then DefaultDrops else DefaultAllows))
  }

  lemma FirstDefaultUnique(chains: seq<Chain>, t: ChainType, action: Action)
    ensures FirstDefault(chains, t, action) <==> action == DefaultFor(chains, t)
  {
    DefaultIsTheFirst(chains, t);
    DefaultIsFirst(chains, t);
  }

  /** One call raises one statistic, by one, and it is the one that tells how the packet was decided. */
  lemma StatTells(acl: Acl, s: AclState, pkt: PacketInfo, t: ChainType, lag: nat, order: seq<CacheKey>)
    returns (key: Option<StatKey>)
    requires s.world.rules == RulingOf(Compile(acl))
    ensures Tells(acl, s.world.(clock := s.world.clock + lag), t, pkt, KeyOf(pkt, t) in s.cache, key)
    ensures forall k :: StatCount(ProcessPacket(s, pkt, t, lag, order).0.stats, k) ==
                        StatCount(s.stats, k) + if key == Some(k) then 1 else 0
  {
    var at := s.world.(clock := s.world.clock + lag);
    if KeyOf(pkt, t) in s.cache {
      key := Some(CacheHits);
    } else if t == UnspecifiedChain {
      key := None;
    } else {
      key := if Scan(at, pkt, t).1.log == RateLimitDrop then None else Some(ScanStat(s.world.rules(t, pkt)));
      MissStat(s, pkt, t, lag, order);
      ScanStatTells(acl, at, pkt, t);
    }
  }

  lemma MissStat(s: AclState, pkt: PacketInfo, t: ChainType, lag: nat, order: seq<CacheKey>)
    requires KeyOf(pkt, t) !in s.cache && t != UnspecifiedChain
    ensures var refused := Scan(s.world.(clock := s.world.clock + lag), pkt, t).1.log == RateLimitDrop;
            ProcessPacket(s, pkt, t, lag, order).0.stats ==
              if refused then s.stats else Bump(s.stats, ScanStat(s.world.rules(t, pkt)))
  {
    MissSettles(s, pkt, t, lag, order);
  }

  lemma ScanStatTells(acl: Acl, at: World, pkt: PacketInfo, t: ChainType)
    requires at.rules == RulingOf(Compile(acl)) && t != UnspecifiedChain
    ensures var refused := Scan(at, pkt, t).1.log == RateLimitDrop;
            Tells(acl, at, t, pkt, false, if refused then None else Some(ScanStat(at.rules(t, pkt))))
  {
    WinnerDecides(acl, t, pkt);
    forall o | IsWinner(acl.Chains(), t, pkt, o)
      ensures WinnerAnswer(at, t, RuleAt(acl.Chains(), o), pkt, Scan(at, pkt, t).1)
    {
      MatchedAnswer(at, t, pkt, RuleAt(acl.Chains(), o));
    }
    if forall o :: !Candidate(acl.Chains(), t, pkt, o) {
      NoMatchNoCandidate(acl, t, pkt);
      DefaultedAnswer(at, t, pkt, acl.Chains());
      FirstDefaultUnique(acl.Chains(), t, Drop);
    }
  }

  /** While the cache has room, a packet answered once is found in it by the next packet of its key. */
  lemma AnswerIsCached(s: AclState, pkt: PacketInfo, t: ChainType, lag: nat, order: seq<CacheKey>)
    requires KeyOf(pkt, t) !in s.cache && t != UnspecifiedChain && |s.cache| < 2 * s.cacheMax
    requires Scan(s.world.(clock := s.world.clock + lag), pkt, t).1.log != RateLimitDrop
    ensures var cache' := ProcessPacket(s, pkt, t, lag, order).0.cache;
            && cache'.Keys == s.cache.Keys + {KeyOf(pkt, t)}
            && cache'[KeyOf(pkt, t)].lastAccess == s.world.clock
            && cache'[KeyOf(pkt, t)].result == Scan(s.world.(clock := s.world.clock + lag), pkt, t).1
            && forall k :: k in s.cache ==> cache'[k] == s.cache[k]
  {
    var at := s.world.(clock := s.world.clock + lag);
    MissSettles(s, pkt, t, lag, order);
    CachedWithRoom(s, pkt, t, order, Scan(at, pkt, t).0, Scan(at, pkt, t).1);
    EntryKeepsAnswer(at, pkt, t, s.world.clock);
  }

  lemma EntryKeepsAnswer(w: World, pkt: PacketInfo, t: ChainType, accessed: nat)
    requires t != UnspecifiedChain && Scan(w, pkt, t).1.log != RateLimitDrop
    ensures EntryFor(w.rules, pkt, t, accessed).result == Scan(w, pkt, t).1
    ensures EntryFor(w.rules, pkt, t, accessed).lastAccess == accessed
  {
  }

  lemma CachedWithRoom(s: AclState, pkt: PacketInfo, t: ChainType, order: seq<CacheKey>, after: World, res: AclResult)
    requires KeyOf(pkt, t) !in s.cache && |s.cache| < 2 * s.cacheMax
    requires t != UnspecifiedChain && res.log != RateLimitDrop
    ensures Recorded(s, pkt, t, after, res, order).cache ==
            s.cache[KeyOf(pkt, t) := EntryFor(s.world.rules, pkt, t, s.world.clock)]
  {
    assert |s.cache[KeyOf(pkt, t) := EntryFor(s.world.rules, pkt, t, s.world.clock)]| == |s.cache| + 1;
  }

  // --- What the cleanup task and the refill task leave ---

  /** Connections unseen for more than a minute go, and no other. */
  lemma ConnsSwept(w: World, k: ConnKey)
    ensures var conns' := StepPlain(w, SweepConns).0.conns;
            && (k in conns' <==> k in w.conns && w.wall <= w.conns[k].lastSeen + 60)
            && (k in conns' ==> conns'[k] == w.conns[k])
  {
  }

  /** Of the buckets reached, those unused for 20 seconds go, and no other. */
  lemma BucketsSwept(w: World, keys: set<RateLimitKey>, k: RateLimitKey)
    ensures var buckets' := StepPlain(w, SweepBuckets(keys)).0.buckets;
            && (k in buckets' <==> k in w.buckets && (k in keys ==> w.clock < w.buckets[k].lastUpdate + 20_000_000_000))
            && (k in buckets' ==> buckets'[k] == w.buckets[k])
  {
  }

  /** Time passes on both clocks and changes no table. */
  lemma ClocksAdvance(w: World, nanos: nat, secs: nat)
    ensures var w' := StepPlain(w, Advance(nanos, secs)).0;
            && w'.clock == w.clock + nanos && w'.wall == w.wall + secs
            && w'.buckets == w.buckets && w'.conns == w.conns && w'.counters == w.counters && w'.rules == w.rules
  {
  }

  /** A refill adds tokens up to the capacity, to its bucket alone. */
  lemma BucketRefilled(w: World, k: RateLimitKey, n: nat, other: RateLimitKey)
    ensures var buckets' := StepPlain(w, Refill(k, n)).0.buckets;
            && buckets'.Keys == w.buckets.Keys
            && (other in w.buckets && other != k ==> buckets'[other] == w.buckets[other])
            && (k in w.buckets && w.buckets[k].tokens + n <= w.buckets[k].capacity ==>
                  buckets'[k] == w.buckets[k].(tokens := w.buckets[k].tokens + n))
            && (k in w.buckets && w.buckets[k].tokens + n > w.buckets[k].capacity ==>
                  buckets'[k] == w.buckets[k].(tokens := w.buckets[k].capacity))
  {
  }
}
