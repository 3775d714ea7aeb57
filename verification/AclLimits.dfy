/** Which rate limits stand on their own: buckets are keyed by chain and priority, not by rule. */
module AclLimits {
  import opened Prelude
  import opened AclTypes
  import opened AclRules
  import opened AclEngine

  /** The rule that decides the packet draws from bucket `k`. */
  predicate Draws(rules: Ruling, chain: ChainType, pkt: PacketInfo, k: RateLimitKey) {
    && chain == k.chain != UnspecifiedChain
    && var v := rules(chain, pkt); v.Matched? && v.rule.rateLimit > 0 && v.rule.priority == k.priority
  }

  predicate DrawsFrom(rules: Ruling, ev: Event, k: RateLimitKey) {
    ev.Packet? && Draws(rules, ev.chain, ev.pkt, k)
  }

  /** Of a packet that is left out, only the time it took remains. */
  function Heard(ev: Event, keep: bool): Event {
    if ev.Packet? && !keep then Advance(ev.lag, 0) else ev
  }

  /** The run in which every packet that does not draw from `k` is left out. */
  function Muted(w: World, evs: seq<Event>, k: RateLimitKey): (muted: seq<Event>)
    ensures |muted| == |evs|
    decreases |evs|
  {
    if evs == [] then []
    else [Heard(evs[0], DrawsFrom(w.rules, evs[0], k))] + Muted(StepPlain(w, evs[0]).0, evs[1..], k)
  }

  /** Same rules, same time and the same bucket `k`. */
  ghost predicate Alike(v: World, w: World, k: RateLimitKey) {
    && v.rules == w.rules && v.clock == w.clock
    && (k in v.buckets <==> k in w.buckets) && (k in v.buckets ==> v.buckets[k] == w.buckets[k])
  }

  lemma OtherPacketKeeps(w: World, pkt: PacketInfo, chain: ChainType, k: RateLimitKey)
    requires !Draws(w.rules, chain, pkt, k)
    ensures Alike(Scan(w, pkt, chain).0, w, k)
  {
  }

  /** A packet of a limited rule: its bucket decides between a refusal and the rule's result. */
  lemma LimitedScan(w: World, pkt: PacketInfo, chain: ChainType, k: RateLimitKey)
    requires Draws(w.rules, chain, pkt, k)
    ensures var rule := w.rules(chain, pkt).rule;
            var draw := CheckRateLimit(w, k, rule.rateLimit, rule.burstLimit, true);
            var (w', res) := Scan(w, pkt, chain);
            && w'.rules == w.rules && w'.clock == w.clock && w'.buckets == draw.world.buckets
            && res == if draw.Refused? then AclResult(Drop, Priority(rule.priority), RateLimitDrop)
               else RuleResult(rule, pkt)
  {
  }

  lemma DrawAgrees(v: World, w: World, k: RateLimitKey, rate: nat, burst: nat)
    requires Alike(v, w, k) && rate > 0
    ensures var a, b := CheckRateLimit(v, k, rate, burst, true), CheckRateLimit(w, k, rate, burst, true);
            && a.Refused? == b.Refused?
            && k in a.world.buckets && k in b.world.buckets && a.world.buckets[k] == b.world.buckets[k]
  {
  }

  lemma OwnPacketAgrees(v: World, w: World, pkt: PacketInfo, chain: ChainType, k: RateLimitKey)
    requires Alike(v, w, k) && Draws(w.rules, chain, pkt, k)
    ensures Alike(Scan(v, pkt, chain).0, Scan(w, pkt, chain).0, k)
    ensures Scan(v, pkt, chain).1 == Scan(w, pkt, chain).1
  {
    LimitedScan(v, pkt, chain, k);
    LimitedScan(w, pkt, chain, k);
    var rule := w.rules(chain, pkt).rule;
    DrawAgrees(v, w, k, rule.rateLimit, rule.burstLimit);
  }

  lemma QuietAgrees(v: World, w: World, ev: Event, k: RateLimitKey)
    requires Alike(v, w, k) && !ev.Packet?
    ensures Alike(StepPlain(v, ev).0, StepPlain(w, ev).0, k)
  {
  }

  lemma HeardAgrees(v: World, w: World, pkt: PacketInfo, chain: ChainType, lag: nat, order: seq<CacheKey>,
                    k: RateLimitKey)
    requires Alike(v, w, k) && Draws(v.rules, chain, pkt, k)
    ensures Alike(StepPlain(v, Packet(pkt, chain, lag, order)).0, StepPlain(w, Packet(pkt, chain, lag, order)).0, k)
    ensures StepPlain(v, Packet(pkt, chain, lag, order)).1 == StepPlain(w, Packet(pkt, chain, lag, order)).1
  {
    PacketStep(v, pkt, chain, lag, order);
    PacketStep(w, pkt, chain, lag, order);
    OwnPacketAgrees(v.(clock := v.clock + lag), w.(clock := w.clock + lag), pkt, chain, k);
  }

  lemma UnheardAgrees(v: World, w: World, pkt: PacketInfo, chain: ChainType, lag: nat, order: seq<CacheKey>,
                      k: RateLimitKey)
    requires Alike(v, w, k) && !Draws(v.rules, chain, pkt, k)
    ensures Alike(StepPlain(v, Packet(pkt, chain, lag, order)).0, StepPlain(w, Advance(lag, 0)).0, k)
  {
    PacketStep(v, pkt, chain, lag, order);
    OtherPacketKeeps(v.(clock := v.clock + lag), pkt, chain, k);
  }

  lemma MutedStep(v: World, w: World, ev: Event, k: RateLimitKey)
    requires Alike(v, w, k)
    ensures var heard := Heard(ev, DrawsFrom(v.rules, ev, k));
            && Alike(StepPlain(v, ev).0, StepPlain(w, heard).0, k)
            && (heard.Packet? ==> StepPlain(v, ev).1 == StepPlain(w, heard).1)
  {
    match ev
    case Packet(pkt, chain, lag, order) =>
      if Draws(v.rules, chain, pkt, k) {
        HeardAgrees(v, w, pkt, chain, lag, order, k);
      } else {
        UnheardAgrees(v, w, pkt, chain, lag, order, k);
      }
    case _ =>
      QuietAgrees(v, w, ev, k);
  }

  /** Over every run, the answers to the packets of one bucket do not depend on any other packet. */
  lemma {:induction false} BucketsAreIsolated(v: World, w: World, evs: seq<Event>, k: RateLimitKey)
    requires Alike(v, w, k)
    ensures forall n :: 0 <= n < |evs| && Muted(v, evs, k)[n].Packet? ==>
              RunPlain(v, evs).1[n] == RunPlain(w, Muted(v, evs, k)).1[n]
    decreases |evs|
  {
    if evs != [] {
      var muted := Muted(v, evs, k);
      MutedStep(v, w, evs[0], k);
      assert muted[1..] == Muted(StepPlain(v, evs[0]).0, evs[1..], k);
      BucketsAreIsolated(StepPlain(v, evs[0]).0, StepPlain(w, muted[0]).0, evs[1..], k);
    }
  }

  // --- Per rule ---

  predicate DecidedByRule(c: Compiled, t: ChainType, i: nat, pkt: PacketInfo)
    requires t != UnspecifiedChain
  {
    var v := Decide(c, t, pkt);
    v.Matched? && v.index == i
  }

  predicate OfRule(c: Compiled, t: ChainType, i: nat, ev: Event)
    requires t != UnspecifiedChain
  {
    ev.Packet? && ev.chain == t && DecidedByRule(c, t, i, ev.pkt)
  }

  /** The run in which only the packets that this rule decides are left. */
  function Alone(c: Compiled, t: ChainType, i: nat, evs: seq<Event>): (alone: seq<Event>)
    requires t != UnspecifiedChain
    ensures |alone| == |evs|
  {
    if evs == [] then [] else [Heard(evs[0], OfRule(c, t, i, evs[0]))] + Alone(c, t, i, evs[1..])
  }

  ghost predicate NoReload(evs: seq<Event>) {
    forall n :: 0 <= n < |evs| ==> !evs[n].Reload?
  }

  ghost predicate SameAnswers(c: Compiled, t: ChainType, i: nat, w: World, evs: seq<Event>)
    requires t != UnspecifiedChain
  {
    forall n :: 0 <= n < |evs| && OfRule(c, t, i, evs[n]) ==>
      RunPlain(w, evs).1[n] == RunPlain(w, Alone(c, t, i, evs)).1[n]
  }

  /** From all tables, in all runs, the rule answers its packets as if it were the only one. */
  ghost predicate Independent(c: Compiled, t: ChainType, i: nat)
    requires t != UnspecifiedChain
  {
    forall w: World, evs :: w.rules == RulingOf(c) && NoReload(evs) ==> SameAnswers(c, t, i, w, evs)
  }

  predicate SharesBucket(c: Compiled, t: ChainType, i: nat, j: nat)
    requires t != UnspecifiedChain && i < |c.Rules(t)| && j < |c.Rules(t)|
  {
    var a, b := c.Rules(t)[i], c.Rules(t)[j];
    i != j && a.rateLimit > 0 && b.rateLimit > 0 && a.priority == b.priority
  }

  /** Another rule draws from this rule's bucket, and both decide some packet. */
  ghost predicate Shared(c: Compiled, t: ChainType, i: nat)
    requires t != UnspecifiedChain && i < |c.Rules(t)|
  {
    exists j: nat, p, q :: j < |c.Rules(t)| && SharesBucket(c, t, i, j) && DecidedByRule(c, t, i, p)
      && DecidedByRule(c, t, j, q)
  }

  lemma {:induction false} AloneAt(c: Compiled, t: ChainType, i: nat, evs: seq<Event>, n: nat)
    requires t != UnspecifiedChain && n < |evs|
    ensures Alone(c, t, i, evs)[n] == Heard(evs[n], OfRule(c, t, i, evs[n]))
  {
    if n > 0 {
      AloneAt(c, t, i, evs[1..], n - 1);
    }
  }

  lemma RulesKept(w: World, ev: Event)
    requires !ev.Reload?
    ensures StepPlain(w, ev).0.rules == w.rules
  {
  }

  /** When the bucket is not shared, leaving out other rules' packets is leaving out other buckets' packets. */
  lemma {:induction false} AloneIsMuted(c: Compiled, t: ChainType, i: nat, w: World, evs: seq<Event>, k: RateLimitKey)
    requires t != UnspecifiedChain && w.rules == RulingOf(c) && NoReload(evs)
    requires forall ev :: DrawsFrom(RulingOf(c), ev, k) <==> OfRule(c, t, i, ev)
    ensures Alone(c, t, i, evs) == Muted(w, evs, k)
    decreases |evs|
  {
    if evs != [] {
      RulesKept(w, evs[0]);
      AloneIsMuted(c, t, i, StepPlain(w, evs[0]).0, evs[1..], k);
    }
  }

  lemma UnsharedDraws(c: Compiled, t: ChainType, i: nat, p: PacketInfo, ev: Event)
    requires t != UnspecifiedChain && i < |c.Rules(t)| && c.Rules(t)[i].rateLimit > 0
    requires !Shared(c, t, i) && DecidedByRule(c, t, i, p)
    ensures DrawsFrom(RulingOf(c), ev, RateLimitKey(t, c.Rules(t)[i].priority)) <==> OfRule(c, t, i, ev)
  {
    if DrawsFrom(RulingOf(c), ev, RateLimitKey(t, c.Rules(t)[i].priority)) {
      var j := Decide(c, t, ev.pkt).index;
      if j != i {
        assert SharesBucket(c, t, i, j) && DecidedByRule(c, t, j, ev.pkt);
        assert false;
      }
    }
  }

  lemma LimitedIsIndependent(c: Compiled, t: ChainType, i: nat, w: World, evs: seq<Event>, n: nat)
    requires t != UnspecifiedChain && i < |c.Rules(t)| && c.Rules(t)[i].rateLimit > 0 && !Shared(c, t, i)
    requires w.rules == RulingOf(c) && NoReload(evs) && n < |evs| && OfRule(c, t, i, evs[n])
    ensures RunPlain(w, evs).1[n] == RunPlain(w, Alone(c, t, i, evs)).1[n]
  {
    var k := RateLimitKey(t, c.Rules(t)[i].priority);
    forall ev ensures DrawsFrom(RulingOf(c), ev, k) <==> OfRule(c, t, i, ev) {
      UnsharedDraws(c, t, i, evs[n].pkt, ev);
    }
    AloneIsMuted(c, t, i, w, evs, k);
    AloneAt(c, t, i, evs, n);
    BucketsAreIsolated(w, w, evs, k);
  }

  /** A rule without a limit gives its own result, whatever came before. */
  lemma {:induction false} UnlimitedAnswer(c: Compiled, t: ChainType, i: nat, w: World, evs: seq<Event>, n: nat)
    requires t != UnspecifiedChain && i < |c.Rules(t)| && c.Rules(t)[i].rateLimit == 0
    requires w.rules == RulingOf(c) && NoReload(evs) && n < |evs| && OfRule(c, t, i, evs[n])
    ensures RunPlain(w, evs).1[n] == Some(RuleResult(c.Rules(t)[i], evs[n].pkt))
    decreases n
  {
    if n > 0 {
      RulesKept(w, evs[0]);
      UnlimitedAnswer(c, t, i, StepPlain(w, evs[0]).0, evs[1..], n - 1);
    }
  }

  lemma AloneNoReload(c: Compiled, t: ChainType, i: nat, evs: seq<Event>)
    requires t != UnspecifiedChain && NoReload(evs)
    ensures NoReload(Alone(c, t, i, evs))
  {
    forall n | 0 <= n < |evs| ensures !Alone(c, t, i, evs)[n].Reload? {
      AloneAt(c, t, i, evs, n);
    }
  }

  /** With one token left in a shared bucket, the other rule's packet takes it. */
  lemma SharedIsDependent(c: Compiled, t: ChainType, i: nat, j: nat, p: PacketInfo, q: PacketInfo)
    requires t != UnspecifiedChain && i < |c.Rules(t)| && j < |c.Rules(t)|
    requires SharesBucket(c, t, i, j) && DecidedByRule(c, t, i, p) && DecidedByRule(c, t, j, q)
    ensures !Independent(c, t, i)
  {
    var k := RateLimitKey(t, c.Rules(t)[i].priority);
    var w := World(RulingOf(c), map[k := Bucket(1, 1, 0)], map[], map[], 0, 0);
    var first, second := Packet(q, t, 0, []), Packet(p, t, 0, []);
    var evs := [first, second];
    var alone := Alone(c, t, i, evs);
    AloneAt(c, t, i, evs, 0);
    AloneAt(c, t, i, evs, 1);
    assert alone == [Advance(0, 0), second];
    SecondAnswer(w, first, second);
    SecondAnswer(w, Advance(0, 0), second);
    TakesLast(w, q, t, k);
    assert OfRule(c, t, i, evs[1]);
    assert !SameAnswers(c, t, i, w, evs);
  }

  lemma TakesLast(w: World, pkt: PacketInfo, t: ChainType, k: RateLimitKey)
    requires Draws(w.rules, t, pkt, k) && k in w.buckets && w.buckets[k] == Bucket(1, 1, 0)
    ensures var w' := Scan(w, pkt, t).0;
            w'.rules == w.rules && k in w'.buckets && w'.buckets[k].tokens == 0
  {
  }

  /** A rule's limit stands on its own if and only if no other limited rule of its type has its priority. */
  lemma IndependentExactly(c: Compiled, t: ChainType, i: nat)
    requires t != UnspecifiedChain && i < |c.Rules(t)|
    ensures Independent(c, t, i) <==> !Shared(c, t, i)
  {
    if Shared(c, t, i) {
      var j: nat, p, q :| j < |c.Rules(t)| && SharesBucket(c, t, i, j) && DecidedByRule(c, t, i, p)
          && DecidedByRule(c, t, j, q);
      SharedIsDependent(c, t, i, j, p, q);
    } else {
      forall w: World, evs, n | w.rules == RulingOf(c) && NoReload(evs) && 0 <= n < |evs| && OfRule(c, t, i, evs[n])
        ensures RunPlain(w, evs).1[n] == RunPlain(w, Alone(c, t, i, evs)).1[n]
      {
        if c.Rules(t)[i].rateLimit > 0 {
          LimitedIsIndependent(c, t, i, w, evs, n);
        } else {
          AloneAt(c, t, i, evs, n);
          AloneNoReload(c, t, i, evs);
          UnlimitedAnswer(c, t, i, w, evs, n);
          UnlimitedAnswer(c, t, i, w, Alone(c, t, i, evs), n);
        }
      }
      assert forall w: World, evs :: w.rules == RulingOf(c) && NoReload(evs) ==> SameAnswers(c, t, i, w, evs);
    }
  }

  // --- How many packets a bucket lets through ---

  function Drawn(w: World, evs: seq<Event>, k: RateLimitKey): nat
    decreases |evs|
  {
    if evs == [] then 0
    else (if DrawsFrom(w.rules, evs[0], k) then 1 else 0) + Drawn(StepPlain(w, evs[0]).0, evs[1..], k)
  }

  predicate Passes(w: World, ev: Event, k: RateLimitKey) {
    DrawsFrom(w.rules, ev, k) && StepPlain(w, ev).1 != None && StepPlain(w, ev).1.value.log != RateLimitDrop
  }

  function Passed(w: World, evs: seq<Event>, k: RateLimitKey): nat
    decreases |evs|
  {
    if evs == [] then 0
    else (if Passes(w, evs[0], k) then 1 else 0) + Passed(StepPlain(w, evs[0]).0, evs[1..], k)
  }

  /** Nothing but packets concerns the bucket. */
  predicate Undisturbed(ev: Event, k: RateLimitKey) {
    !ev.SweepBuckets? && !ev.Reload? && (ev.Refill? ==> ev.key != k)
  }

  ghost predicate AllUndisturbed(evs: seq<Event>, k: RateLimitKey) {
    forall n :: 0 <= n < |evs| ==> Undisturbed(evs[n], k)
  }

  function Min(a: nat, b: nat): nat {
    if a < b then a else b
  }

  function Left(b: Bucket): nat {
    if b.capacity == 0 then 0 else b.tokens
  }

  lemma SpendsOne(w: World, ev: Event, k: RateLimitKey)
    requires k in w.buckets && DrawsFrom(w.rules, ev, k)
    ensures var w' := StepPlain(w, ev).0;
            && k in w'.buckets && w'.buckets[k].capacity == w.buckets[k].capacity
            && (Passes(w, ev, k) <==> Left(w.buckets[k]) > 0)
            && w'.buckets[k].tokens == w.buckets[k].tokens - if Passes(w, ev, k) then 1 else 0
  {
    LimitedScan(w.(clock := w.clock + ev.lag), ev.pkt, ev.chain, k);
    PacketStep(w, ev.pkt, ev.chain, ev.lag, ev.order);
  }

  lemma SpendsNone(w: World, ev: Event, k: RateLimitKey)
    requires Undisturbed(ev, k) && !DrawsFrom(w.rules, ev, k)
    ensures var w' := StepPlain(w, ev).0;
            (k in w'.buckets <==> k in w.buckets) && (k in w.buckets ==> w'.buckets[k] == w.buckets[k])
  {
    match ev
    case Packet(pkt, chain, lag, order) =>
      PacketStep(w, pkt, chain, lag, order);
      OtherPacketKeeps(w.(clock := w.clock + lag), pkt, chain, k);
    case _ =>
  }

  /** Between refills a bucket passes exactly as many of its packets as it has tokens. */
  lemma {:induction false} TokensArePasses(w: World, evs: seq<Event>, k: RateLimitKey)
    requires k in w.buckets && AllUndisturbed(evs, k)
    ensures Passed(w, evs, k) == Min(Drawn(w, evs, k), Left(w.buckets[k]))
    decreases |evs|
  {
    if evs != [] {
      if DrawsFrom(w.rules, evs[0], k) {
        SpendsOne(w, evs[0], k);
      } else {
        SpendsNone(w, evs[0], k);
      }
      TokensArePasses(StepPlain(w, evs[0]).0, evs[1..], k);
    }
  }

  /** Every rule that draws from `k` has this burst. */
  ghost predicate BurstOf(rules: Ruling, k: RateLimitKey, burst: nat) {
    forall pkt :: Draws(rules, k.chain, pkt, k) ==> rules(k.chain, pkt).rule.burstLimit == burst
  }

  lemma Creates(w: World, ev: Event, k: RateLimitKey, burst: nat)
    requires k !in w.buckets && DrawsFrom(w.rules, ev, k) && BurstOf(w.rules, k, burst)
    ensures var w' := StepPlain(w, ev).0;
            && k in w'.buckets && (Passes(w, ev, k) <==> burst > 0)
            && Left(w'.buckets[k]) == if burst > 0 then burst - 1 else 0
  {
    assert Draws(w.rules, k.chain, ev.pkt, k);
    LimitedScan(w.(clock := w.clock + ev.lag), ev.pkt, ev.chain, k);
    PacketStep(w, ev.pkt, ev.chain, ev.lag, ev.order);
  }

  /** A new bucket holds the burst: exactly that many of its packets pass before a refill. */
  lemma {:induction false} BurstPasses(w: World, evs: seq<Event>, k: RateLimitKey, burst: nat)
    requires k !in w.buckets && AllUndisturbed(evs, k) && BurstOf(w.rules, k, burst)
    ensures Passed(w, evs, k) == Min(Drawn(w, evs, k), burst)
    decreases |evs|
  {
    if evs != [] {
      var w' := StepPlain(w, evs[0]).0;
      if DrawsFrom(w.rules, evs[0], k) {
        Creates(w, evs[0], k, burst);
        TokensArePasses(w', evs[1..], k);
      } else {
        SpendsNone(w, evs[0], k);
        RulesKept(w, evs[0]);
        BurstPasses(w', evs[1..], k, burst);
      }
    }
  }
}
