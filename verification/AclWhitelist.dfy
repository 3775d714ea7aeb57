/** Compilation of the TCP and UDP port whitelists into an inbound chain (`AclRuleBuilder`). */
module AclWhitelist {
  import opened Prelude
  import opened Text
  import opened Ports
  import opened PortMeaning
  import opened AclTypes
  import opened AclMeaning
  import opened AclRules

  const DEFAULT_WHITELIST_PRIORITY: nat := 1000

  function WhitelistRule(protocol: Protocol, priority: nat, ports: seq<string>, action: Action, stateful: bool): Rule {
    Rule(priority, true, protocol, ports, [], [], [], action, 0, 0, stateful, [], [])
  }

  /** The allow rule and the deny-everything-else rule for one protocol. */
  function ProtocolRules(protocol: Protocol, priority: nat, ports: seq<string>): seq<Rule> {
    [WhitelistRule(protocol, priority, ports, Allow, protocol == Tcp),
     WhitelistRule(protocol, 0, ["0-65535"], Drop, false)]
  }

  ghost predicate Buildable(tcp: seq<string>, udp: seq<string>) {
    (tcp != [] ==> AllAccepted(tcp)) && (udp != [] ==> AllAccepted(udp))
  }

  /** `rule_priority -= 1` on a `u32`, wrapping as release builds do. */
  function PriorityBelow(priority: nat): nat {
    if priority == 0 then 0xffff_ffff else priority - 1
  }

  /** The chain appended for the two whitelists. */
  ghost function WhitelistChain(tcp: seq<string>, udp: seq<string>, priority: nat): Chain
    requires Buildable(tcp, udp)
  {
    var tcpRules := if tcp == [] then [] else ProtocolRules(Tcp, priority, BuilderTexts(tcp));
    var udpPriority := if tcp == [] then priority else PriorityBelow(priority);
    var udpRules := if udp == [] then [] else ProtocolRules(Udp, udpPriority, BuilderTexts(udp));
    Chain(Inbound, true, tcpRules + udpRules, Allow)
  }

  class AclRuleBuilder {
    var acl: Option<Acl>
    const tcpWhitelist: seq<string>
    const udpWhitelist: seq<string>
    const whitelistPriority: Option<nat>

    constructor (acl: Option<Acl>, tcp: seq<string>, udp: seq<string>, priority: Option<nat>)
      ensures this.acl == acl && tcpWhitelist == tcp && udpWhitelist == udp && whitelistPriority == priority
    {
      this.acl, tcpWhitelist, udpWhitelist, whitelistPriority := acl, tcp, udp, priority;
    }

    function StartPriority(): nat {
      if whitelistPriority.Some? then whitelistPriority.value else DEFAULT_WHITELIST_PRIORITY
    }

    /** `generate_acl_from_whitelists`. */
    method GenerateAclFromWhitelists() returns (r: Result<(), PortError>)
      modifies this`acl
      ensures tcpWhitelist == [] && udpWhitelist == [] ==> r.Ok? && acl == old(acl)
      ensures tcpWhitelist != [] || udpWhitelist != [] ==>
                && (r.Ok? <==> Buildable(tcpWhitelist, udpWhitelist))
                && var priority := if whitelistPriority.Some? then whitelistPriority.value else 1000;
                   r.Ok? ==> acl == Some(AppendChain(old(acl), WhitelistChain(tcpWhitelist, udpWhitelist, priority)))
      ensures r.Err? ==>
                && acl == old(acl)
                && FirstComplaint(if tcpWhitelist != [] && !AllAccepted(tcpWhitelist) then tcpWhitelist
                     else udpWhitelist, r.error)
    {
      if tcpWhitelist == [] && udpWhitelist == [] {
        return Ok(());
      }
      var rules := [];
      var priority := StartPriority();
      if tcpWhitelist != [] {
        var tcpPorts := BuilderParsePortList(tcpWhitelist);
        if tcpPorts.Err? {
          return Err(tcpPorts.error);
        }
        rules := rules + ProtocolRules(Tcp, priority, tcpPorts.value);
        priority := PriorityBelow(priority);
      }
      if udpWhitelist != [] {
        var udpPorts := BuilderParsePortList(udpWhitelist);
        if udpPorts.Err? {
          return Err(udpPorts.error);
        }
        rules := rules + ProtocolRules(Udp, priority, udpPorts.value);
      }
      assert rules == WhitelistChain(tcpWhitelist, udpWhitelist, StartPriority()).rules;
      acl := Some(AppendChain(acl, Chain(Inbound, true, rules, Allow)));
      return Ok(());
    }
  }

  function ChainsOf(acl: Option<Acl>): seq<Chain> {
    if acl.Some? then acl.value.Chains() else []
  }

  function AppendChain(acl: Option<Acl>, chain: Chain): (acl': Acl)
    ensures acl'.Chains() == ChainsOf(acl) + [chain]
  {
    Acl(Some(ChainsOf(acl) + [chain]))
  }

  // --- What the whitelist means ---

  /** `port` lies between the numbers typed. */
  ghost predicate Typed(spec: string, port: nat) {
    exists low: nat, high: nat :: SpecReads(spec, low, high) && low <= port <= high
  }

  /** `port` lies in one of the ranges the operator listed. */
  ghost predicate Listed(specs: seq<string>, port: nat) {
    exists i :: 0 <= i < |specs| && Typed(specs[i], port)
  }

  lemma TypedRange(spec: string, port: nat)
    requires SpecBounds(spec).Ok?
    ensures Typed(spec, port) <==> SpecBounds(spec).value.Contains(port)
  {
    var range := SpecBounds(spec).value;
    forall low, high ensures range == PortRange(low, high) <==> SpecReads(spec, low, high) {
      SpecMeaning(spec, low, high);
    }
    assert SpecReads(spec, range.low, range.high);
  }

  lemma ListedRange(specs: seq<string>, port: nat)
    requires AllAccepted(specs)
    ensures Listed(specs, port) <==> exists i :: 0 <= i < |specs| && SpecBounds(specs[i]).value.Contains(port)
  {
    forall i | 0 <= i < |specs| ensures Typed(specs[i], port) <==> SpecBounds(specs[i]).value.Contains(port) {
      TypedRange(specs[i], port);
    }
  }

  lemma KeepHead(text: string, texts: seq<string>, range: PortRange)
    requires ParsePortRange(text) == Some(range)
    ensures KeepRanges([text] + texts) == [range] + KeepRanges(texts)
  {
    assert ([text] + texts)[1..] == texts;
  }

  /** An accepted list compiles to its ranges, so a non-empty one is never unrestricted. */
  lemma {:induction false} CompiledRanges(specs: seq<string>)
    requires AllAccepted(specs)
    ensures |KeepRanges(BuilderTexts(specs))| == |specs|
    ensures forall i :: 0 <= i < |specs| ==> KeepRanges(BuilderTexts(specs))[i] == SpecBounds(specs[i]).value
  {
    if specs != [] {
      BuilderTextsHead(specs);
      CompiledRanges(specs[1..]);
      BuilderTextKept(specs[0]);
      KeepHead(BuilderText(specs[0]), BuilderTexts(specs[1..]), SpecBounds(specs[0]).value);
      forall i | 0 <= i < |specs| ensures KeepRanges(BuilderTexts(specs))[i] == SpecBounds(specs[i]).value {
        if i > 0 { assert specs[i] == specs[1..][i - 1]; }
      }
    }
  }

  lemma PrintedBounds()
    ensures PrintNat(0) == "0" && PrintNat(65535) == "65535"
  {
    assert PrintNat(6) == "6";
    assert PrintNat(65) == "65";
    assert PrintNat(655) == "655";
    assert PrintNat(6553) == "6553";
  }

  lemma FullRange()
    ensures KeepRanges(["0-65535"]) == [PortRange(0, 65535)]
  {
    var lo, hi := PrintNat(0), PrintNat(65535);
    PrintedBounds();
    ParsePrinted(0);
    ParsePrinted(65535);
    TrimParsed(lo);
    TrimParsed(hi);
    assert "0-65535" == lo + ['-'] + hi;
    SplitTwoPieces(lo, hi, '-');
    SplitOnceOfTwo(lo + ['-'] + hi, '-');
    assert ParsePortRange("0-65535") == Some(PortRange(0, 65535));
    assert ["0-65535"][1..] == [];
  }

  lemma AllowRuleMatches(protocol: Protocol, priority: nat, specs: seq<string>, pkt: PacketInfo)
    requires AllAccepted(specs) && specs != [] && protocol != AnyProtocol
    ensures RuleMatches(Convert(WhitelistRule(protocol, priority, BuilderTexts(specs), Allow, protocol == Tcp)), pkt)
            <==> pkt.protocol == protocol && (pkt.dstPort.None? || Listed(specs, pkt.dstPort.value))
  {
    CompiledRanges(specs);
    var ranges := KeepRanges(BuilderTexts(specs));
    if pkt.dstPort.Some? {
      var port := pkt.dstPort.value;
      ListedRange(specs, port);
      if Listed(specs, port) {
        var i :| 0 <= i < |specs| && SpecBounds(specs[i]).value.Contains(port);
        assert ranges[i] in ranges && ranges[i].Contains(port);
      }
      if AnyRange(ranges, pkt.dstPort) {
        var r :| r in ranges && r.Contains(port);
        var i :| 0 <= i < |ranges| && ranges[i] == r;
      }
    }
  }

  lemma DenyRuleMatches(protocol: Protocol, pkt: PacketInfo)
    requires protocol != AnyProtocol && (pkt.dstPort.Some? ==> pkt.dstPort.value <= 65535)
    ensures RuleMatches(Convert(WhitelistRule(protocol, 0, ["0-65535"], Drop, false)), pkt) <==>
            pkt.protocol == protocol
  {
    FullRange();
    assert pkt.dstPort.Some? ==> PortRange(0, 65535).Contains(pkt.dstPort.value);
    assert PortRange(0, 65535) in [PortRange(0, 65535)];
  }

  lemma {:induction false} DefaultForAppend(chains: seq<Chain>, chain: Chain, t: ChainType)
    requires chain.chainType != t || chain.defaultAction == Allow
    ensures DefaultFor(chains + [chain], t) == DefaultFor(chains, t)
  {
    if chains == [] {
      assert (chains + [chain])[1..] == [];
    } else {
      assert (chains + [chain])[1..] == chains[1..] + [chain];
      DefaultForAppend(chains[1..], chain, t);
    }
  }

  lemma {:induction false} FirstMatchPrefix(a: seq<FastRule>, b: seq<FastRule>, pkt: PacketInfo, from: nat)
    requires from <= |a| && FirstMatch(a, pkt, from) < |a|
    ensures FirstMatch(a + b, pkt, from) == FirstMatch(a, pkt, from)
    decreases |a| - from
  {
    assert (a + b)[from] == a[from];
    if !Eligible(a[from], pkt) {
      FirstMatchPrefix(a, b, pkt, from + 1);
    }
  }

  /** Appending the chain leaves every other vector, and every decision a user rule already makes. */
  lemma AppendKeepsDecisions(acl: Option<Acl>, chain: Chain, t: ChainType, pkt: PacketInfo)
    requires t != UnspecifiedChain && chain.chainType == Inbound && chain.defaultAction == Allow
    requires t != Inbound || Decide(Compile(Acl(Some(ChainsOf(acl)))), t, pkt).Matched?
    ensures Decide(Compile(AppendChain(acl, chain)), t, pkt) == Decide(Compile(Acl(Some(ChainsOf(acl)))), t, pkt)
  {
    var before, after := Compile(Acl(Some(ChainsOf(acl)))), Compile(AppendChain(acl, chain));
    CompiledAppend(acl, chain, t);
    if t == Inbound {
      FirstMatchPrefix(before.Rules(t), RulesFor([chain], t), pkt, 0);
    }
  }

  lemma CompiledAppend(acl: Option<Acl>, chain: Chain, t: ChainType)
    requires t != UnspecifiedChain && chain.chainType == Inbound && chain.defaultAction == Allow
    ensures var before, after := Compile(Acl(Some(ChainsOf(acl)))), Compile(AppendChain(acl, chain));
            && after.Rules(t) == (if t == Inbound then before.Rules(t) + RulesFor([chain], t) else before.Rules(t))
            && after.Default(t) == before.Default(t)
  {
    var user := ChainsOf(acl);
    RulesForAppend(user, [chain], t);
    DefaultForAppend(user, chain, t);
    if t != Inbound {
      assert RulesFor([chain], t) == RulesFor([chain][1..], t) == [];
      assert RulesFor(user, t) + [] == RulesFor(user, t);
    }
  }

  lemma CandidatesAppend(user: seq<Chain>, chain: Chain, pkt: PacketInfo, o: Origin)
    ensures o.chain < |user| ==> (Candidate(user + [chain], Inbound, pkt, o) <==> Candidate(user, Inbound, pkt, o))
    ensures Candidate(user + [chain], Inbound, pkt, o) ==> o.chain <= |user|
    ensures Candidate(user + [chain], Inbound, pkt, o) && o.chain == |user| ==>
              o.rule < |chain.rules| && RuleMatches(Convert(chain.rules[o.rule]), pkt)
  {
    if o.chain == |user| && o.rule < |chain.rules| {
      MatchesMeaning(chain.rules[o.rule], pkt);
    }
  }

  lemma AppendedIsWinner(user: seq<Chain>, chain: Chain, pkt: PacketInfo, at: nat)
    requires chain.chainType == Inbound && chain.enabled && Leads(chain.rules, at, pkt)
    requires forall o :: !Candidate(user, Inbound, pkt, o)
    ensures IsWinner(user + [chain], Inbound, pkt, Origin(|user|, at))
  {
    MatchesMeaning(chain.rules[at], pkt);
    forall o | Candidate(user + [chain], Inbound, pkt, o)
      ensures o.chain == |user| && o.rule < |chain.rules| && RuleMatches(Convert(chain.rules[o.rule]), pkt)
    {
      CandidatesAppend(user, chain, pkt, o);
    }
  }

  /** With no user rule matching, the winner is decided inside the appended chain. */
  lemma AppendedWinner(acl: Option<Acl>, chain: Chain, pkt: PacketInfo, at: nat)
    requires chain.chainType == Inbound && chain.enabled
    requires Decide(Compile(Acl(Some(ChainsOf(acl)))), Inbound, pkt).NoMatch?
    requires Leads(chain.rules, at, pkt)
    ensures Decide(Compile(AppendChain(acl, chain)), Inbound, pkt).Matched?
    ensures Decide(Compile(AppendChain(acl, chain)), Inbound, pkt).rule == Convert(chain.rules[at])
  {
    var user, whole := Acl(Some(ChainsOf(acl))), AppendChain(acl, chain);
    NoMatchNoCandidate(user, Inbound, pkt);
    AppendedIsWinner(user.Chains(), chain, pkt, at);
    WinnerDecided(whole, Inbound, pkt, Origin(|user.Chains()|, at));
  }

  /** With nothing in the appended chain matching either, the default is what it was. */
  lemma AppendedNoMatch(acl: Option<Acl>, chain: Chain, pkt: PacketInfo)
    requires chain.chainType == Inbound && chain.defaultAction == Allow
    requires Decide(Compile(Acl(Some(ChainsOf(acl)))), Inbound, pkt).NoMatch?
    requires forall r :: 0 <= r < |chain.rules| ==> !RuleMatches(Convert(chain.rules[r]), pkt)
    ensures Decide(Compile(AppendChain(acl, chain)), Inbound, pkt) ==
            Decide(Compile(Acl(Some(ChainsOf(acl)))), Inbound, pkt)
  {
    var user, whole := Acl(Some(ChainsOf(acl))), AppendChain(acl, chain);
    NoMatchNoCandidate(user, Inbound, pkt);
    forall o ensures !Candidate(user.Chains() + [chain], Inbound, pkt, o) {
      CandidatesAppend(user.Chains(), chain, pkt, o);
    }
    NoMatchNoCandidate(whole, Inbound, pkt);
    DefaultForAppend(user.Chains(), chain, Inbound);
  }

  /** The whitelist that governs a packet, if any. */
  function Governing(tcp: seq<string>, udp: seq<string>, pkt: PacketInfo): Option<seq<string>> {
    if pkt.protocol == Tcp && tcp != [] then Some(tcp)
    else if pkt.protocol == Udp && udp != [] then Some(udp)
    else None
  }

  /** `rules[at]` and `rules[at + 1]` are the allow and deny rules of `protocol`. */
  ghost predicate Pair(rules: seq<Rule>, at: nat, protocol: Protocol, specs: seq<string>, pkt: PacketInfo)
    requires AllAccepted(specs)
  {
    && at + 1 < |rules|
    && rules[at].enabled && rules[at].action == Allow && rules[at].stateful == (protocol == Tcp)
    && rules[at].rateLimit == 0
    && rules[at + 1].enabled && rules[at + 1].action == Drop && !rules[at + 1].stateful && rules[at + 1].rateLimit == 0
    && rules[at + 1].priority == 0
    && (RuleMatches(Convert(rules[at]), pkt) <==> pkt.protocol == protocol && Admitted(specs, pkt))
    && (RuleMatches(Convert(rules[at + 1]), pkt) <==> pkt.protocol == protocol)
  }

  lemma PairMatches(protocol: Protocol, priority: nat, specs: seq<string>, pkt: PacketInfo)
    requires AllAccepted(specs) && specs != [] && protocol != AnyProtocol
    requires pkt.dstPort.Some? ==> pkt.dstPort.value <= 65535
    ensures Pair(ProtocolRules(protocol, priority, BuilderTexts(specs)), 0, protocol, specs, pkt)
  {
    AllowRuleMatches(protocol, priority, specs, pkt);
    DenyRuleMatches(protocol, pkt);
  }

  /** Which rules of the chain a packet matches, by position. */
  ghost predicate Layout(rules: seq<Rule>, tcp: seq<string>, udp: seq<string>, pkt: PacketInfo)
    requires (tcp != [] ==> AllAccepted(tcp)) && (udp != [] ==> AllAccepted(udp))
  {
    var u := if tcp == [] then 0 else 2;
    && |rules| == u + (if udp == [] then 0 else 2)
    && (tcp != [] ==> Pair(rules, 0, Tcp, tcp, pkt))
    && (udp != [] ==> Pair(rules, u, Udp, udp, pkt))
  }

  lemma PairInFront(pair: seq<Rule>, back: seq<Rule>, protocol: Protocol, specs: seq<string>, pkt: PacketInfo)
    requires AllAccepted(specs) && |pair| == 2 && Pair(pair, 0, protocol, specs, pkt)
    ensures Pair(pair + back, 0, protocol, specs, pkt)
  {
    var all := pair + back;
    assert all[0] == pair[0] && all[1] == pair[1];
  }

  lemma PairBehind(front: seq<Rule>, pair: seq<Rule>, protocol: Protocol, specs: seq<string>, pkt: PacketInfo)
    requires AllAccepted(specs) && |pair| == 2 && Pair(pair, 0, protocol, specs, pkt)
    ensures Pair(front + pair, |front|, protocol, specs, pkt)
  {
    var all := front + pair;
    assert all[|front|] == pair[0] && all[|front| + 1] == pair[1];
  }

  lemma LayoutOf(tcpRules: seq<Rule>, udpRules: seq<Rule>, tcp: seq<string>, udp: seq<string>, pkt: PacketInfo)
    requires if tcp == [] then tcpRules == []
             else |tcpRules| == 2 && AllAccepted(tcp) && Pair(tcpRules, 0, Tcp, tcp, pkt)
    requires if udp == [] then udpRules == []
             else |udpRules| == 2 && AllAccepted(udp) && Pair(udpRules, 0, Udp, udp, pkt)
    ensures Layout(tcpRules + udpRules, tcp, udp, pkt)
  {
    if tcp != [] {
      PairInFront(tcpRules, udpRules, Tcp, tcp, pkt);
    }
    if udp != [] {
      PairBehind(tcpRules, udpRules, Udp, udp, pkt);
    }
  }

  lemma ChainMatches(tcp: seq<string>, udp: seq<string>, priority: nat, pkt: PacketInfo)
    requires Buildable(tcp, udp) && (pkt.dstPort.Some? ==> pkt.dstPort.value <= 65535)
    ensures Layout(WhitelistChain(tcp, udp, priority).rules, tcp, udp, pkt)
  {
    var tcpRules := if tcp == [] then [] else ProtocolRules(Tcp, priority, BuilderTexts(tcp));
    var udpPriority := if tcp == [] then priority else PriorityBelow(priority);
    var udpRules := if udp == [] then [] else ProtocolRules(Udp, udpPriority, BuilderTexts(udp));
    if tcp != [] { PairMatches(Tcp, priority, tcp, pkt); }
    if udp != [] { PairMatches(Udp, udpPriority, udp, pkt); }
    LayoutOf(tcpRules, udpRules, tcp, udp, pkt);
    assert WhitelistChain(tcp, udp, priority).rules == tcpRules + udpRules;
  }

  /** The packet's port is listed, or unknown. */
  ghost predicate Admitted(specs: seq<string>, pkt: PacketInfo) {
    pkt.dstPort.None? || Listed(specs, pkt.dstPort.value)
  }

  /** The rule at `at` matches and beats every other matching rule of its chain. */
  ghost predicate Leads(rules: seq<Rule>, at: nat, pkt: PacketInfo) {
    && at < |rules| && rules[at].enabled && RuleMatches(Convert(rules[at]), pkt)
    && forall r :: 0 <= r < |rules| && r != at && RuleMatches(Convert(rules[r]), pkt) ==>
         rules[r].priority < rules[at].priority || (rules[r].priority == rules[at].priority && at < r)
  }

  /** Of a pair alone in matching, the allow rule leads if the port is admitted, else the deny rule. */
  lemma PairLeads(rules: seq<Rule>, at: nat, protocol: Protocol, specs: seq<string>, pkt: PacketInfo)
    requires AllAccepted(specs) && Pair(rules, at, protocol, specs, pkt) && pkt.protocol == protocol
    requires forall r :: 0 <= r < |rules| && r != at && r != at + 1 ==> !RuleMatches(Convert(rules[r]), pkt)
    ensures Leads(rules, if Admitted(specs, pkt) then at else at + 1, pkt)
  {
    var i := if Admitted(specs, pkt) then at else at + 1;
    forall r | 0 <= r < |rules| && r != i && RuleMatches(Convert(rules[r]), pkt)
      ensures rules[r].priority < rules[i].priority || (rules[r].priority == rules[i].priority && i < r)
    {
      assert r == at || r == at + 1;
    }
  }

  /** The rules of the other protocol do not match. */
  lemma OnlyPairMatches(rules: seq<Rule>, tcp: seq<string>, udp: seq<string>, pkt: PacketInfo, at: nat)
    requires (tcp != [] ==> AllAccepted(tcp)) && (udp != [] ==> AllAccepted(udp))
    requires Layout(rules, tcp, udp, pkt) && Governing(tcp, udp, pkt).Some?
    requires at == if pkt.protocol == Tcp || tcp == [] then 0 else 2
    ensures forall r :: 0 <= r < |rules| && r != at && r != at + 1 ==> !RuleMatches(Convert(rules[r]), pkt)
  {
    forall r | 0 <= r < |rules| && r != at && r != at + 1 ensures !RuleMatches(Convert(rules[r]), pkt) {
      assert r == 0 || r == 1 || r == 2 || r == 3;
    }
  }

  /** Where the winner of a governed packet sits. */
  lemma WinnerPosition(rules: seq<Rule>, tcp: seq<string>, udp: seq<string>, pkt: PacketInfo) returns (at: nat)
    requires (tcp != [] ==> AllAccepted(tcp)) && (udp != [] ==> AllAccepted(udp))
    requires Layout(rules, tcp, udp, pkt) && Governing(tcp, udp, pkt).Some?
    ensures Leads(rules, at, pkt)
    ensures var admitted := Admitted(Governing(tcp, udp, pkt).value, pkt);
            && at == (if pkt.protocol == Tcp || tcp == [] then 0 else 2) + (if admitted then 0 else 1)
            && rules[at].action == (if admitted then Allow else Drop)
            && rules[at].stateful == (admitted && pkt.protocol == Tcp)
            && rules[at].rateLimit == 0
  {
    var u := if tcp == [] then 0 else 2;
    if pkt.protocol == Tcp {
      OnlyPairMatches(rules, tcp, udp, pkt, 0);
      PairLeads(rules, 0, Tcp, tcp, pkt);
      at := if Admitted(tcp, pkt) then 0 else 1;
    } else {
      OnlyPairMatches(rules, tcp, udp, pkt, u);
      PairLeads(rules, u, Udp, udp, pkt);
      at := if Admitted(udp, pkt) then u else u + 1;
    }
  }

  lemma WhitelistPriorities(tcp: seq<string>, udp: seq<string>, priority: nat, at: nat)
    requires Buildable(tcp, udp) && at < |WhitelistChain(tcp, udp, priority).rules|
    ensures WhitelistChain(tcp, udp, priority).rules[at].priority ==
            if at % 2 == 1 then 0 else if at == 2 then PriorityBelow(priority) else priority
  {
  }

  lemma UngovernedNoMatch(rules: seq<Rule>, tcp: seq<string>, udp: seq<string>, pkt: PacketInfo)
    requires (tcp != [] ==> AllAccepted(tcp)) && (udp != [] ==> AllAccepted(udp))
    requires Layout(rules, tcp, udp, pkt) && Governing(tcp, udp, pkt).None?
    ensures forall r :: 0 <= r < |rules| ==> !RuleMatches(Convert(rules[r]), pkt)
  {
    forall r | 0 <= r < |rules| ensures !RuleMatches(Convert(rules[r]), pkt) {
      assert r == 0 || r == 1 || r == 2 || r == 3;
    }
  }

  /**
   * Whitelist compilation preserves meaning. Outbound and forward decisions and every decision
   * of a user rule stay. Otherwise a packet of a protocol with a whitelist is allowed if and only
   * if its destination port is listed or absent, and any other packet takes the old default.
   */
  lemma WhitelistMeaning(acl: Option<Acl>, tcp: seq<string>, udp: seq<string>, priority: nat, t: ChainType,
                         pkt: PacketInfo)
    requires Buildable(tcp, udp) && t != UnspecifiedChain
    requires pkt.dstPort.Some? ==> pkt.dstPort.value <= 65535
    ensures var before := Decide(Compile(Acl(Some(ChainsOf(acl)))), t, pkt);
            var after := Decide(Compile(AppendChain(acl, WhitelistChain(tcp, udp, priority))), t, pkt);
            if t != Inbound || before.Matched? || Governing(tcp, udp, pkt).None? then after == before
            else
              var admitted := Admitted(Governing(tcp, udp, pkt).value, pkt);
              && after.Matched?
              && after.rule.action == (if admitted then Allow else Drop)
              && after.rule.stateful == (admitted && pkt.protocol == Tcp)
              && after.rule.rateLimit == 0
              && after.rule.priority == (if !admitted then 0
                                         else if pkt.protocol == Tcp || tcp == [] then priority
                                         else PriorityBelow(priority))
  {
    var chain := WhitelistChain(tcp, udp, priority);
    if t != Inbound || Decide(Compile(Acl(Some(ChainsOf(acl)))), t, pkt).Matched? {
      AppendKeepsDecisions(acl, chain, t, pkt);
    } else {
      ChainMatches(tcp, udp, priority, pkt);
      if Governing(tcp, udp, pkt).None? {
        UngovernedNoMatch(chain.rules, tcp, udp, pkt);
        AppendedNoMatch(acl, chain, pkt);
      } else {
        var at := WinnerPosition(chain.rules, tcp, udp, pkt);
        AppendedWinner(acl, chain, pkt, at);
        WhitelistPriorities(tcp, udp, priority, at);
      }
    }
  }

  // --- From the operator's text to the decision ---

  /** The specifications in a port list given on the command line, if one was. */
  function SpecsOf(text: Option<string>): (specs: seq<string>) {
    if text.Some? then CliSpecs(text.value) else []
  }

  lemma ListedAlike(specs: seq<string>, port: nat)
    requires AllAccepted(specs)
    ensures AllAccepted(CliTexts(specs)) && (Listed(CliTexts(specs), port) <==> Listed(specs, port))
  {
    CliListAccepted(specs);
    var texts := CliTexts(specs);
    ListedRange(specs, port);
    ListedRange(texts, port);
    if i :| 0 <= i < |specs| && SpecBounds(specs[i]).value.Contains(port) {
      assert SpecBounds(texts[i]).value.Contains(port);
    }
    if i :| 0 <= i < |texts| && SpecBounds(texts[i]).value.Contains(port) {
      assert SpecBounds(specs[i]).value.Contains(port);
    }
  }

  /**
   * What `after` decides, said of the lists as they were typed: as `before`, unless the packet is
   * inbound, no user rule matches, and its protocol has a list. Then it is allowed if and only if
   * its destination port is typed in that list or absent.
   */
  ghost predicate OperatorMeans(before: Verdict, after: Verdict, tcp: seq<string>, udp: seq<string>, t: ChainType,
                                pkt: PacketInfo)
    requires AllAccepted(tcp) && AllAccepted(udp)
  {
    var specs := Governing(tcp, udp, pkt);
    if t != Inbound || before.Matched? || specs.None? then after == before
    else after.Matched? && after.rule.action == if Admitted(specs.value, pkt) then Allow else Drop
  }

  lemma OperatorMeaning(acl: Option<Acl>, tcp: seq<string>, udp: seq<string>, priority: nat, t: ChainType,
                        pkt: PacketInfo)
    requires AllAccepted(tcp) && AllAccepted(udp) && t != UnspecifiedChain
    requires pkt.dstPort.Some? ==> pkt.dstPort.value <= 65535
    ensures AllAccepted(CliTexts(tcp)) && AllAccepted(CliTexts(udp))
    ensures OperatorMeans(Decide(Compile(Acl(Some(ChainsOf(acl)))), t, pkt),
                          Decide(Compile(AppendChain(acl, WhitelistChain(CliTexts(tcp), CliTexts(udp), priority))),
                                 t, pkt),
                          tcp, udp, t, pkt)
  {
    AdmittedAlike(tcp, pkt);
    AdmittedAlike(udp, pkt);
    WhitelistMeaning(acl, CliTexts(tcp), CliTexts(udp), priority, t, pkt);
    GoverningAlike(tcp, udp, pkt);
  }

  lemma AdmittedAlike(specs: seq<string>, pkt: PacketInfo)
    requires AllAccepted(specs)
    ensures AllAccepted(CliTexts(specs)) && (Admitted(CliTexts(specs), pkt) <==> Admitted(specs, pkt))
  {
    ListedAlike(specs, if pkt.dstPort.Some? then pkt.dstPort.value else 0);
  }

  lemma GoverningAlike(tcp: seq<string>, udp: seq<string>, pkt: PacketInfo)
    requires AllAccepted(tcp) && AllAccepted(udp)
    ensures Governing(CliTexts(tcp), CliTexts(udp), pkt) ==
            if Governing(tcp, udp, pkt).None? then None else Some(CliTexts(if pkt.protocol == Tcp then tcp else udp))
  {
    assert CliTexts(tcp) == [] <==> tcp == [];
    assert CliTexts(udp) == [] <==> udp == [];
  }

  /** Both lists from the command line through all three parsers into the compiled policy. */
  method ApplyTypedLists(acl: Option<Acl>, tcpText: Option<string>, udpText: Option<string>, priority: Option<nat>)
      returns (r: Result<Option<Acl>, PortError>)
    ensures r.Ok? <==> AllAccepted(SpecsOf(tcpText)) && AllAccepted(SpecsOf(udpText))
    ensures r.Ok? ==>
              forall t, pkt: PacketInfo ::
                t != UnspecifiedChain && (pkt.dstPort.Some? ==> pkt.dstPort.value <= 65535) ==>
                OperatorMeans(Decide(Compile(Acl(Some(ChainsOf(acl)))), t, pkt),
                              Decide(Compile(Acl(Some(ChainsOf(r.value)))), t, pkt),
                              SpecsOf(tcpText), SpecsOf(udpText), t, pkt)
  {
    var tcp, udp := [], [];
    if tcpText.Some? {
      tcp :- CliParsePortList(tcpText.value);
    }
    if udpText.Some? {
      udp :- CliParsePortList(udpText.value);
    }
    ghost var tcpSpecs, udpSpecs := SpecsOf(tcpText), SpecsOf(udpText);
    assert tcp == CliTexts(tcpSpecs) && udp == CliTexts(udpSpecs);
    CliListAccepted(tcpSpecs);
    CliListAccepted(udpSpecs);
    var builder := new AclRuleBuilder(acl, tcp, udp, priority);
    var built := builder.GenerateAclFromWhitelists();
    if tcp != [] || udp != [] {
      forall t, pkt: PacketInfo | t != UnspecifiedChain && (pkt.dstPort.Some? ==> pkt.dstPort.value <= 65535)
        ensures OperatorMeans(Decide(Compile(Acl(Some(ChainsOf(acl)))), t, pkt),
                              Decide(Compile(Acl(Some(ChainsOf(builder.acl)))), t, pkt), tcpSpecs, udpSpecs, t, pkt)
      {
        OperatorMeaning(acl, tcpSpecs, udpSpecs, builder.StartPriority(), t, pkt);
      }
    }
    return Ok(builder.acl);
  }
}
