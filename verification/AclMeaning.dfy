/** What a configured rule asks of a packet, stated on the fields of both. */
module AclMeaning {
  import opened Prelude
  import opened Ports
  import opened PortMeaning
  import opened AclTypes

  // --- Addresses ---

  /** Both numbers lie in one aligned block of `size`. */
  ghost predicate OneBlock(a: nat, b: nat, size: nat)
    requires size > 0
  {
    exists first: nat :: first % size == 0 && first <= a < first + size && first <= b < first + size
  }

  /** The network and the address have one family and agree on the network's leading bits. */
  ghost predicate Holds(net: IpCidr, ip: IpAddr) {
    match net
    case CidrV4(network, length) => ip.V4? && length <= 32 && OneBlock(network, ip.bits, Pow2(32 - length))
    case CidrV6(network, length) => ip.V6? && length <= 128 && OneBlock(network, ip.bits, Pow2(128 - length))
  }

  lemma BlockQuotient(x: nat, q: nat, size: nat)
    requires size > 0 && q * size <= x < q * size + size
    ensures x / size == q
  {
    var r := x - q * size;
    assert x == q * size + r && 0 <= r < size;
    assert (x / size) * size + x % size == x;
    var d := x / size - q;
    assert d * size == r - x % size;
    Multiples(d, size);
  }

  lemma Multiples(d: int, size: nat)
    ensures d >= 1 ==> d * size >= size
    ensures d <= -1 ==> d * size <= 0 - size
  {
  }

  lemma BlockStart(x: nat, size: nat) returns (first: nat)
    requires size > 0
    ensures first == (x / size) * size && first % size == 0 && first <= x < first + size
  {
    first := (x / size) * size;
    assert x == first + x % size;
    MultipleDivides(x / size, size);
  }

  lemma MultipleDivides(q: nat, size: nat)
    requires size > 0
    ensures (q * size) % size == 0
  {
    var x := q * size;
    BlockQuotient(x, q, size);
    assert x == (x / size) * size + x % size;
  }

  lemma BlockOf(x: nat, first: nat, size: nat)
    requires size > 0 && first % size == 0 && first <= x < first + size
    ensures x / size == first / size
  {
    assert first == (first / size) * size + first % size;
    BlockQuotient(x, first / size, size);
  }

  lemma OneBlockDivides(a: nat, b: nat, size: nat)
    requires size > 0
    ensures OneBlock(a, b, size) <==> a / size == b / size
  {
    if OneBlock(a, b, size) {
      var first: nat :| first % size == 0 && first <= a < first + size && first <= b < first + size;
      BlockOf(a, first, size);
      BlockOf(b, first, size);
    }
    if a / size == b / size {
      var first := BlockStart(a, size);
      var same := BlockStart(b, size);
    }
  }

  lemma ContainsHolds(net: IpCidr, ip: IpAddr)
    ensures CidrContains(net, ip) <==> Holds(net, ip)
  {
    match net
    case CidrV4(network, length) =>
      if length <= 32 { OneBlockDivides(network, ip.bits, Pow2(32 - length)); }
    case CidrV6(network, length) =>
      if length <= 128 { OneBlockDivides(network, ip.bits, Pow2(128 - length)); }
  }

  // --- One list of a rule ---

  /** Without a readable network every address passes; otherwise one of them must hold it. */
  ghost predicate NetworksAdmit(nets: seq<Option<IpCidr>>, ip: IpAddr) {
    || (forall i :: 0 <= i < |nets| ==> nets[i].None?)
    || exists i :: 0 <= i < |nets| && nets[i].Some? && Holds(nets[i].value, ip)
  }

  ghost predicate PortWithin(text: string, port: nat) {
    exists low: nat, high: nat :: ReadsAs(text, low, high) && low <= port <= high
  }

  ghost predicate Readable(text: string) {
    exists low: nat, high: nat :: ReadsAs(text, low, high)
  }

  /** A packet without the port passes, and so does every port when no text is readable. */
  ghost predicate PortsAdmit(texts: seq<string>, port: Option<nat>) {
    || port.None?
    || (forall i :: 0 <= i < |texts| ==> !Readable(texts[i]))
    || exists i :: 0 <= i < |texts| && PortWithin(texts[i], port.value)
  }

  ghost predicate GroupsAdmit(wanted: seq<string>, has: seq<string>) {
    wanted == [] || exists g :: g in wanted && g in has
  }

  lemma {:induction false} KeptCidrs(ips: seq<Option<IpCidr>>)
    ensures forall c :: c in KeepCidrs(ips) <==> exists i :: 0 <= i < |ips| && ips[i] == Some(c)
    ensures KeepCidrs(ips) == [] <==> forall i :: 0 <= i < |ips| ==> ips[i].None?
  {
    if ips != [] {
      KeptCidrs(ips[1..]);
      assert ips == [ips[0]] + ips[1..];
      forall c ensures c in KeepCidrs(ips) <==> exists i :: 0 <= i < |ips| && ips[i] == Some(c) {
        if i :| 0 <= i < |ips[1..]| && ips[1..][i] == Some(c) { assert ips[i + 1] == Some(c); }
        if i :| 0 <= i < |ips| && ips[i] == Some(c) {
          if i > 0 { assert ips[1..][i - 1] == Some(c); }
        }
      }
    }
  }

  lemma CidrsAdmit(ips: seq<Option<IpCidr>>, ip: IpAddr)
    ensures AnyCidr(KeepCidrs(ips), ip) <==> NetworksAdmit(ips, ip)
  {
    KeptCidrs(ips);
    forall i | 0 <= i < |ips| && ips[i].Some?
      ensures ips[i].value in KeepCidrs(ips) && (CidrContains(ips[i].value, ip) <==> Holds(ips[i].value, ip))
    {
      ContainsHolds(ips[i].value, ip);
    }
    if c :| c in KeepCidrs(ips) && CidrContains(c, ip) {
      var i :| 0 <= i < |ips| && ips[i] == Some(c);
      assert Holds(ips[i].value, ip);
    }
  }

  lemma {:induction false} KeptRanges(texts: seq<string>)
    ensures forall r :: r in KeepRanges(texts) <==> exists i :: 0 <= i < |texts| && ParsePortRange(texts[i]) == Some(r)
    ensures KeepRanges(texts) == [] <==> forall i :: 0 <= i < |texts| ==> ParsePortRange(texts[i]).None?
  {
    if texts != [] {
      KeptRanges(texts[1..]);
      assert texts == [texts[0]] + texts[1..];
      forall r ensures r in KeepRanges(texts) <==> exists i :: 0 <= i < |texts| && ParsePortRange(texts[i]) == Some(r) {
        if i :| 0 <= i < |texts[1..]| && ParsePortRange(texts[1..][i]) == Some(r) {
          assert texts[i + 1] == texts[1..][i];
        }
        if i :| 0 <= i < |texts| && ParsePortRange(texts[i]) == Some(r) {
          if i > 0 { assert texts[1..][i - 1] == texts[i]; }
        }
      }
    }
  }

  lemma TextRanges(text: string, port: nat)
    ensures ParsePortRange(text).Some? <==> Readable(text)
    ensures ParsePortRange(text).Some? ==> (ParsePortRange(text).value.Contains(port) <==> PortWithin(text, port))
    ensures PortWithin(text, port) ==> ParsePortRange(text).Some?
  {
    forall low, high ensures ParsePortRange(text) == Some(PortRange(low, high)) <==> ReadsAs(text, low, high) {
      RangeReads(text, low, high);
    }
    if ParsePortRange(text).Some? {
      var r := ParsePortRange(text).value;
      assert ReadsAs(text, r.low, r.high);
    }
  }

  lemma RangesAdmit(texts: seq<string>, port: Option<nat>)
    ensures AnyRange(KeepRanges(texts), port) <==> PortsAdmit(texts, port)
  {
    if port.Some? {
      KeptRanges(texts);
      forall i | 0 <= i < |texts|
        ensures ParsePortRange(texts[i]).Some? <==> Readable(texts[i])
        ensures ParsePortRange(texts[i]).Some? ==>
                  (ParsePortRange(texts[i]).value.Contains(port.value) <==> PortWithin(texts[i], port.value))
        ensures PortWithin(texts[i], port.value) ==> ParsePortRange(texts[i]).Some?
      {
        TextRanges(texts[i], port.value);
      }
      if r :| r in KeepRanges(texts) && r.Contains(port.value) {
        var i :| 0 <= i < |texts| && ParsePortRange(texts[i]) == Some(r);
        assert PortWithin(texts[i], port.value);
      }
      if i :| 0 <= i < |texts| && PortWithin(texts[i], port.value) {
        assert ParsePortRange(texts[i]).value in KeepRanges(texts);
      }
    }
  }

  lemma GroupsMatch(wanted: seq<string>, has: seq<string>)
    ensures AnyGroup((set g | g in wanted), has) <==> GroupsAdmit(wanted, has)
  {
    var names := set g | g in wanted;
    if wanted != [] {
      assert wanted[0] in names;
    }
  }

  // --- The whole rule ---

  /** The protocol, both addresses, both ports and both groups, each against its own list. */
  ghost predicate Meets(rule: Rule, pkt: PacketInfo) {
    && (rule.protocol == AnyProtocol || rule.protocol == pkt.protocol)
    && NetworksAdmit(rule.sourceIps, pkt.srcIp)
    && NetworksAdmit(rule.destinationIps, pkt.dstIp)
    && PortsAdmit(rule.sourcePorts, pkt.srcPort)
    && PortsAdmit(rule.ports, pkt.dstPort)
    && GroupsAdmit(rule.sourceGroups, pkt.srcGroups)
    && GroupsAdmit(rule.destinationGroups, pkt.dstGroups)
  }

  /** A compiled rule matches a packet exactly if the packet meets the rule as configured. */
  lemma MatchesMeaning(rule: Rule, pkt: PacketInfo)
    ensures RuleMatches(Convert(rule), pkt) <==> Meets(rule, pkt)
  {
    CidrsAdmit(rule.sourceIps, pkt.srcIp);
    CidrsAdmit(rule.destinationIps, pkt.dstIp);
    RangesAdmit(rule.sourcePorts, pkt.srcPort);
    RangesAdmit(rule.ports, pkt.dstPort);
    GroupsMatch(rule.sourceGroups, pkt.srcGroups);
    GroupsMatch(rule.destinationGroups, pkt.dstGroups);
  }

  /** A rule that names no destination does not look at the packet's. */
  lemma DestinationIgnored(rule: Rule, pkt: PacketInfo, other: PacketInfo)
    requires rule.destinationIps == [] && rule.ports == [] && rule.destinationGroups == []
    requires other == pkt.(dstIp := other.dstIp, dstPort := other.dstPort, dstGroups := other.dstGroups)
    ensures RuleMatches(Convert(rule), pkt) <==> RuleMatches(Convert(rule), other)
  {
    MatchesMeaning(rule, pkt);
    MatchesMeaning(rule, other);
  }

  /** And one that names no source does not look at where it comes from. */
  lemma SourceIgnored(rule: Rule, pkt: PacketInfo, other: PacketInfo)
    requires rule.sourceIps == [] && rule.sourcePorts == [] && rule.sourceGroups == []
    requires other == pkt.(srcIp := other.srcIp, srcPort := other.srcPort, srcGroups := other.srcGroups)
    ensures RuleMatches(Convert(rule), pkt) <==> RuleMatches(Convert(rule), other)
  {
    MatchesMeaning(rule, pkt);
    MatchesMeaning(rule, other);
  }
}
