/** ACL configuration, compiled rules and rule matching (`proto/acl.proto`, `acl_processor.rs`). */
module AclTypes {
  import opened Prelude
  import opened Ports

  datatype Protocol = UnspecifiedProtocol | Tcp | Udp | Icmp | Icmpv6 | AnyProtocol
  datatype Action = Noop | Allow | Drop
  datatype ChainType = UnspecifiedChain | Inbound | Outbound | Forward

  datatype IpAddr = V4(bits: nat) | V6(bits: nat)
  datatype IpCidr = CidrV4(network: nat, length: nat) | CidrV6(network: nat, length: nat)

  /** Same family and same leading `length` bits. */
  predicate CidrContains(cidr: IpCidr, ip: IpAddr) {
    match (cidr, ip)
    case (CidrV4(net, len), V4(a)) => len <= 32 && a / Pow2(32 - len) == net / Pow2(32 - len)
    case (CidrV6(net, len), V6(a)) => len <= 128 && a / Pow2(128 - len) == net / Pow2(128 - len)
    case _ => false
  }

  /** A configured rule. An address that does not parse as a CIDR is `None`. */
  datatype Rule = Rule(
    priority: nat,
    enabled: bool,
    protocol: Protocol,
    ports: seq<string>,
    sourceIps: seq<Option<IpCidr>>,
    destinationIps: seq<Option<IpCidr>>,
    sourcePorts: seq<string>,
    action: Action,
    rateLimit: nat,
    burstLimit: nat,
    stateful: bool,
    sourceGroups: seq<string>,
    destinationGroups: seq<string>)

  datatype Chain = Chain(chainType: ChainType, enabled: bool, rules: seq<Rule>, defaultAction: Action)

  /** `Acl.acl_v1`; an `Acl` without it behaves as one without chains. */
  datatype Acl = Acl(chains: Option<seq<Chain>>) {
    function Chains(): seq<Chain> {
      if chains.Some? then chains.value else []
    }
  }

  datatype FastRule = FastRule(
    priority: nat,
    protocol: Protocol,
    srcIps: seq<IpCidr>,
    dstIps: seq<IpCidr>,
    srcPorts: seq<PortRange>,
    dstPorts: seq<PortRange>,
    srcGroups: set<string>,
    dstGroups: set<string>,
    action: Action,
    enabled: bool,
    stateful: bool,
    rateLimit: nat,
    burstLimit: nat)

  datatype PacketInfo = PacketInfo(
    srcIp: IpAddr,
    dstIp: IpAddr,
    srcPort: Option<nat>,
    dstPort: Option<nat>,
    protocol: Protocol,
    size: nat,
    srcGroups: seq<string>,
    dstGroups: seq<string>)

  function KeepCidrs(ips: seq<Option<IpCidr>>): (cidrs: seq<IpCidr>) {
    if ips == [] then []
    else if ips[0].Some? then [ips[0].value] + KeepCidrs(ips[1..])
    else KeepCidrs(ips[1..])
  }

  function KeepRanges(specs: seq<string>): (ranges: seq<PortRange>) {
    if specs == [] then []
    else
      match ParsePortRange(specs[0])
      case Some(range) => [range] + KeepRanges(specs[1..])
      case None => KeepRanges(specs[1..])
  }

  /** `convert_to_fast_lookup_rule`: unparsable addresses and ports are silently dropped. */
  function Convert(rule: Rule): (fast: FastRule)
    ensures fast.priority == rule.priority && fast.enabled == rule.enabled
  {
    FastRule(
      rule.priority, rule.protocol,
      KeepCidrs(rule.sourceIps), KeepCidrs(rule.destinationIps),
      KeepRanges(rule.sourcePorts), KeepRanges(rule.ports),
      (set g | g in rule.sourceGroups), (set g | g in rule.destinationGroups),
      rule.action, rule.enabled, rule.stateful, rule.rateLimit, rule.burstLimit)
  }

  predicate AnyCidr(cidrs: seq<IpCidr>, ip: IpAddr) {
    cidrs == [] || exists c :: c in cidrs && CidrContains(c, ip)
  }

  /** A missing port passes every port check. */
  predicate AnyRange(ranges: seq<PortRange>, port: Option<nat>) {
    port.None? || ranges == [] || exists r :: r in ranges && r.Contains(port.value)
  }

  predicate AnyGroup(wanted: set<string>, has: seq<string>) {
    wanted == {} || exists g :: g in has && g in wanted
  }

  /** `rule_matches`. */
  predicate RuleMatches(rule: FastRule, pkt: PacketInfo) {
    && (rule.protocol == AnyProtocol || rule.protocol == pkt.protocol)
    && AnyCidr(rule.srcIps, pkt.srcIp)
    && AnyCidr(rule.dstIps, pkt.dstIp)
    && AnyRange(rule.srcPorts, pkt.srcPort)
    && AnyRange(rule.dstPorts, pkt.dstPort)
    && AnyGroup(rule.srcGroups, pkt.srcGroups)
    && AnyGroup(rule.dstGroups, pkt.dstGroups)
  }

  predicate Eligible(rule: FastRule, pkt: PacketInfo) {
    rule.enabled && RuleMatches(rule, pkt)
  }

  /** Index of the first eligible rule at or after `from`, or `|rules|`. */
  function FirstMatch(rules: seq<FastRule>, pkt: PacketInfo, from: nat): (i: nat)
    requires from <= |rules|
    ensures from <= i <= |rules|
    ensures i < |rules| ==> Eligible(rules[i], pkt)
    ensures forall j :: from <= j < i ==> !Eligible(rules[j], pkt)
    decreases |rules| - from
  {
    if from == |rules| || Eligible(rules[from], pkt) then from else FirstMatch(rules, pkt, from + 1)
  }
}
