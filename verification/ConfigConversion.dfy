/** `new_from_config` and `gen_config` as functions, field by field in the order of the code. */
module ConfigConversion {
  import opened Prelude
  import opened Text
  import opened ConfigTypes
  import opened ConfigText

  // --- Getters that do more than read ---

  function GetHostname(m: Machine, c: Config): string {
    if c.hostname.Some? && CleanHostname(c.hostname.value) != "" then CleanHostname(c.hostname.value) else m.hostname
  }

  /** A host address is read as a network of length 24, and text that does not parse as none. */
  function GetIpv4(lib: Library, c: Config): Option<Inet> {
    if c.ipv4.None? then None
    else
      match lib.parseInet(c.ipv4.value)
      case None => None
      case Some(i) => Some(if i.length == 32 then Inet(i.addr, 24) else i)
  }

  // --- `new_from_config` ---

  function ProxyText(lib: Library, p: Proxy): string {
    if p.mapped.Some? then lib.printCidr(p.cidr) + "->" + lib.printCidr(p.mapped.value) else lib.printCidr(p.cidr)
  }

  function ForwardTextOf(lib: Library, f: Forward): ForwardText {
    ForwardText(f.proto, lib.printIp(f.bind.ip), f.bind.port, lib.printIp(f.dst.ip), f.dst.port)
  }

  function PeerTexts(lib: Library, peers: seq<Peer>): seq<string> {
    Map(peers, (p: Peer) => lib.printUrl(p.uri))
  }

  function ProxyTexts(lib: Library, proxies: seq<Proxy>): seq<string> {
    Map(proxies, (p: Proxy) => ProxyText(lib, p))
  }

  function ForwardTexts(lib: Library, forwards: seq<Forward>): seq<ForwardText> {
    Map(forwards, (f: Forward) => ForwardTextOf(lib, f))
  }

  const ALL_TOGGLES: set<Toggle> := set t: Toggle | true

  function ToggleStates(on: set<Toggle>): map<Toggle, bool> {
    map t | t in ALL_TOGGLES :: t in on
  }

  function Ipv4Text(lib: Library, ipv4: Option<Inet>): Option<string> {
    if ipv4.Some? then Some(lib.printIp(V4(ipv4.value.addr))) else None
  }

  function Ipv4Length(ipv4: Option<Inet>): Option<I32> {
    if ipv4.Some? then Some(ipv4.value.length) else None
  }

  function VpnPort(vpn: Option<Vpn>): Option<I32> {
    if vpn.Some? then Some(vpn.value.listen.port) else None
  }

  function VpnLength(vpn: Option<Vpn>): Option<I32> {
    if vpn.Some? then Some(vpn.value.clients.length) else None
  }

  function Socks5Port(lib: Library, portal: Option<Url>): Option<I32> {
    if portal.Some? && lib.urlPort(portal.value).Some? then Some(lib.urlPort(portal.value).value) else None
  }

  /** "*" stands for every network, and the largest rate for no limit; neither is written out. */
  function FromFlags(f: Flags): FlagFields {
    FlagFields(
      ToggleStates(f.on), Some(f.devName), Some(!f.ipv6), Some(!f.encryption),
      Some(f.whitelist != "*"), if f.whitelist == "*" then [] else Words(f.whitelist),
      Some(AsI32(f.mtu)), None, None,
      if f.recvLimit != U64_MAX then Some(f.recvLimit) else None, Some(f.dnsZone))
  }

  function FromConfig(lib: Library, m: Machine, c: Config): NetworkConfig {
    var routes := OrEmpty(c.routes);
    NetworkConfig(
      Some(lib.printUuid(OrElse(c.id, m.newId))),
      Some(OrElse(c.dhcp, false)),
      Ipv4Text(lib, GetIpv4(lib, c)),
      Ipv4Length(GetIpv4(lib, c)),
      if GetHostname(m, c) != m.hostname then Some(GetHostname(m, c)) else None,
      Some(OrElse(c.network, "")),
      Some(1), None,
      PeerTexts(lib, OrEmpty(c.peers)),
      ProxyTexts(lib, OrEmpty(c.proxies)),
      if c.vpn.Some? then Some(true) else None,
      VpnPort(c.vpn),
      if c.vpn.Some? then Some(lib.printIp(V4(c.vpn.value.clients.first))) else None,
      VpnLength(c.vpn),
      Map(OrEmpty(c.listeners), lib.printUrl),
      if routes != [] then Some(true) else None,
      Map(routes, lib.printCidr),
      Map(OrEmpty(c.exitNodes), lib.printIp),
      if c.socks5.Some? then Some(true) else None,
      Socks5Port(lib, c.socks5),
      Map(OrEmpty(c.mapped), lib.printUrl),
      ForwardTexts(lib, OrEmpty(c.forwards)),
      c.acl, c.credentialFile,
      if c.trust.Some? then Some(Locator(c.trust.value.dir, c.trust.value.network, c.trust.value.passwordEnv))
        else None,
      FromFlags(c.flags))
  }

  // --- `gen_config` ---

  type Parsed<T> = Result<T, ConfigError>

  function NeedUrl(lib: Library, text: string): Parsed<Url> {
    if lib.parseUrl(text).Some? then Ok(lib.parseUrl(text).value) else Err(BadUrl(text))
  }

  function NeedRoute(lib: Library, text: string): Parsed<Cidr> {
    if lib.parseCidr(text).Some? then Ok(lib.parseCidr(text).value) else Err(BadRoute(text))
  }

  function NeedExitNode(lib: Library, text: string): Parsed<Ip> {
    if lib.parseIp(text).Some? then Ok(lib.parseIp(text).value) else Err(BadExitNode(text))
  }

  /** A mapped listener that is no URL, or has no port, panics. */
  function NeedMapped(lib: Library, text: string): Parsed<Url> {
    if lib.parseUrl(text).None? || lib.urlPort(lib.parseUrl(text).value).None? then Err(Panicked)
    else Ok(lib.parseUrl(text).value)
  }

  /** Parse every text, up to the first that fails. */
  function ParseAll<T>(texts: seq<string>, parse: string -> Parsed<T>): Parsed<seq<T>> {
    if texts == [] then Ok([])
    else
      var x :- parse(texts[0]);
      var xs :- ParseAll(texts[1..], parse);
      Ok([x] + xs)
  }

  function NonEmptyTexts(texts: seq<string>): seq<string> {
    if texts == [] then []
    else if texts[0] == "" then NonEmptyTexts(texts[1..])
    else [texts[0]] + NonEmptyTexts(texts[1..])
  }

  function GenId(lib: Library, m: Machine, n: NetworkConfig): Parsed<Uuid> {
    var text := OrElse(n.instanceId, lib.printUuid(m.newId));
    if lib.parseUuid(text).Some? then Ok(lib.parseUuid(text).value) else Err(BadId(text))
  }

  function GenIpv4(lib: Library, n: NetworkConfig): Parsed<Option<string>> {
    if OrElse(n.dhcp, false) || OrElse(n.virtualIpv4, "") == "" then Ok(None)
    else
      var text := OrElse(n.virtualIpv4, "") + "/" + PrintInt(OrElse(n.networkLength, 24));
      if lib.parseInet(text).Some? then Ok(Some(lib.printInet(lib.parseInet(text).value))) else Err(BadIpv4(text))
  }

  function PlainPeer(uri: Url): Peer {
    Peer(uri, None, None)
  }

  /** Method 1 is manual and 2 standalone; every other number means a public server. */
  function GenPeers(lib: Library, n: NetworkConfig): Parsed<Option<seq<Peer>>> {
    var networking := OrElse(n.networking, 0);
    if networking == 1 then
      var uris :- ParseAll(NonEmptyTexts(n.peerUrls), text => NeedUrl(lib, text));
      Ok(if uris == [] then None else Some(Map(uris, PlainPeer)))
    else if networking == 2 then Ok(None)
    else
      var uri :- NeedUrl(lib, OrElse(n.publicServerUrl, ""));
      Ok(Some([PlainPeer(uri)]))
  }

  /** `add_proxy_network_to_config` up to the length check of `add_proxy_cidr`. */
  function ParseProxy(lib: Library, text: string): Parsed<Proxy> {
    var parts := SplitArrow(text);
    if lib.parseCidr(parts[0]).None? then Err(BadProxy(parts[0]))
    else if |parts| > 2 then Err(BadFormat(text))
    else if |parts| == 2 && lib.parseCidr(parts[1]).None? then Err(BadMapped(parts[1]))
    else
      var cidr := lib.parseCidr(parts[0]).value;
      var mapped := if |parts| == 2 then lib.parseCidr(parts[1]) else None;
      if mapped.Some? && cidr.length != mapped.value.length then Err(LengthMismatch) else Ok(Proxy(cidr, mapped, None))
  }

  predicate SameNetworks(p: Proxy, q: Proxy) {
    p.cidr == q.cidr && p.mapped == q.mapped
  }

  /** The insertion of `add_proxy_cidr`: pushed unless its networks are there already. */
  function AddProxy(proxies: seq<Proxy>, p: Proxy): seq<Proxy> {
    if exists i :: 0 <= i < |proxies| && SameNetworks(proxies[i], p) then proxies else proxies + [p]
  }

  function AddProxies(lib: Library, proxies: seq<Proxy>, texts: seq<string>): Parsed<seq<Proxy>>
    decreases |texts|
  {
    if texts == [] then Ok(proxies)
    else
      var p :- ParseProxy(lib, texts[0]);
      AddProxies(lib, AddProxy(proxies, p), texts[1..])
  }

  function GenProxies(lib: Library, n: NetworkConfig): Parsed<Option<seq<Proxy>>> {
    var proxies :- AddProxies(lib, [], n.proxyCidrs);
    Ok(if n.proxyCidrs == [] then None else Some(proxies))
  }

  /** A forward with an empty or unreadable address is dropped in silence. */
  function ParseForward(lib: Library, f: ForwardText): Option<Forward> {
    if f.bindIp == "" || f.dstIp == "" then None
    else
      var bind := lib.parseSock(f.bindIp + ":" + PrintInt(f.bindPort));
      var dst := lib.parseSock(f.dstIp + ":" + PrintInt(f.dstPort));
      if bind.Some? && dst.Some? then Some(Forward(bind.value, dst.value, f.proto)) else None
  }

  function ParseForwards(lib: Library, fs: seq<ForwardText>): seq<Forward> {
    if fs == [] then []
    else
      var rest := ParseForwards(lib, fs[1..]);
      if ParseForward(lib, fs[0]).Some? then [ParseForward(lib, fs[0]).value] + rest else rest
  }

  function GenForwards(lib: Library, n: NetworkConfig): Option<seq<Forward>> {
    if n.forwards == [] then None else Some(ParseForwards(lib, n.forwards))
  }

  function GenVpn(lib: Library, n: NetworkConfig): Parsed<Option<Vpn>> {
    if !OrElse(n.enableVpn, false) then Ok(None)
    else
      var clients := lib.parseCidr(OrElse(n.vpnAddr, "") + "/" + PrintInt(OrElse(n.vpnLength, 24)));
      var listen := lib.parseSock("0.0.0.0" + ":" + PrintInt(OrElse(n.vpnPort, 0)));
      if clients.Some? && listen.Some? then Ok(Some(Vpn(clients.value, listen.value))) else Err(BadVpn)
  }

  function GenRoutes(lib: Library, n: NetworkConfig): Parsed<Option<seq<Cidr>>> {
    if !OrElse(n.enableRoutes, false) then Ok(None)
    else
      var routes :- ParseAll(n.routes, text => NeedRoute(lib, text));
      Ok(Some(routes))
  }

  function GenExitNodes(lib: Library, n: NetworkConfig): Parsed<Option<seq<Ip>>> {
    if n.exitNodes == [] then Ok(None)
    else
      var nodes :- ParseAll(n.exitNodes, text => NeedExitNode(lib, text));
      Ok(Some(nodes))
  }

  function GenSocks5(lib: Library, m: Machine, n: NetworkConfig): Parsed<Option<Url>> {
    if !OrElse(n.enableSocks5, false) || n.socks5Port.None? then Ok(None)
    else
      var url := lib.parseUrl(Socks5Text(m.bind, n.socks5Port.value));
      if url.Some? then Ok(url) else Err(Panicked)
  }

  function GenMapped(lib: Library, n: NetworkConfig): Parsed<Option<seq<Url>>> {
    if n.mappedListeners == [] then Ok(None)
    else
      var urls :- ParseAll(n.mappedListeners, text => NeedMapped(lib, text));
      Ok(Some(urls))
  }

  function Toggled(on: set<Toggle>, toggles: map<Toggle, bool>): set<Toggle> {
    set t | t in ALL_TOGGLES && if t in toggles then toggles[t] else t in on
  }

  function GenFlags(m: Machine, n: FlagFields): Flags {
    var d := DefaultFlags(m);
    Flags(
      Toggled(d.on, n.toggles),
      OrElse(n.devName, d.devName),
      if n.disableIpv6.Some? then !n.disableIpv6.value else d.ipv6,
      if n.disableEncryption.Some? then !n.disableEncryption.value else d.encryption,
      if OrElse(n.enableWhitelist, false) then Join(n.whitelist, " ") else d.whitelist,
      if n.dnsZone.Some? && n.dnsZone.value != "" then n.dnsZone.value else d.dnsZone,
      if n.mtu.Some? then AsU32(n.mtu.value) else d.mtu,
      OrElse(n.recvLimit, d.recvLimit),
      OrElse(n.algorithm, d.algorithm),
      if n.compression.None? then d.compression else if n.compression.value < 1 then 1 else n.compression.value,
      d.uncarried)
  }

  predicate AclEmpty(acl: AclDoc) {
    acl.chains == [] && acl.groups == []
  }

  function GenConfig(lib: Library, m: Machine, n: NetworkConfig): Parsed<Config> {
    var id :- GenId(lib, m, n);
    var ipv4 :- GenIpv4(lib, n);
    var peers :- GenPeers(lib, n);
    var listeners :- ParseAll(NonEmptyTexts(n.listenerUrls), text => NeedUrl(lib, text));
    var proxies :- GenProxies(lib, n);
    var vpn :- GenVpn(lib, n);
    var routes :- GenRoutes(lib, n);
    var exitNodes :- GenExitNodes(lib, n);
    var socks5 :- GenSocks5(lib, m, n);
    var mapped :- GenMapped(lib, n);
    Ok(Config(
      Some(id), n.hostname, Some(OrElse(n.networkName, "")), ipv4, Some(OrElse(n.dhcp, false)),
      Some(OrElse(n.networkName, "")),
      if n.trust.Some? then Some(Trust(n.trust.value.dir, n.trust.value.network, n.trust.value.passwordEnv, []))
        else None,
      Some(listeners), mapped, exitNodes, peers, proxies, vpn, routes, socks5, GenForwards(lib, n),
      GenFlags(m, n.flags),
      if n.acl.Some? && !AclEmpty(n.acl.value) then n.acl else None,
      if n.credentialFile.Some? && n.credentialFile.value != "" then n.credentialFile else None,
      map[]))
  }

  function Normalise(lib: Library, m: Machine, c: Config): Parsed<Config> {
    GenConfig(lib, m, FromConfig(lib, m, c))
  }
}
