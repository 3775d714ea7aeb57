/** What `gen_config` makes of any exchange form, stated on its fields. */
module ConfigMeaning {
  import opened Prelude
  import opened Text
  import opened ConfigTypes
  import opened ConfigText
  import opened ConfigConversion

  // --- Lists of texts ---

  /** Every text parses, and the results are in the order of the texts. */
  ghost predicate InOrder<T>(texts: seq<string>, xs: seq<T>, parse: string -> Option<T>) {
    |xs| == |texts| && forall i :: 0 <= i < |texts| ==> parse(texts[i]) == Some(xs[i])
  }

  ghost predicate AllParse<T>(texts: seq<string>, parse: string -> Option<T>) {
    forall i :: 0 <= i < |texts| ==> parse(texts[i]).Some?
  }

  lemma {:induction false} ParseAllMeaning<T>(texts: seq<string>, need: string -> Parsed<T>, parse: string -> Option<T>)
    requires forall t :: need(t).Ok? <==> parse(t).Some?
    requires forall t :: parse(t).Some? ==> need(t) == Ok(parse(t).value)
    ensures ParseAll(texts, need).Ok? <==> AllParse(texts, parse)
    ensures ParseAll(texts, need).Ok? ==> InOrder(texts, ParseAll(texts, need).value, parse)
  {
    if texts != [] {
      ParseAllMeaning(texts[1..], need, parse);
      assert texts == [texts[0]] + texts[1..];
      if ParseAll(texts, need).Ok? {
        var rest := ParseAll(texts[1..], need).value;
        assert AllParse(texts[1..], parse);
        forall i | 0 <= i < |texts| ensures parse(texts[i]) == Some(ParseAll(texts, need).value[i]) {
          if i > 0 { assert texts[i] == texts[1..][i - 1]; }
        }
      }
      if AllParse(texts, parse) {
        assert parse(texts[0]).Some?;
        forall i | 0 <= i < |texts[1..]| ensures parse(texts[1..][i]).Some? { assert texts[1..][i] == texts[i + 1]; }
      }
    }
  }

  predicate Given(text: string) {
    text != ""
  }

  lemma {:induction false} NonEmptyGiven(texts: seq<string>)
    ensures NonEmptyTexts(texts) == Filter(texts, Given)
  {
    if texts != [] { NonEmptyGiven(texts[1..]); }
  }

  lemma UrlsMeaning(lib: Library, texts: seq<string>)
    ensures var r := ParseAll(texts, text => NeedUrl(lib, text));
            && (r.Ok? <==> AllParse(texts, lib.parseUrl))
            && (r.Ok? ==> InOrder(texts, r.value, lib.parseUrl))
  {
    ParseAllMeaning(texts, text => NeedUrl(lib, text), lib.parseUrl);
  }

  // --- Peers ---

  ghost predicate ManualPeers(lib: Library, texts: seq<string>, peers: Option<seq<Peer>>) {
    if texts == [] then peers == None
    else
      && peers.Some? && |peers.value| == |texts|
      && forall i :: 0 <= i < |texts| ==>
           lib.parseUrl(texts[i]) == Some(peers.value[i].uri)
           && peers.value[i].publicKey == None && peers.value[i].bootstrap == None
  }

  /** The text of the public server, empty when it is absent. */
  function ServerText(n: NetworkConfig): string {
    if n.publicServerUrl.Some? then n.publicServerUrl.value else ""
  }

  /** The peers that the networking method asks for: manual, standalone, or one public server. */
  ghost predicate PeersFollow(lib: Library, n: NetworkConfig, peers: Option<seq<Peer>>) {
    if n.networking == Some(1) then ManualPeers(lib, Filter(n.peerUrls, Given), peers)
    else if n.networking == Some(2) then peers == None
    else peers.Some? && |peers.value| == 1 && lib.parseUrl(ServerText(n)) == Some(peers.value[0].uri)
         && peers.value[0].publicKey == None && peers.value[0].bootstrap == None
  }

  ghost predicate PeersReadable(lib: Library, n: NetworkConfig) {
    if n.networking == Some(1) then AllParse(Filter(n.peerUrls, Given), lib.parseUrl)
    else n.networking == Some(2) || lib.parseUrl(ServerText(n)).Some?
  }

  lemma PeersMeaning(lib: Library, n: NetworkConfig)
    ensures GenPeers(lib, n).Ok? <==> PeersReadable(lib, n)
    ensures GenPeers(lib, n).Ok? ==> PeersFollow(lib, n, GenPeers(lib, n).value)
  {
    NonEmptyGiven(n.peerUrls);
    UrlsMeaning(lib, NonEmptyTexts(n.peerUrls));
  }

  // --- The other settings that are read ---

  predicate DhcpOn(n: NetworkConfig) {
    n.dhcp == Some(true)
  }

  predicate HasAddress(n: NetworkConfig) {
    n.virtualIpv4.Some? && n.virtualIpv4.value != ""
  }

  /** The address with its length, 24 when none is given. */
  function AddressText(n: NetworkConfig): string
    requires HasAddress(n)
  {
    n.virtualIpv4.value + "/" + PrintInt(if n.networkLength.Some? then n.networkLength.value else 24)
  }

  /** DHCP overrides the address; otherwise a given address is kept as its library prints it. */
  ghost predicate AddressFollows(lib: Library, n: NetworkConfig, ipv4: Option<string>) {
    if DhcpOn(n) || !HasAddress(n) then ipv4 == None
    else lib.parseInet(AddressText(n)).Some? && ipv4 == Some(lib.printInet(lib.parseInet(AddressText(n)).value))
  }

  lemma AddressMeaning(lib: Library, n: NetworkConfig)
    ensures GenIpv4(lib, n).Ok? <==> DhcpOn(n) || !HasAddress(n) || lib.parseInet(AddressText(n)).Some?
    ensures GenIpv4(lib, n).Ok? ==> AddressFollows(lib, n, GenIpv4(lib, n).value)
  {
  }

  function VpnNetwork(n: NetworkConfig): string {
    (if n.vpnAddr.Some? then n.vpnAddr.value else "") + "/"
    + PrintInt(if n.vpnLength.Some? then n.vpnLength.value else 24)
  }

  function VpnListen(n: NetworkConfig): string {
    "0.0.0.0" + ":" + PrintInt(if n.vpnPort.Some? then n.vpnPort.value else 0)
  }

  ghost predicate VpnFollows(lib: Library, n: NetworkConfig, vpn: Option<Vpn>) {
    if n.enableVpn != Some(true) then vpn == None
    else vpn.Some? && lib.parseCidr(VpnNetwork(n)) == Some(vpn.value.clients)
         && lib.parseSock(VpnListen(n)) == Some(vpn.value.listen)
  }

  lemma VpnMeaning(lib: Library, n: NetworkConfig)
    ensures GenVpn(lib, n).Ok? <==>
              n.enableVpn == Some(true) ==>
                lib.parseCidr(VpnNetwork(n)).Some? && lib.parseSock(VpnListen(n)).Some?
    ensures GenVpn(lib, n).Ok? ==> VpnFollows(lib, n, GenVpn(lib, n).value)
  {
  }

  /** Routes count only when switched on, and then even an empty list is set. */
  ghost predicate RoutesFollow(lib: Library, n: NetworkConfig, routes: Option<seq<Cidr>>) {
    if n.enableRoutes != Some(true) then routes == None
    else routes.Some? && InOrder(n.routes, routes.value, lib.parseCidr)
  }

  lemma RoutesMeaning(lib: Library, n: NetworkConfig)
    ensures GenRoutes(lib, n).Ok? <==> n.enableRoutes == Some(true) ==> AllParse(n.routes, lib.parseCidr)
    ensures GenRoutes(lib, n).Ok? ==> RoutesFollow(lib, n, GenRoutes(lib, n).value)
  {
    ParseAllMeaning(n.routes, text => NeedRoute(lib, text), lib.parseCidr);
  }

  ghost predicate ExitNodesFollow(lib: Library, n: NetworkConfig, nodes: Option<seq<Ip>>) {
    if n.exitNodes == [] then nodes == None else nodes.Some? && InOrder(n.exitNodes, nodes.value, lib.parseIp)
  }

  lemma ExitNodesMeaning(lib: Library, n: NetworkConfig)
    ensures GenExitNodes(lib, n).Ok? <==> AllParse(n.exitNodes, lib.parseIp)
    ensures GenExitNodes(lib, n).Ok? ==> ExitNodesFollow(lib, n, GenExitNodes(lib, n).value)
  {
    ParseAllMeaning(n.exitNodes, text => NeedExitNode(lib, text), lib.parseIp);
  }

  predicate PortalOn(n: NetworkConfig) {
    n.enableSocks5 == Some(true) && n.socks5Port.Some?
  }

  lemma Socks5Meaning(lib: Library, m: Machine, n: NetworkConfig)
    ensures GenSocks5(lib, m, n).Ok? <==> PortalOn(n) ==> lib.parseUrl(Socks5Text(m.bind, n.socks5Port.value)).Some?
    ensures GenSocks5(lib, m, n).Ok? ==>
              GenSocks5(lib, m, n).value ==
                if PortalOn(n) then lib.parseUrl(Socks5Text(m.bind, n.socks5Port.value)) else None
  {
  }

  /** A URL with a port. */
  function WithPort(lib: Library): string -> Option<Url> {
    (text: string) =>
      if lib.parseUrl(text).Some? && lib.urlPort(lib.parseUrl(text).value).Some? then lib.parseUrl(text) else None
  }

  ghost predicate MappedFollow(lib: Library, n: NetworkConfig, mapped: Option<seq<Url>>) {
    if n.mappedListeners == [] then mapped == None
    else mapped.Some? && InOrder(n.mappedListeners, mapped.value, WithPort(lib))
  }

  lemma MappedMeaning(lib: Library, n: NetworkConfig)
    ensures GenMapped(lib, n).Ok? <==> AllParse(n.mappedListeners, WithPort(lib))
    ensures GenMapped(lib, n).Ok? ==> MappedFollow(lib, n, GenMapped(lib, n).value)
  {
    ParseAllMeaning(n.mappedListeners, text => NeedMapped(lib, text), WithPort(lib));
  }

  /** One network, or two of one length around the only arrow. */
  ghost predicate ProxyTyped(lib: Library, text: string, p: Proxy) {
    || (NoArrow(text) && lib.parseCidr(text) == Some(p.cidr) && p.mapped == None)
    || exists a, b ::
         && text == a + "->" + b && NoArrow(a) && NoArrow(b)
         && lib.parseCidr(a) == Some(p.cidr) && p.mapped.Some? && lib.parseCidr(b) == p.mapped
         && p.cidr.length == p.mapped.value.length
  }

  lemma ProxyMeaning(lib: Library, text: string, p: Proxy)
    ensures ParseProxy(lib, text) == Ok(p) <==> ProxyTyped(lib, text, p) && p.allow == None
  {
    var parts := SplitArrow(text);
    JoinArrows(text);
    PiecesArrowless(text);
    if ParseProxy(lib, text) == Ok(p) {
      if |parts| == 2 {
        assert parts == [parts[0], parts[1]] && Join(parts[1..], "->") == parts[1];
        assert text == parts[0] + "->" + parts[1];
      } else {
        assert text == parts[0];
      }
    }
    if ProxyTyped(lib, text, p) && p.allow == None {
      if NoArrow(text) && lib.parseCidr(text) == Some(p.cidr) && p.mapped == None {
        ArrowlessIsWhole(text);
      } else {
        var a, b :|
          && text == a + "->" + b && NoArrow(a) && NoArrow(b)
          && lib.parseCidr(a) == Some(p.cidr) && p.mapped.Some? && lib.parseCidr(b) == p.mapped
          && p.cidr.length == p.mapped.value.length;
        SplitFirstArrow(a, b);
        ArrowlessIsWhole(b);
      }
    }
  }

  ghost predicate FromTexts(lib: Library, texts: seq<string>, proxies: seq<Proxy>) {
    forall p :: p in proxies ==> exists i :: 0 <= i < |texts| && ParseProxy(lib, texts[i]) == Ok(p)
  }

  ghost predicate Covers(proxies: seq<Proxy>, p: Proxy) {
    exists k :: 0 <= k < |proxies| && SameNetworks(proxies[k], p)
  }

  ghost predicate Distinct(proxies: seq<Proxy>) {
    forall i, j :: 0 <= i < j < |proxies| ==> !SameNetworks(proxies[i], proxies[j])
  }

  /** The proxies are those typed, each pair of networks once. */
  ghost predicate ProxiesListed(lib: Library, texts: seq<string>, proxies: seq<Proxy>) {
    && FromTexts(lib, texts, proxies) && Distinct(proxies)
    && forall i :: 0 <= i < |texts| && ParseProxy(lib, texts[i]).Ok? ==>
         Covers(proxies, ParseProxy(lib, texts[i]).value)
  }

  lemma AddedOnce(proxies: seq<Proxy>, p: Proxy, q: Proxy)
    requires Distinct(proxies)
    ensures Distinct(AddProxy(proxies, p)) && Covers(AddProxy(proxies, p), p)
    ensures Covers(proxies, q) ==> Covers(AddProxy(proxies, p), q)
  {
    var proxies' := AddProxy(proxies, p);
    if proxies' != proxies { assert proxies'[|proxies|] == p; }
    if Covers(proxies, q) {
      var k :| 0 <= k < |proxies| && SameNetworks(proxies[k], q);
      assert proxies'[k] == proxies[k];
    }
  }

  lemma AddedFrom(lib: Library, done: seq<string>, text: string, proxies: seq<Proxy>, p: Proxy)
    requires FromTexts(lib, done, proxies) && ParseProxy(lib, text) == Ok(p)
    ensures FromTexts(lib, done + [text], AddProxy(proxies, p))
  {
    var texts := done + [text];
    forall q | q in AddProxy(proxies, p) ensures exists i :: 0 <= i < |texts| && ParseProxy(lib, texts[i]) == Ok(q) {
      if q in proxies {
        var i :| 0 <= i < |done| && ParseProxy(lib, done[i]) == Ok(q);
        assert texts[i] == done[i];
      } else {
        assert texts[|done|] == text;
      }
    }
  }

  lemma AddListed(lib: Library, done: seq<string>, text: string, proxies: seq<Proxy>, p: Proxy)
    requires ProxiesListed(lib, done, proxies) && ParseProxy(lib, text) == Ok(p)
    ensures ProxiesListed(lib, done + [text], AddProxy(proxies, p))
  {
    var texts := done + [text];
    AddedFrom(lib, done, text, proxies, p);
    forall i | 0 <= i < |texts| && ParseProxy(lib, texts[i]).Ok?
      ensures Covers(AddProxy(proxies, p), ParseProxy(lib, texts[i]).value)
    {
      AddedOnce(proxies, p, ParseProxy(lib, texts[i]).value);
      if i < |done| { assert texts[i] == done[i]; }
    }
    AddedOnce(proxies, p, p);
  }

  lemma MoveHead(done: seq<string>, texts: seq<string>)
    requires texts != []
    ensures done + [texts[0]] + texts[1..] == done + texts
  {
  }

  lemma {:induction false} AddedListed(lib: Library, done: seq<string>, proxies: seq<Proxy>, texts: seq<string>)
    requires ProxiesListed(lib, done, proxies) && AddProxies(lib, proxies, texts).Ok?
    ensures ProxiesListed(lib, done + texts, AddProxies(lib, proxies, texts).value)
    decreases |texts|
  {
    if texts == [] {
      assert done + texts == done;
    } else {
      var p := ParseProxy(lib, texts[0]).value;
      AddListed(lib, done, texts[0], proxies, p);
      AddedListed(lib, done + [texts[0]], AddProxy(proxies, p), texts[1..]);
      MoveHead(done, texts);
    }
  }

  ghost predicate SomeTyped(lib: Library, texts: seq<string>, p: Proxy) {
    exists i :: 0 <= i < |texts| && ProxyTyped(lib, texts[i], p)
  }

  /** The proxies are exactly those typed, none twice, without an allow list. */
  ghost predicate ProxiesTyped(lib: Library, texts: seq<string>, proxies: seq<Proxy>) {
    && (forall p :: p in proxies <==> SomeTyped(lib, texts, p) && p.allow == None)
    && (forall i, j :: 0 <= i < j < |proxies| ==> proxies[i] != proxies[j])
  }

  lemma ListedAreTyped(lib: Library, texts: seq<string>, proxies: seq<Proxy>)
    requires ProxiesListed(lib, texts, proxies)
    ensures ProxiesTyped(lib, texts, proxies)
  {
    forall p ensures p in proxies <==> SomeTyped(lib, texts, p) && p.allow == None {
      if p in proxies {
        var i :| 0 <= i < |texts| && ParseProxy(lib, texts[i]) == Ok(p);
        ProxyMeaning(lib, texts[i], p);
      }
      if SomeTyped(lib, texts, p) && p.allow == None {
        var i :| 0 <= i < |texts| && ProxyTyped(lib, texts[i], p);
        ProxyMeaning(lib, texts[i], p);
        CoveredIsListed(lib, texts, proxies, p);
      }
    }
  }

  lemma CoveredIsListed(lib: Library, texts: seq<string>, proxies: seq<Proxy>, p: Proxy)
    requires FromTexts(lib, texts, proxies) && Covers(proxies, p) && p.allow == None
    ensures p in proxies
  {
    var k :| 0 <= k < |proxies| && SameNetworks(proxies[k], p);
    assert proxies[k] in proxies;
    var i :| 0 <= i < |texts| && ParseProxy(lib, texts[i]) == Ok(proxies[k]);
    ProxyMeaning(lib, texts[i], proxies[k]);
  }

  ghost predicate ProxiesFollow(lib: Library, n: NetworkConfig, proxies: Option<seq<Proxy>>) {
    if n.proxyCidrs == [] then proxies == None else proxies.Some? && ProxiesTyped(lib, n.proxyCidrs, proxies.value)
  }

  lemma ProxiesMeaning(lib: Library, n: NetworkConfig)
    ensures GenProxies(lib, n).Ok? ==> ProxiesFollow(lib, n, GenProxies(lib, n).value)
  {
    if GenProxies(lib, n).Ok? {
      ListedAfter(lib, n);
    }
  }

  lemma ListedAfter(lib: Library, n: NetworkConfig)
    requires GenProxies(lib, n).Ok?
    ensures ProxiesTyped(lib, n.proxyCidrs, AddProxies(lib, [], n.proxyCidrs).value)
  {
    ListedFromNone(lib, n);
    ListedAreTyped(lib, n.proxyCidrs, AddProxies(lib, [], n.proxyCidrs).value);
  }

  lemma ListedFromNone(lib: Library, n: NetworkConfig)
    ensures GenProxies(lib, n).Ok? ==> ProxiesListed(lib, n.proxyCidrs, AddProxies(lib, [], n.proxyCidrs).value)
  {
    if GenProxies(lib, n).Ok? {
      AddedListed(lib, [], [], n.proxyCidrs);
      assert [] + n.proxyCidrs == n.proxyCidrs;
    }
  }

  function BindText(f: ForwardText): string {
    f.bindIp + ":" + PrintInt(f.bindPort)
  }

  function DstText(f: ForwardText): string {
    f.dstIp + ":" + PrintInt(f.dstPort)
  }

  predicate ReadableForward(lib: Library, f: ForwardText) {
    f.bindIp != "" && f.dstIp != "" && lib.parseSock(BindText(f)).Some? && lib.parseSock(DstText(f)).Some?
  }

  function ForwardReadable(lib: Library): ForwardText -> bool {
    (f: ForwardText) => ReadableForward(lib, f)
  }

  lemma ForwardMeaning(lib: Library, f: ForwardText)
    ensures ParseForward(lib, f).Some? <==> ReadableForward(lib, f)
    ensures ReadableForward(lib, f) ==>
              var r := ParseForward(lib, f).value;
              && lib.parseSock(BindText(f)) == Some(r.bind) && lib.parseSock(DstText(f)) == Some(r.dst)
              && r.proto == f.proto
  {
  }

  /** The forwards that can be read, in order; the others are dropped. */
  ghost predicate ForwardsKept(lib: Library, kept: seq<ForwardText>, forwards: seq<Forward>) {
    && |forwards| == |kept|
    && forall i :: 0 <= i < |kept| ==>
         && lib.parseSock(BindText(kept[i])) == Some(forwards[i].bind)
         && lib.parseSock(DstText(kept[i])) == Some(forwards[i].dst)
         && forwards[i].proto == kept[i].proto
  }

  lemma {:induction false} ForwardsMeaning(lib: Library, fs: seq<ForwardText>)
    ensures ForwardsKept(lib, Filter(fs, ForwardReadable(lib)), ParseForwards(lib, fs))
  {
    if fs != [] {
      ForwardsMeaning(lib, fs[1..]);
      ForwardMeaning(lib, fs[0]);
      var kept, rest := Filter(fs[1..], ForwardReadable(lib)), ParseForwards(lib, fs[1..]);
      if ReadableForward(lib, fs[0]) {
        ReadMore(lib, fs[0], kept, rest);
      }
    }
  }

  lemma ReadMore(lib: Library, f: ForwardText, kept: seq<ForwardText>, rest: seq<Forward>)
    requires ReadableForward(lib, f) && ForwardsKept(lib, kept, rest)
    ensures ParseForward(lib, f).Some? && ForwardsKept(lib, [f] + kept, [ParseForward(lib, f).value] + rest)
  {
    ForwardMeaning(lib, f);
    var more, forwards := [f] + kept, [ParseForward(lib, f).value] + rest;
    forall i | 0 <= i < |more|
      ensures lib.parseSock(BindText(more[i])) == Some(forwards[i].bind)
      ensures lib.parseSock(DstText(more[i])) == Some(forwards[i].dst) && forwards[i].proto == more[i].proto
    {
      if i > 0 { assert more[i] == kept[i - 1] && forwards[i] == rest[i - 1]; }
    }
  }

  ghost predicate ForwardsFollow(lib: Library, n: NetworkConfig, forwards: Option<seq<Forward>>) {
    if n.forwards == [] then forwards == None
    else forwards.Some? && ForwardsKept(lib, Filter(n.forwards, ForwardReadable(lib)), forwards.value)
  }

  // --- Flags ---

  /** The flags an exchange form asks for; an absent field leaves the default. */
  ghost predicate FlagsFollow(m: Machine, n: FlagFields, f: Flags) {
    && (forall t: Toggle :: t in f.on <==> if t in n.toggles then n.toggles[t] else t in {MultiThread, BindDevice})
    && f.devName == (if n.devName.Some? then n.devName.value else "")
    && (f.ipv6 <==> n.disableIpv6 != Some(true))
    && (f.encryption <==> n.disableEncryption != Some(true))
    && f.whitelist == (if n.enableWhitelist == Some(true) then Join(n.whitelist, " ") else "*")
    && f.dnsZone == (if n.dnsZone == None || n.dnsZone == Some("") then m.dnsZone else n.dnsZone.value)
    && (n.mtu == None ==> f.mtu == 1380)
    && (n.mtu.Some? ==> f.mtu == n.mtu.value % 0x1_0000_0000)
    && f.recvLimit == (if n.recvLimit.Some? then n.recvLimit.value else 18_446_744_073_709_551_615)
    && f.algorithm == (if n.algorithm.Some? then n.algorithm.value else m.algorithm)
    && (n.compression == None ==> f.compression == 1)
    && (n.compression.Some? && n.compression.value >= 1 ==> f.compression == n.compression.value)
    && (n.compression.Some? && n.compression.value < 1 ==> f.compression == 1)
    && f.uncarried == m.flagDefaults
  }

  lemma FlagsMeaning(m: Machine, n: FlagFields)
    ensures FlagsFollow(m, n, GenFlags(m, n))
  {
  }

  // --- Everything together ---

  /** The settings that are copied, with what an absent or empty one becomes. */
  ghost predicate CopiesFollow(n: NetworkConfig, c: Config) {
    && c.hostname == n.hostname
    && c.instName == c.network == Some(if n.networkName.Some? then n.networkName.value else "")
    && c.dhcp == Some(DhcpOn(n))
    && c.acl == (if n.acl == Some(AclDoc([], [])) then None else n.acl)
    && c.credentialFile == (if n.credentialFile == Some("") then None else n.credentialFile)
    && (c.trust.Some? <==> n.trust.Some?)
    && (c.trust.Some? ==>
          && c.trust.value.dir == n.trust.value.dir && c.trust.value.network == n.trust.value.network
          && c.trust.value.passwordEnv == n.trust.value.passwordEnv && c.trust.value.relayServing == [])
  }

  ghost predicate IdReadable(lib: Library, m: Machine, n: NetworkConfig) {
    lib.parseUuid(if n.instanceId.Some? then n.instanceId.value else lib.printUuid(m.newId)).Some?
  }

  ghost predicate IsProxy(lib: Library, text: string) {
    exists p :: ProxyTyped(lib, text, p)
  }

  ghost predicate ProxiesReadable(lib: Library, n: NetworkConfig) {
    forall i :: 0 <= i < |n.proxyCidrs| ==> IsProxy(lib, n.proxyCidrs[i])
  }

  lemma ProxyReadable(lib: Library, text: string)
    ensures ParseProxy(lib, text).Ok? <==> IsProxy(lib, text)
  {
    if ParseProxy(lib, text).Ok? { ProxyMeaning(lib, text, ParseProxy(lib, text).value); }
    if p :| ProxyTyped(lib, text, p) {
      assert ProxyTyped(lib, text, p.(allow := None));
      ProxyMeaning(lib, text, p.(allow := None));
    }
  }

  lemma ProxiesReadableExactly(lib: Library, n: NetworkConfig)
    ensures GenProxies(lib, n).Ok? <==> ProxiesReadable(lib, n)
  {
    ProxiesOk(lib, [], n.proxyCidrs);
    forall i | 0 <= i < |n.proxyCidrs|
      ensures ParseProxy(lib, n.proxyCidrs[i]).Ok? <==> IsProxy(lib, n.proxyCidrs[i])
    {
      ProxyReadable(lib, n.proxyCidrs[i]);
    }
  }

  predicate AddressReadable(lib: Library, n: NetworkConfig) {
    DhcpOn(n) || !HasAddress(n) || lib.parseInet(AddressText(n)).Some?
  }

  predicate VpnReadable(lib: Library, n: NetworkConfig) {
    n.enableVpn == Some(true) ==> lib.parseCidr(VpnNetwork(n)).Some? && lib.parseSock(VpnListen(n)).Some?
  }

  ghost predicate RoutesReadable(lib: Library, n: NetworkConfig) {
    n.enableRoutes == Some(true) ==> AllParse(n.routes, lib.parseCidr)
  }

  /** Every text that the exchange form makes the conversion read can be read. */
  ghost predicate AllReadable(lib: Library, m: Machine, n: NetworkConfig) {
    && IdReadable(lib, m, n)
    && AddressReadable(lib, n)
    && PeersReadable(lib, n)
    && AllParse(Filter(n.listenerUrls, Given), lib.parseUrl)
    && ProxiesReadable(lib, n)
    && VpnReadable(lib, n)
    && RoutesReadable(lib, n)
    && AllParse(n.exitNodes, lib.parseIp)
    && (PortalOn(n) ==> lib.parseUrl(Socks5Text(m.bind, n.socks5Port.value)).Some?)
    && AllParse(n.mappedListeners, WithPort(lib))
  }

  /** The configuration is what the exchange form asks for. */
  ghost predicate Follows(lib: Library, m: Machine, n: NetworkConfig, c: Config) {
    && c.id.Some? && c.id == lib.parseUuid(if n.instanceId.Some? then n.instanceId.value else lib.printUuid(m.newId))
    && CopiesFollow(n, c)
    && AddressFollows(lib, n, c.ipv4)
    && PeersFollow(lib, n, c.peers)
    && c.listeners.Some? && InOrder(Filter(n.listenerUrls, Given), c.listeners.value, lib.parseUrl)
    && ProxiesFollow(lib, n, c.proxies)
    && ForwardsFollow(lib, n, c.forwards)
    && VpnFollows(lib, n, c.vpn)
    && RoutesFollow(lib, n, c.routes)
    && ExitNodesFollow(lib, n, c.exitNodes)
    && c.socks5 == (if PortalOn(n) then lib.parseUrl(Socks5Text(m.bind, n.socks5Port.value)) else None)
    && MappedFollow(lib, n, c.mapped)
    && FlagsFollow(m, n.flags, c.flags)
  }

  lemma {:induction false} ProxiesOk(lib: Library, proxies: seq<Proxy>, texts: seq<string>)
    ensures AddProxies(lib, proxies, texts).Ok? <==> forall i :: 0 <= i < |texts| ==> ParseProxy(lib, texts[i]).Ok?
    decreases |texts|
  {
    if texts != [] && ParseProxy(lib, texts[0]).Ok? {
      ProxiesOk(lib, AddProxy(proxies, ParseProxy(lib, texts[0]).value), texts[1..]);
      assert forall i :: 0 <= i < |texts[1..]| ==> texts[1..][i] == texts[i + 1];
      if forall i :: 0 <= i < |texts[1..]| ==> ParseProxy(lib, texts[1..][i]).Ok? {
        forall i | 0 <= i < |texts| ensures ParseProxy(lib, texts[i]).Ok? {
          if i > 0 { assert texts[i] == texts[1..][i - 1]; }
        }
      }
    }
  }

  lemma AclCopied(acl: Option<AclDoc>)
    ensures (if acl.Some? && !AclEmpty(acl.value) then acl else None) ==
            if acl == Some(AclDoc([], [])) then None else acl
  {
  }

  lemma FileCopied(file: Option<string>)
    ensures (if file.Some? && file.value != "" then file else None) == if file == Some("") then None else file
  {
  }

  lemma CopiesMeaning(lib: Library, m: Machine, n: NetworkConfig)
    requires GenConfig(lib, m, n).Ok?
    ensures CopiesFollow(n, GenConfig(lib, m, n).value)
  {
    AclCopied(n.acl);
    FileCopied(n.credentialFile);
  }

  /** The conversion succeeds exactly if every text it has to read can be read. */
  lemma GenConfigSucceedsExactly(lib: Library, m: Machine, n: NetworkConfig)
    ensures GenConfig(lib, m, n).Ok? <==> AllReadable(lib, m, n)
  {
    StagesReadable(lib, m, n);
  }

  /** Each stage succeeds exactly if its own texts can be read. */
  lemma StagesReadable(lib: Library, m: Machine, n: NetworkConfig)
    ensures GenId(lib, m, n).Ok? <==> IdReadable(lib, m, n)
    ensures GenIpv4(lib, n).Ok? <==> AddressReadable(lib, n)
    ensures GenPeers(lib, n).Ok? <==> PeersReadable(lib, n)
    ensures ParseAll(NonEmptyTexts(n.listenerUrls), text => NeedUrl(lib, text)).Ok? <==>
            AllParse(Filter(n.listenerUrls, Given), lib.parseUrl)
    ensures GenProxies(lib, n).Ok? <==> ProxiesReadable(lib, n)
    ensures GenVpn(lib, n).Ok? <==> VpnReadable(lib, n)
    ensures GenRoutes(lib, n).Ok? <==> RoutesReadable(lib, n)
    ensures GenExitNodes(lib, n).Ok? <==> AllParse(n.exitNodes, lib.parseIp)
    ensures GenSocks5(lib, m, n).Ok? <==>
              (PortalOn(n) ==> lib.parseUrl(Socks5Text(m.bind, n.socks5Port.value)).Some?)
    ensures GenMapped(lib, n).Ok? <==> AllParse(n.mappedListeners, WithPort(lib))
  {
    AddressMeaning(lib, n);
    PeersMeaning(lib, n);
    NonEmptyGiven(n.listenerUrls);
    UrlsMeaning(lib, NonEmptyTexts(n.listenerUrls));
    ProxiesReadableExactly(lib, n);
    VpnMeaning(lib, n);
    RoutesMeaning(lib, n);
    ExitNodesMeaning(lib, n);
    Socks5Meaning(lib, m, n);
    MappedMeaning(lib, n);
  }

  /** And then the configuration is what the exchange form asks for, field by field. */
  lemma GenConfigFollows(lib: Library, m: Machine, n: NetworkConfig)
    requires GenConfig(lib, m, n).Ok?
    ensures Follows(lib, m, n, GenConfig(lib, m, n).value)
  {
    CopiesMeaning(lib, m, n);
    AddressMeaning(lib, n);
    PeersMeaning(lib, n);
    NonEmptyGiven(n.listenerUrls);
    UrlsMeaning(lib, NonEmptyTexts(n.listenerUrls));
    ProxiesMeaning(lib, n);
    ForwardsMeaning(lib, n.forwards);
    VpnMeaning(lib, n);
    RoutesMeaning(lib, n);
    ExitNodesMeaning(lib, n);
    Socks5Meaning(lib, m, n);
    MappedMeaning(lib, n);
    FlagsMeaning(m, n.flags);
  }

  // --- Why it fails ---

  /** `text` is the first of `texts` that cannot be read. */
  ghost predicate FirstBad<T>(texts: seq<string>, parse: string -> Option<T>, text: string) {
    exists i :: 0 <= i < |texts| && texts[i] == text && parse(text).None? && AllParse(texts[..i], parse)
  }

  lemma {:induction false} ParseAllFault<T>(texts: seq<string>, need: string -> Parsed<T>, parse: string -> Option<T>)
      returns (text: string)
    requires forall t :: need(t).Ok? <==> parse(t).Some?
    requires ParseAll(texts, need).Err?
    ensures FirstBad(texts, parse, text) && need(text).Err? && ParseAll(texts, need).error == need(text).error
  {
    if need(texts[0]).Err? {
      text := texts[0];
      assert AllParse(texts[..0], parse);
    } else {
      text := ParseAllFault(texts[1..], need, parse);
      var i :| 0 <= i < |texts[1..]| && texts[1..][i] == text && parse(text).None? && AllParse(texts[1..][..i], parse);
      assert texts[i + 1] == text;
      var front := texts[..i + 1];
      forall k | 0 <= k < |front| ensures parse(front[k]).Some? {
        if k > 0 { assert front[k] == texts[1..][..i][k - 1]; }
      }
    }
  }

  function IdText(lib: Library, m: Machine, n: NetworkConfig): string {
    if n.instanceId.Some? then n.instanceId.value else lib.printUuid(m.newId)
  }

  ghost predicate PeerFault(lib: Library, n: NetworkConfig, e: ConfigError) {
    && e.BadUrl?
    && if n.networking == Some(1) then FirstBad(Filter(n.peerUrls, Given), lib.parseUrl, e.text)
       else e.text == ServerText(n)
  }

  /** The error is about the first setting, in the order of the code, that cannot be read. */
  ghost predicate FirstFault(lib: Library, m: Machine, n: NetworkConfig, e: ConfigError) {
    if !IdReadable(lib, m, n) then e == BadId(IdText(lib, m, n))
    else if !AddressReadable(lib, n) then e == BadIpv4(AddressText(n))
    else if !PeersReadable(lib, n) then PeerFault(lib, n, e)
    else if !AllParse(Filter(n.listenerUrls, Given), lib.parseUrl) then
      e.BadUrl? && FirstBad(Filter(n.listenerUrls, Given), lib.parseUrl, e.text)
    else if !ProxiesReadable(lib, n) then e.BadProxy? || e.BadFormat? || e.BadMapped? || e.LengthMismatch?
    else if !VpnReadable(lib, n) then e == BadVpn
    else if !RoutesReadable(lib, n) then e.BadRoute? && FirstBad(n.routes, lib.parseCidr, e.text)
    else if !AllParse(n.exitNodes, lib.parseIp) then e.BadExitNode? && FirstBad(n.exitNodes, lib.parseIp, e.text)
    else e == Panicked
  }

  lemma UrlFault(lib: Library, texts: seq<string>)
    ensures var r := ParseAll(texts, text => NeedUrl(lib, text));
            r.Err? ==> r.error.BadUrl? && FirstBad(texts, lib.parseUrl, r.error.text)
  {
    if ParseAll(texts, text => NeedUrl(lib, text)).Err? {
      var text := ParseAllFault(texts, text => NeedUrl(lib, text), lib.parseUrl);
    }
  }

  lemma PeersFault(lib: Library, n: NetworkConfig)
    ensures GenPeers(lib, n).Err? ==> PeerFault(lib, n, GenPeers(lib, n).error)
  {
    NonEmptyGiven(n.peerUrls);
    UrlFault(lib, NonEmptyTexts(n.peerUrls));
  }

  lemma RoutesFault(lib: Library, n: NetworkConfig)
    ensures var r := GenRoutes(lib, n);
            r.Err? ==> r.error.BadRoute? && FirstBad(n.routes, lib.parseCidr, r.error.text)
  {
    if GenRoutes(lib, n).Err? {
      var text := ParseAllFault(n.routes, text => NeedRoute(lib, text), lib.parseCidr);
    }
  }

  lemma ExitNodesFault(lib: Library, n: NetworkConfig)
    ensures var r := GenExitNodes(lib, n);
            r.Err? ==> r.error.BadExitNode? && FirstBad(n.exitNodes, lib.parseIp, r.error.text)
  {
    if GenExitNodes(lib, n).Err? {
      var text := ParseAllFault(n.exitNodes, text => NeedExitNode(lib, text), lib.parseIp);
    }
  }

  lemma MappedFault(lib: Library, n: NetworkConfig)
    ensures GenMapped(lib, n).Err? ==> GenMapped(lib, n).error == Panicked
  {
    if GenMapped(lib, n).Err? {
      var text := ParseAllFault(n.mappedListeners, text => NeedMapped(lib, text), WithPort(lib));
    }
  }

  lemma {:induction false} ProxiesFault(lib: Library, proxies: seq<Proxy>, texts: seq<string>)
    ensures var r := AddProxies(lib, proxies, texts);
            r.Err? ==> r.error.BadProxy? || r.error.BadFormat? || r.error.BadMapped? || r.error.LengthMismatch?
    decreases |texts|
  {
    if texts != [] && ParseProxy(lib, texts[0]).Ok? {
      ProxiesFault(lib, AddProxy(proxies, ParseProxy(lib, texts[0]).value), texts[1..]);
    }
  }

  /** A failure names the first setting that cannot be read. */
  lemma GenConfigFault(lib: Library, m: Machine, n: NetworkConfig)
    ensures GenConfig(lib, m, n).Err? ==> FirstFault(lib, m, n, GenConfig(lib, m, n).error)
  {
    StagesReadable(lib, m, n);
    PeersFault(lib, n);
    NonEmptyGiven(n.listenerUrls);
    UrlFault(lib, NonEmptyTexts(n.listenerUrls));
    ProxiesFault(lib, [], n.proxyCidrs);
    RoutesFault(lib, n);
    ExitNodesFault(lib, n);
    MappedFault(lib, n);
  }

  lemma GenConfigFollowed(lib: Library, m: Machine, n: NetworkConfig)
    ensures GenConfig(lib, m, n).Ok? ==> Follows(lib, m, n, GenConfig(lib, m, n).value)
  {
    if GenConfig(lib, m, n).Ok? { GenConfigFollows(lib, m, n); }
  }

  // --- What the exchange form shows ---

  /** Switches and lengths as `new_from_config` writes them, whatever the configuration. */
  ghost predicate Shows(lib: Library, c: Config, n: NetworkConfig) {
    && n.dhcp == Some(c.dhcp.Some? && c.dhcp.value) && n.networkName.Some?
    && n.networking == Some(1) && n.publicServerUrl == None
    && n.enableVpn == (if c.vpn.Some? then Some(true) else None)
    && n.enableRoutes == (if c.routes == None || c.routes == Some([]) then None else Some(true))
    && n.enableSocks5 == (if c.socks5.Some? then Some(true) else None)
    && (forall t: Toggle :: t in n.flags.toggles && (n.flags.toggles[t] <==> t in c.flags.on))
    && n.flags.compression == None && n.flags.algorithm == None
  }

  /** A host address is shown with length 24, any other with its own, and one that cannot be read not at all. */
  ghost predicate ShowsAddress(lib: Library, c: Config, n: NetworkConfig) {
    match if c.ipv4.Some? then lib.parseInet(c.ipv4.value) else None
    case None => n.virtualIpv4 == None && n.networkLength == None
    case Some(i) =>
      && n.virtualIpv4 == Some(lib.printIp(V4(i.addr)))
      && n.networkLength == Some(if i.length == 32 then 24 else i.length)
  }

  lemma ExchangeShows(lib: Library, m: Machine, c: Config)
    ensures Shows(lib, c, FromConfig(lib, m, c)) && ShowsAddress(lib, c, FromConfig(lib, m, c))
  {
  }
}
