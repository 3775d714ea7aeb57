/** The conversion there and back is a normalisation: what it computes, when it fails, what it fixes. */
module ConfigLaws {
  import opened Prelude
  import opened Text
  import opened ConfigTypes
  import opened ConfigText
  import opened ConfigConversion

  // --- The normal form, stated without the exchange form ---

  function NonEmptyList<T>(xs: seq<T>): Option<seq<T>> {
    if xs == [] then None else Some(xs)
  }

  function Stripped(p: Proxy): Proxy {
    p.(allow := None)
  }

  /** The first proxy for each pair of networks, in order, without its allow list. */
  function DistinctProxies(seen: seq<Proxy>, proxies: seq<Proxy>): seq<Proxy>
    decreases |proxies|
  {
    if proxies == [] then seen else DistinctProxies(AddProxy(seen, Stripped(proxies[0])), proxies[1..])
  }

  function PlainPeers(peers: seq<Peer>): seq<Peer> {
    Map(peers, (p: Peer) => PlainPeer(p.uri))
  }

  predicate BothV4(f: Forward) {
    f.bind.ip.V4? && f.dst.ip.V4?
  }

  /** Forwards between version 4 addresses only; present, though perhaps empty, if there were any. */
  function NormalForwards(fs: Option<seq<Forward>>): Option<seq<Forward>> {
    if OrEmpty(fs) == [] then None else Some(Filter(OrEmpty(fs), BothV4))
  }

  function NormalFlags(m: Machine, f: Flags): Flags {
    f.(whitelist := Join(Words(f.whitelist), " "),
       dnsZone := if f.dnsZone == "" then m.dnsZone else f.dnsZone,
       algorithm := m.algorithm,
       compression := 1,
       uncarried := m.flagDefaults)
  }

  function NormalHostname(m: Machine, h: Option<string>): Option<string> {
    if h.None? || CleanHostname(h.value) == "" || CleanHostname(h.value) == m.hostname then None
    else Some(CleanHostname(h.value))
  }

  function NormalIpv4(lib: Library, c: Config): Option<string> {
    if OrElse(c.dhcp, false) || GetIpv4(lib, c).None? then None else Some(lib.printInet(GetIpv4(lib, c).value))
  }

  function NormalSocks5(lib: Library, m: Machine, portal: Option<Url>): Option<Url> {
    if portal.None? || lib.urlPort(portal.value).None? then None
    else lib.parseUrl(Socks5Text(m.bind, lib.urlPort(portal.value).value))
  }

  function NormalForm(lib: Library, m: Machine, c: Config): Config {
    Config(
      Some(OrElse(c.id, m.newId)),
      NormalHostname(m, c.hostname),
      Some(OrElse(c.network, "")),
      NormalIpv4(lib, c),
      Some(OrElse(c.dhcp, false)),
      Some(OrElse(c.network, "")),
      if c.trust.Some? then Some(c.trust.value.(relayServing := [])) else None,
      Some(OrEmpty(c.listeners)),
      NonEmptyList(OrEmpty(c.mapped)),
      NonEmptyList(OrEmpty(c.exitNodes)),
      NonEmptyList(PlainPeers(OrEmpty(c.peers))),
      NonEmptyList(DistinctProxies([], OrEmpty(c.proxies))),
      if c.vpn.Some? then Some(c.vpn.value.(listen := Sock(V4(0), c.vpn.value.listen.port))) else None,
      NonEmptyList(OrEmpty(c.routes)),
      NormalSocks5(lib, m, c.socks5),
      NormalForwards(c.forwards),
      NormalFlags(m, c.flags),
      if c.acl.Some? && !AclEmpty(c.acl.value) then c.acl else None,
      if c.credentialFile.Some? && c.credentialFile.value != "" then c.credentialFile else None,
      map[])
  }

  // --- Lists of texts ---

  lemma {:induction false} ParseAllPrinted<T>(xs: seq<T>, show: T -> string, parse: string -> Parsed<T>)
    requires forall i :: 0 <= i < |xs| ==> parse(show(xs[i])) == Ok(xs[i])
    ensures ParseAll(Map(xs, show), parse) == Ok(xs)
  {
    if xs != [] {
      assert Map(xs, show)[1..] == Map(xs[1..], show);
      ParseAllPrinted(xs[1..], show, parse);
      assert xs == [xs[0]] + xs[1..];
    }
  }

  /** Parsing stops at the first text that fails, with its error. */
  lemma {:induction false} ParseAllFails<T>(texts: seq<string>, parse: string -> Parsed<T>, e: ConfigError)
    requires exists i :: 0 <= i < |texts| && parse(texts[i]).Err?
    requires forall i :: 0 <= i < |texts| ==> parse(texts[i]).Ok? || parse(texts[i]) == Err(e)
    ensures ParseAll(texts, parse) == Err(e)
  {
    if parse(texts[0]).Ok? {
      var i :| 0 <= i < |texts| && parse(texts[i]).Err?;
      assert texts[1..][i - 1] == texts[i];
      ParseAllFails(texts[1..], parse, e);
    }
  }

  lemma {:induction false} NoEmptyTexts(texts: seq<string>)
    requires forall i :: 0 <= i < |texts| ==> texts[i] != ""
    ensures NonEmptyTexts(texts) == texts
  {
    if texts != [] {
      NoEmptyTexts(texts[1..]);
      assert texts == [texts[0]] + texts[1..];
    }
  }

  lemma UrlsRead(lib: Library, bind: string, urls: seq<Url>)
    requires Lawful(lib, bind)
    ensures ParseAll(NonEmptyTexts(Map(urls, lib.printUrl)), text => NeedUrl(lib, text)) == Ok(urls)
  {
    NoEmptyTexts(Map(urls, lib.printUrl));
    ParseAllPrinted(urls, lib.printUrl, text => NeedUrl(lib, text));
  }

  // --- Each part of the configuration ---

  lemma PeersRead(lib: Library, m: Machine, c: Config)
    requires Lawful(lib, m.bind)
    ensures GenPeers(lib, FromConfig(lib, m, c)) == Ok(NormalForm(lib, m, c).peers)
  {
    var peers := OrEmpty(c.peers);
    var uris := Map(peers, (p: Peer) => p.uri);
    assert PeerTexts(lib, peers) == Map(uris, lib.printUrl);
    UrlsRead(lib, m.bind, uris);
    assert Map(uris, PlainPeer) == PlainPeers(peers);
  }

  lemma Ipv4Read(lib: Library, m: Machine, c: Config)
    requires Lawful(lib, m.bind)
    ensures GenIpv4(lib, FromConfig(lib, m, c)) == Ok(NormalIpv4(lib, c))
  {
  }

  lemma ProxyRead(lib: Library, bind: string, p: Proxy)
    requires Lawful(lib, bind)
    ensures ParseProxy(lib, ProxyText(lib, p)) ==
            if p.mapped.Some? && p.mapped.value.length != p.cidr.length then Err(LengthMismatch) else Ok(Stripped(p))
  {
    if p.mapped.Some? {
      SplitOneArrow(lib.printCidr(p.cidr), lib.printCidr(p.mapped.value));
    } else {
      SplitNoArrow(lib.printCidr(p.cidr));
    }
  }

  predicate Mismatched(p: Proxy) {
    p.mapped.Some? && p.mapped.value.length != p.cidr.length
  }

  ghost predicate AnyMismatched(proxies: seq<Proxy>) {
    exists i :: 0 <= i < |proxies| && Mismatched(proxies[i])
  }

  lemma {:induction false} ProxiesRead(lib: Library, bind: string, seen: seq<Proxy>, proxies: seq<Proxy>)
    requires Lawful(lib, bind)
    ensures AddProxies(lib, seen, ProxyTexts(lib, proxies)) ==
            if AnyMismatched(proxies) then Err(LengthMismatch) else Ok(DistinctProxies(seen, proxies))
    decreases |proxies|
  {
    var texts := ProxyTexts(lib, proxies);
    if proxies != [] {
      assert texts[1..] == ProxyTexts(lib, proxies[1..]);
      ProxyRead(lib, bind, proxies[0]);
      assert AnyMismatched(proxies) <==> Mismatched(proxies[0]) || AnyMismatched(proxies[1..]) by {
        if i :| 0 <= i < |proxies| && Mismatched(proxies[i]) {
          assert i > 0 ==> proxies[1..][i - 1] == proxies[i];
        }
        if i :| 0 <= i < |proxies[1..]| && Mismatched(proxies[1..][i]) {
          assert proxies[i + 1] == proxies[1..][i];
        }
      }
      if !Mismatched(proxies[0]) {
        ProxiesRead(lib, bind, AddProxy(seen, Stripped(proxies[0])), proxies[1..]);
      }
    }
  }

  lemma {:induction false} ForwardsRead(lib: Library, bind: string, fs: seq<Forward>)
    requires Lawful(lib, bind)
    ensures ParseForwards(lib, ForwardTexts(lib, fs)) == Filter(fs, BothV4)
  {
    if fs != [] {
      assert ForwardTexts(lib, fs)[1..] == ForwardTexts(lib, fs[1..]);
      ForwardsRead(lib, bind, fs[1..]);
      var f := fs[0];
      assert lib.parseSock(lib.printIp(f.bind.ip) + ":" + PrintInt(f.bind.port)) ==
             if f.bind.ip.V4? then Some(f.bind) else None;
      assert lib.parseSock(lib.printIp(f.dst.ip) + ":" + PrintInt(f.dst.port)) ==
             if f.dst.ip.V4? then Some(f.dst) else None;
    }
  }

  lemma VpnRead(lib: Library, m: Machine, c: Config)
    requires Lawful(lib, m.bind)
    ensures GenVpn(lib, FromConfig(lib, m, c)) == Ok(NormalForm(lib, m, c).vpn)
  {
    if c.vpn.Some? {
      var v := c.vpn.value;
      assert lib.parseSock(lib.printIp(V4(0)) + ":" + PrintInt(v.listen.port)) == Some(Sock(V4(0), v.listen.port));
      assert lib.parseCidr(lib.printIp(V4(v.clients.first)) + "/" + PrintInt(v.clients.length)) == Some(v.clients);
    }
  }

  lemma RoutesRead(lib: Library, m: Machine, c: Config)
    requires Lawful(lib, m.bind)
    ensures GenRoutes(lib, FromConfig(lib, m, c)) == Ok(NormalForm(lib, m, c).routes)
  {
    ParseAllPrinted(OrEmpty(c.routes), lib.printCidr, text => NeedRoute(lib, text));
  }

  lemma ExitNodesRead(lib: Library, m: Machine, c: Config)
    requires Lawful(lib, m.bind)
    ensures GenExitNodes(lib, FromConfig(lib, m, c)) == Ok(NormalForm(lib, m, c).exitNodes)
  {
    ParseAllPrinted(OrEmpty(c.exitNodes), lib.printIp, text => NeedExitNode(lib, text));
  }

  lemma Socks5Read(lib: Library, m: Machine, c: Config)
    requires Lawful(lib, m.bind)
    ensures GenSocks5(lib, m, FromConfig(lib, m, c)) == Ok(NormalSocks5(lib, m, c.socks5))
  {
  }

  ghost predicate AnyPortless(lib: Library, urls: seq<Url>) {
    exists i :: 0 <= i < |urls| && lib.urlPort(urls[i]).None?
  }

  lemma MappedRead(lib: Library, m: Machine, c: Config)
    requires Lawful(lib, m.bind)
    ensures GenMapped(lib, FromConfig(lib, m, c)) ==
            if AnyPortless(lib, OrEmpty(c.mapped)) then Err(Panicked) else Ok(NormalForm(lib, m, c).mapped)
  {
    var urls := OrEmpty(c.mapped);
    var texts := Map(urls, lib.printUrl);
    forall i | 0 <= i < |urls|
      ensures NeedMapped(lib, texts[i]) == if lib.urlPort(urls[i]).None? then Err(Panicked) else Ok(urls[i])
    {
      assert lib.parseUrl(lib.printUrl(urls[i])) == Some(urls[i]);
    }
    if AnyPortless(lib, urls) {
      var i :| 0 <= i < |urls| && lib.urlPort(urls[i]).None?;
      assert NeedMapped(lib, texts[i]).Err?;
      ParseAllFails(texts, text => NeedMapped(lib, text), Panicked);
    } else {
      ParseAllPrinted(urls, lib.printUrl, text => NeedMapped(lib, text));
    }
  }

  lemma MtuRoundTrip(n: U32)
    ensures AsU32(AsI32(n)) == n
  {
  }

  lemma FlagsRead(m: Machine, f: Flags)
    ensures GenFlags(m, FromFlags(f)) == NormalFlags(m, f)
  {
    assert Toggled(DefaultFlags(m).on, FromFlags(f).toggles) == f.on;
    MtuRoundTrip(f.mtu);
    if f.whitelist == "*" { StarIsAWord(); }
  }

  lemma StarIsAWord()
    ensures Join(Words("*"), " ") == "*"
  {
    WordsOfJoined(["*"]);
  }

  lemma {:induction false} DistinctGrows(seen: seq<Proxy>, proxies: seq<Proxy>)
    ensures |DistinctProxies(seen, proxies)| >= |seen|
    ensures DistinctProxies(seen, proxies) == [] <==> seen == [] && proxies == []
    decreases |proxies|
  {
    if proxies != [] {
      DistinctGrows(AddProxy(seen, Stripped(proxies[0])), proxies[1..]);
    }
  }

  lemma ProxiesPart(lib: Library, m: Machine, c: Config)
    requires Lawful(lib, m.bind)
    ensures GenProxies(lib, FromConfig(lib, m, c)) ==
            if AnyMismatched(OrEmpty(c.proxies)) then Err(LengthMismatch) else Ok(NormalForm(lib, m, c).proxies)
  {
    ProxiesRead(lib, m.bind, [], OrEmpty(c.proxies));
    DistinctGrows([], OrEmpty(c.proxies));
  }

  lemma ForwardsPart(lib: Library, m: Machine, c: Config)
    requires Lawful(lib, m.bind)
    ensures GenForwards(lib, FromConfig(lib, m, c)) == NormalForm(lib, m, c).forwards
  {
    ForwardsRead(lib, m.bind, OrEmpty(c.forwards));
  }

  /** The fields that `gen_config` takes over without parsing. */
  ghost predicate CopiedFields(lib: Library, m: Machine, n: NetworkConfig, d: Config) {
    && GenId(lib, m, n) == Ok(OrElse(d.id, 0)) && d.id.Some?
    && d.hostname == n.hostname && d.instName == d.network == Some(OrElse(n.networkName, ""))
    && d.dhcp == Some(OrElse(n.dhcp, false))
    && d.trust == (if n.trust.Some?
         then Some(Trust(n.trust.value.dir, n.trust.value.network, n.trust.value.passwordEnv, [])) else None)
    && d.acl == (if n.acl.Some? && !AclEmpty(n.acl.value) then n.acl else None)
    && d.credentialFile == (if n.credentialFile.Some? && n.credentialFile.value != "" then n.credentialFile else None)
    && d.forwards == GenForwards(lib, n) && d.flags == GenFlags(m, n.flags) && d.uncarried == map[]
  }

  lemma CopiedPart(lib: Library, m: Machine, c: Config)
    requires Lawful(lib, m.bind)
    ensures CopiedFields(lib, m, FromConfig(lib, m, c), NormalForm(lib, m, c))
  {
    ForwardsPart(lib, m, c);
    FlagsRead(m, c.flags);
    assert lib.parseUuid(lib.printUuid(OrElse(c.id, m.newId))) == Some(OrElse(c.id, m.newId));
  }

  lemma Assembled(lib: Library, m: Machine, n: NetworkConfig, d: Config, mismatched: bool, portless: bool)
    requires CopiedFields(lib, m, n, d)
    requires GenIpv4(lib, n) == Ok(d.ipv4) && GenPeers(lib, n) == Ok(d.peers)
    requires d.listeners.Some?
             && ParseAll(NonEmptyTexts(n.listenerUrls), text => NeedUrl(lib, text)) == Ok(d.listeners.value)
    requires GenProxies(lib, n) == if mismatched then Err(LengthMismatch) else Ok(d.proxies)
    requires GenVpn(lib, n) == Ok(d.vpn) && GenRoutes(lib, n) == Ok(d.routes)
    requires GenExitNodes(lib, n) == Ok(d.exitNodes) && GenSocks5(lib, m, n) == Ok(d.socks5)
    requires GenMapped(lib, n) == if portless then Err(Panicked) else Ok(d.mapped)
    ensures GenConfig(lib, m, n) ==
            if mismatched then Err(LengthMismatch) else if portless then Err(Panicked) else Ok(d)
  {
  }

  /**
   * The conversion there and back either yields the normal form or fails, and it fails exactly if a
   * proxy maps between networks of different lengths or, after that, a mapped listener has no port.
   */
  lemma NormaliseExactly(lib: Library, m: Machine, c: Config)
    requires Lawful(lib, m.bind)
    ensures Normalise(lib, m, c) ==
            if AnyMismatched(OrEmpty(c.proxies)) then Err(LengthMismatch)
            else if AnyPortless(lib, OrEmpty(c.mapped)) then Err(Panicked)
            else Ok(NormalForm(lib, m, c))
  {
    CopiedPart(lib, m, c);
    Ipv4Read(lib, m, c);
    PeersRead(lib, m, c);
    UrlsRead(lib, m.bind, OrEmpty(c.listeners));
    ProxiesPart(lib, m, c);
    VpnRead(lib, m, c);
    RoutesRead(lib, m, c);
    ExitNodesRead(lib, m, c);
    Socks5Read(lib, m, c);
    MappedRead(lib, m, c);
    Assembled(lib, m, FromConfig(lib, m, c), NormalForm(lib, m, c),
              AnyMismatched(OrEmpty(c.proxies)), AnyPortless(lib, OrEmpty(c.mapped)));
  }
}
