/** The loader and the two conversions as the code runs them: fields set one by one, lists built in loops. */
module ConfigLoaders {
  import opened Prelude
  import opened ConfigTypes
  import opened ConfigText
  import opened ConfigConversion
  import opened ConfigMeaning

  class TomlConfigLoader {
    var config: Config

    constructor (m: Machine)
      ensures config == DefaultConfig(m)
    {
      config := DefaultConfig(m);
    }

    /** A missing identifier is made up and remembered. */
    method ReadId(m: Machine) returns (x: Uuid)
      modifies this
      ensures x == OrElse(old(config).id, m.newId) && config == old(config).(id := Some(x))
    {
      if config.id.None? { config := config.(id := Some(m.newId)); }
      x := config.id.value;
    }

    /** The stored name is cleaned on reading, and what is left of it written back. */
    method ReadHostname(m: Machine) returns (h: string)
      modifies this
      ensures h == GetHostname(m, old(config)) == GetHostname(m, config)
      ensures config == old(config).(hostname := config.hostname)
      ensures config.hostname ==
              if old(config).hostname.Some? && CleanHostname(old(config).hostname.value) != "" then Some(h) else None
    {
      h := m.hostname;
      if config.hostname.Some? {
        var clean := CleanHostname(config.hostname.value);
        CleanHostnameIdempotent(config.hostname.value);
        if clean != "" {
          config := config.(hostname := Some(clean));
          h := clean;
        } else {
          config := config.(hostname := None);
        }
      }
    }

    /** `add_proxy_cidr`. */
    method AddProxyCidr(cidr: Cidr, target: Option<Cidr>) returns (error: Option<ConfigError>)
      modifies this
      ensures error == if target.Some? && cidr.length != target.value.length then Some(LengthMismatch) else None
      ensures config == old(config).(proxies := config.proxies)
      ensures var before := OrEmpty(old(config).proxies);
              config.proxies == Some(if error.Some? then before else AddProxy(before, Proxy(cidr, target, None)))
    {
      if config.proxies.None? { config := config.(proxies := Some([])); }
      if target.Some? && cidr.length != target.value.length { return Some(LengthMismatch); }
      var p := Proxy(cidr, target, None);
      var list := config.proxies.value;
      var known := false;
      for i := 0 to |list|
        invariant known <==> exists k :: 0 <= k < i && SameNetworks(list[k], p)
      {
        if SameNetworks(list[i], p) { known := true; }
      }
      if !known { config := config.(proxies := Some(list + [p])); }
      error := None;
    }

    /** `add_proxy_network_to_config`. */
    method AddProxyNetwork(lib: Library, text: string) returns (error: Option<ConfigError>)
      modifies this
      ensures config == old(config).(proxies := config.proxies)
      ensures error == match ParseProxy(lib, text) case Ok(_) => None case Err(e) => Some(e)
      ensures error.None? ==>
                config.proxies == Some(AddProxy(OrEmpty(old(config).proxies), ParseProxy(lib, text).value))
    {
      var parts := SplitArrow(text);
      var cidr := lib.parseCidr(parts[0]);
      if cidr.None? { return Some(BadProxy(parts[0])); }
      if |parts| > 2 { return Some(BadFormat(text)); }
      var target: Option<Cidr> := None;
      if |parts| == 2 {
        target := lib.parseCidr(parts[1]);
        if target.None? { return Some(BadMapped(parts[1])); }
      }
      error := AddProxyCidr(cidr.value, target);
    }

    method AddProxyNetworks(lib: Library, texts: seq<string>) returns (error: Option<ConfigError>)
      requires config.proxies.None?
      modifies this
      ensures config == old(config).(proxies := config.proxies)
      ensures error == match AddProxies(lib, [], texts) case Ok(_) => None case Err(e) => Some(e)
      ensures error.None? ==> config.proxies == if texts == [] then None else Some(AddProxies(lib, [], texts).value)
    {
      for i := 0 to |texts|
        invariant AddProxies(lib, [], texts) == AddProxies(lib, OrEmpty(config.proxies), texts[i..])
        invariant config == old(config).(proxies := config.proxies)
        invariant config.proxies.None? <==> i == 0
      {
        assert texts[i..][1..] == texts[i + 1..];
        error := AddProxyNetwork(lib, texts[i]);
        if error.Some? { return; }
      }
      error := None;
    }
  }

  // --- Lists ---

  function Prepend<T>(xs: seq<T>, rest: Parsed<seq<T>>): Parsed<seq<T>> {
    match rest
    case Ok(ys) => Ok(xs + ys)
    case Err(e) => Err(e)
  }

  /** The loops over routes, exit nodes and mapped listeners. */
  method ParseList<T>(texts: seq<string>, parse: string -> Parsed<T>) returns (r: Parsed<seq<T>>)
    ensures r == ParseAll(texts, parse)
  {
    var xs := [];
    assert texts[0..] == texts;
    PrependNone(ParseAll(texts, parse));
    for i := 0 to |texts|
      invariant ParseAll(texts, parse) == Prepend(xs, ParseAll(texts[i..], parse))
    {
      assert texts[i..][0] == texts[i] && texts[i..][1..] == texts[i + 1..];
      var x := parse(texts[i]);
      if x.Err? { return Err(x.error); }
      PrependOne(xs, x.value, ParseAll(texts[i + 1..], parse));
      xs := xs + [x.value];
    }
    assert xs + [] == xs;
    r := Ok(xs);
  }

  lemma PrependNone<T>(rest: Parsed<seq<T>>)
    ensures Prepend([], rest) == rest
  {
    if rest.Ok? { assert [] + rest.value == rest.value; }
  }

  lemma PrependOne<T>(xs: seq<T>, x: T, rest: Parsed<seq<T>>)
    ensures Prepend(xs, Prepend([x], rest)) == Prepend(xs + [x], rest)
  {
    if rest.Ok? { assert xs + ([x] + rest.value) == (xs + [x]) + rest.value; }
  }

  /** The loops over peer and listener URLs, which skip empty texts. */
  method ParseUrls(lib: Library, texts: seq<string>) returns (r: Parsed<seq<Url>>)
    ensures r == ParseAll(NonEmptyTexts(texts), text => NeedUrl(lib, text))
  {
    ghost var parse := (text: string) => NeedUrl(lib, text);
    var xs := [];
    assert texts[0..] == texts;
    PrependNone(ParseAll(NonEmptyTexts(texts), parse));
    for i := 0 to |texts|
      invariant ParseAll(NonEmptyTexts(texts), parse) == Prepend(xs, ParseAll(NonEmptyTexts(texts[i..]), parse))
    {
      assert texts[i..][0] == texts[i] && texts[i..][1..] == texts[i + 1..];
      if texts[i] == "" { continue; }
      var x := NeedUrl(lib, texts[i]);
      ghost var rest := NonEmptyTexts(texts[i + 1..]);
      assert ([texts[i]] + rest)[1..] == rest;
      if x.Err? { return Err(x.error); }
      PrependOne(xs, x.value, ParseAll(rest, parse));
      xs := xs + [x.value];
    }
    assert xs + [] == xs;
    r := Ok(xs);
  }

  method CollectForwards(lib: Library, fs: seq<ForwardText>) returns (r: seq<Forward>)
    ensures r == ParseForwards(lib, fs)
  {
    r := [];
    for i := 0 to |fs|
      invariant ParseForwards(lib, fs) == r + ParseForwards(lib, fs[i..])
    {
      assert fs[i..][0] == fs[i] && fs[i..][1..] == fs[i + 1..];
      var f := ParseForward(lib, fs[i]);
      if f.Some? { r := r + [f.value]; }
    }
  }

  // --- `gen_config` ---

  method BuildPeers(lib: Library, n: NetworkConfig) returns (r: Parsed<Option<seq<Peer>>>)
    ensures r == GenPeers(lib, n)
  {
    var networking := OrElse(n.networking, 0);
    if networking == 1 {
      var uris := ParseUrls(lib, n.peerUrls);
      if uris.Err? { return Err(uris.error); }
      r := Ok(if uris.value == [] then None else Some(Map(uris.value, PlainPeer)));
    } else if networking == 2 {
      r := Ok(None);
    } else {
      var uri := NeedUrl(lib, OrElse(n.publicServerUrl, ""));
      if uri.Err? { return Err(uri.error); }
      r := Ok(Some([PlainPeer(uri.value)]));
    }
  }

  /** Routes, exit nodes and mapped listeners: parsed and set only when there are any. */
  method SetLists(lib: Library, n: NetworkConfig, cfg: TomlConfigLoader) returns (error: Option<ConfigError>)
    requires cfg.config.routes.None? && cfg.config.exitNodes.None?
    modifies cfg
    ensures var routes := GenRoutes(lib, n); var exitNodes := GenExitNodes(lib, n);
            if routes.Err? then error == Some(routes.error)
            else if exitNodes.Err? then error == Some(exitNodes.error)
            else error == None && cfg.config == old(cfg.config).(routes := routes.value, exitNodes := exitNodes.value)
  {
    if OrElse(n.enableRoutes, false) {
      var routes := ParseList(n.routes, text => NeedRoute(lib, text));
      if routes.Err? { return Some(routes.error); }
      cfg.config := cfg.config.(routes := Some(routes.value));
    }
    if n.exitNodes != [] {
      var nodes := ParseList(n.exitNodes, text => NeedExitNode(lib, text));
      if nodes.Err? { return Some(nodes.error); }
      cfg.config := cfg.config.(exitNodes := Some(nodes.value));
    }
    error := None;
  }

  method SetMapped(lib: Library, n: NetworkConfig, cfg: TomlConfigLoader) returns (error: Option<ConfigError>)
    requires cfg.config.mapped.None?
    modifies cfg
    ensures var mapped := GenMapped(lib, n);
            if mapped.Err? then error == Some(mapped.error)
            else error == None && cfg.config == old(cfg.config).(mapped := mapped.value)
  {
    if n.mappedListeners != [] {
      var mapped := ParseList(n.mappedListeners, text => NeedMapped(lib, text));
      if mapped.Err? { return Some(mapped.error); }
      cfg.config := cfg.config.(mapped := Some(mapped.value));
    }
    error := None;
  }

  /** The settings that cannot fail: forwards, credential file, policy, flags and trust domain. */
  method SetRest(lib: Library, m: Machine, n: NetworkConfig, cfg: TomlConfigLoader)
    requires cfg.config.forwards.None? && cfg.config.credentialFile.None? && cfg.config.acl.None?
             && cfg.config.trust.None?
    modifies cfg
    ensures cfg.config == old(cfg.config).(
              forwards := GenForwards(lib, n), flags := GenFlags(m, n.flags),
              credentialFile := if n.credentialFile.Some? && n.credentialFile.value != "" then n.credentialFile
                  else None,
              acl := if n.acl.Some? && !AclEmpty(n.acl.value) then n.acl else None,
              trust := if n.trust.Some?
                  then Some(Trust(n.trust.value.dir, n.trust.value.network, n.trust.value.passwordEnv, [])) else None)
  {
    if n.forwards != [] {
      var forwards := CollectForwards(lib, n.forwards);
      cfg.config := cfg.config.(forwards := Some(forwards));
    }
    if n.credentialFile.Some? && n.credentialFile.value != "" {
      cfg.config := cfg.config.(credentialFile := n.credentialFile);
    }
    if n.acl.Some? && !AclEmpty(n.acl.value) { cfg.config := cfg.config.(acl := n.acl); }
    cfg.config := cfg.config.(flags := GenFlags(m, n.flags));
    if n.trust.Some? {
      cfg.config := cfg.config.(
        trust := Some(Trust(n.trust.value.dir, n.trust.value.network, n.trust.value.passwordEnv, [])));
    }
  }

  /** `gen_config`. Settings that cannot fail are gathered at the end; errors keep their order. */
  method BuildConfig(lib: Library, m: Machine, n: NetworkConfig) returns (r: Result<TomlConfigLoader, ConfigError>)
    ensures r.Ok? <==> AllReadable(lib, m, n)
    ensures r.Ok? ==> fresh(r.value) && Follows(lib, m, n, r.value.config)
    ensures r.Ok? ==> GenConfig(lib, m, n) == Ok(r.value.config)
    ensures r.Err? ==> GenConfig(lib, m, n) == Err(r.error) && FirstFault(lib, m, n, r.error)
  {
    GenConfigFault(lib, m, n);
    GenConfigSucceedsExactly(lib, m, n);
    GenConfigFollowed(lib, m, n);
    r := SetUp(lib, m, n);
  }

  method SetUp(lib: Library, m: Machine, n: NetworkConfig) returns (r: Result<TomlConfigLoader, ConfigError>)
    ensures r.Ok? <==> GenConfig(lib, m, n).Ok?
    ensures r.Ok? ==> fresh(r.value) && r.value.config == GenConfig(lib, m, n).value
    ensures r.Err? ==> r.error == GenConfig(lib, m, n).error
  {
    var cfg := new TomlConfigLoader(m);
    var name := Some(OrElse(n.networkName, ""));
    var id :- GenId(lib, m, n);
    var ipv4 :- GenIpv4(lib, n);
    var peersFound := BuildPeers(lib, n);
    var peers :- peersFound;
    var urls := ParseUrls(lib, n.listenerUrls);
    var listeners :- urls;
    cfg.config := cfg.config.(id := Some(id), hostname := n.hostname, dhcp := Some(OrElse(n.dhcp, false)),
                              instName := name, network := name, ipv4 := ipv4, peers := peers,
                              listeners := Some(listeners));
    var error := cfg.AddProxyNetworks(lib, n.proxyCidrs);
    if error.Some? { return Err(error.value); }
    var vpn :- GenVpn(lib, n);
    cfg.config := cfg.config.(vpn := vpn);
    error := SetLists(lib, n, cfg);
    if error.Some? { return Err(error.value); }
    var socks5 :- GenSocks5(lib, m, n);
    cfg.config := cfg.config.(socks5 := socks5);
    error := SetMapped(lib, n, cfg);
    if error.Some? { return Err(error.value); }
    SetRest(lib, m, n, cfg);
    r := Ok(cfg);
  }

  // --- `new_from_config` ---

  method ReadIpv4(lib: Library, ipv4: Option<Inet>) returns (addr: Option<string>, length: Option<I32>)
    ensures addr == Ipv4Text(lib, ipv4) && length == Ipv4Length(ipv4)
  {
    addr, length := None, None;
    if ipv4.Some? { addr, length := Some(lib.printIp(V4(ipv4.value.addr))), Some(ipv4.value.length); }
  }

  method ReadVpn(lib: Library, vpn: Option<Vpn>)
      returns (enable: Option<bool>, port: Option<I32>, addr: Option<string>, length: Option<I32>)
    ensures enable == if vpn.Some? then Some(true) else None
    ensures port == VpnPort(vpn) && length == VpnLength(vpn)
    ensures addr == if vpn.Some? then Some(lib.printIp(V4(vpn.value.clients.first))) else None
  {
    enable, port, addr, length := None, None, None, None;
    if vpn.Some? {
      enable, port := Some(true), Some(vpn.value.listen.port);
      addr, length := Some(lib.printIp(V4(vpn.value.clients.first))), Some(vpn.value.clients.length);
    }
  }

  method ReadSocks5(lib: Library, portal: Option<Url>) returns (enable: Option<bool>, port: Option<I32>)
    ensures enable == if portal.Some? then Some(true) else None
    ensures port == Socks5Port(lib, portal)
  {
    enable, port := None, None;
    if portal.Some? {
      enable := Some(true);
      if lib.urlPort(portal.value).Some? { port := Some(lib.urlPort(portal.value).value); }
    }
  }

  method ReadFlags(f: Flags) returns (n: FlagFields)
    ensures n == FromFlags(f)
  {
    var enable, words := Some(false), [];
    if f.whitelist != "*" {
      enable := Some(true);
      if f.whitelist != "" { words := Words(f.whitelist); }
    }
    var recvLimit := None;
    if f.recvLimit != U64_MAX { recvLimit := Some(f.recvLimit); }
    n := FlagFields(ToggleStates(f.on), Some(f.devName), Some(!f.ipv6), Some(!f.encryption), enable, words,
                    Some(AsI32(f.mtu)), None, None, recvLimit, Some(f.dnsZone));
  }

  /** `new_from_config`, once the identifier and the host name are read. */
  method Describe(lib: Library, m: Machine, c: Config, id: Uuid, host: string) returns (n: NetworkConfig)
    requires id == OrElse(c.id, m.newId) && host == GetHostname(m, c)
    ensures n == FromConfig(lib, m, c)
  {
    var virtualIpv4, networkLength := ReadIpv4(lib, GetIpv4(lib, c));
    var enableVpn, vpnPort, vpnAddr, vpnLength := ReadVpn(lib, c.vpn);
    var enableSocks5, socks5Port := ReadSocks5(lib, c.socks5);
    var routes := OrEmpty(c.routes);
    var flags := ReadFlags(c.flags);
    n := NetworkConfig(
      Some(lib.printUuid(id)), Some(OrElse(c.dhcp, false)), virtualIpv4, networkLength,
      if host != m.hostname then Some(host) else None,
      Some(OrElse(c.network, "")), Some(1), None,
      PeerTexts(lib, OrEmpty(c.peers)), ProxyTexts(lib, OrEmpty(c.proxies)),
      enableVpn, vpnPort, vpnAddr, vpnLength, Map(OrEmpty(c.listeners), lib.printUrl),
      if routes != [] then Some(true) else None, Map(routes, lib.printCidr),
      Map(OrEmpty(c.exitNodes), lib.printIp), enableSocks5, socks5Port, Map(OrEmpty(c.mapped), lib.printUrl),
      ForwardTexts(lib, OrEmpty(c.forwards)), c.acl, c.credentialFile,
      if c.trust.Some? then Some(Locator(c.trust.value.dir, c.trust.value.network, c.trust.value.passwordEnv))
        else None,
      flags);
  }

  /** Reading has two side effects on its source: the identifier is fixed and the host name cleaned. */
  method NewFromConfig(lib: Library, m: Machine, loader: TomlConfigLoader) returns (n: NetworkConfig)
    modifies loader
    ensures n == FromConfig(lib, m, old(loader.config)) == FromConfig(lib, m, loader.config)
    ensures loader.config == old(loader.config).(id := loader.config.id, hostname := loader.config.hostname)
  {
    ghost var before := loader.config;
    var id := loader.ReadId(m);
    var host := loader.ReadHostname(m);
    ReadingKeeps(lib, m, before, loader.config);
    n := Describe(lib, m, loader.config, id, host);
  }

  lemma ReadingKeeps(lib: Library, m: Machine, c: Config, c': Config)
    requires c' == c.(id := Some(OrElse(c.id, m.newId)), hostname := c'.hostname)
             && GetHostname(m, c') == GetHostname(m, c)
    ensures FromConfig(lib, m, c') == FromConfig(lib, m, c)
  {
  }
}
