/** What converting twice does, and which configurations the conversion leaves alone. */
module ConfigFixpoint {
  import opened Prelude
  import opened Text
  import opened ConfigTypes
  import opened ConfigText
  import opened ConfigConversion
  import opened ConfigLaws

  // --- Proxies ---

  predicate OtherNetworks(p: Proxy, q: Proxy) {
    !SameNetworks(p, q)
  }

  /** Stripped of allow lists, and no pair of networks twice. */
  ghost predicate TidyProxies(proxies: seq<Proxy>) {
    Pairwise(proxies, OtherNetworks) && forall p :: p in proxies ==> p.allow.None?
  }

  lemma AddProxyTidy(seen: seq<Proxy>, p: Proxy)
    requires TidyProxies(seen)
    ensures TidyProxies(AddProxy(seen, Stripped(p)))
    ensures forall q :: q in AddProxy(seen, Stripped(p)) ==> q in seen || q == Stripped(p)
  {
  }

  lemma {:induction false} DistinctTidy(seen: seq<Proxy>, proxies: seq<Proxy>)
    requires TidyProxies(seen)
    ensures TidyProxies(DistinctProxies(seen, proxies))
    ensures forall q :: q in DistinctProxies(seen, proxies) ==>
            q in seen || exists i :: 0 <= i < |proxies| && q == Stripped(proxies[i])
    decreases |proxies|
  {
    if proxies != [] {
      AddProxyTidy(seen, proxies[0]);
      DistinctTidy(AddProxy(seen, Stripped(proxies[0])), proxies[1..]);
      forall q | q in DistinctProxies(seen, proxies)
        ensures q in seen || exists i :: 0 <= i < |proxies| && q == Stripped(proxies[i])
      {
        if i :| 0 <= i < |proxies[1..]| && q == Stripped(proxies[1..][i]) {
          assert proxies[i + 1] == proxies[1..][i];
        }
      }
    }
  }

  /** A tidy list is kept as it is. */
  lemma {:induction false} DistinctOfTidy(seen: seq<Proxy>, proxies: seq<Proxy>)
    requires TidyProxies(seen + proxies)
    ensures DistinctProxies(seen, proxies) == seen + proxies
    decreases |proxies|
  {
    if proxies != [] {
      var all, p := seen + proxies, proxies[0];
      assert all[|seen|] == p && p in all;
      assert Stripped(p) == p;
      forall i | 0 <= i < |seen| ensures !SameNetworks(seen[i], p) {
        assert all[i] == seen[i] && OtherNetworks(all[i], all[|seen|]);
      }
      assert AddProxy(seen, p) == seen + [p];
      assert (seen + [p]) + proxies[1..] == all;
      DistinctOfTidy(seen + [p], proxies[1..]);
    } else {
      assert seen + proxies == seen;
    }
  }

  lemma DistinctFixed(proxies: seq<Proxy>)
    ensures DistinctProxies([], proxies) == proxies <==> TidyProxies(proxies)
  {
    DistinctTidy([], proxies);
    assert [] + proxies == proxies;
    if TidyProxies(proxies) { DistinctOfTidy([], proxies); }
  }

  lemma DistinctTwice(proxies: seq<Proxy>)
    ensures DistinctProxies([], DistinctProxies([], proxies)) == DistinctProxies([], proxies)
    ensures !AnyMismatched(proxies) ==> !AnyMismatched(DistinctProxies([], proxies))
  {
    DistinctTidy([], proxies);
    var once := DistinctProxies([], proxies);
    DistinctFixed(once);
    forall i | 0 <= i < |once| ensures Mismatched(once[i]) ==> AnyMismatched(proxies) {
      assert once[i] in once;
      var k :| 0 <= k < |proxies| && once[i] == Stripped(proxies[k]);
      assert Mismatched(once[i]) == Mismatched(proxies[k]);
    }
  }

  // --- The normal form of a normal form ---

  lemma HostnameTwice(m: Machine, h: Option<string>)
    ensures NormalHostname(m, NormalHostname(m, h)) == NormalHostname(m, h)
  {
    if h.Some? { CleanHostnameIdempotent(h.value); }
  }

  lemma Ipv4Twice(lib: Library, m: Machine, c: Config)
    requires Lawful(lib, m.bind)
    ensures NormalIpv4(lib, NormalForm(lib, m, c)) == NormalIpv4(lib, c)
  {
    var i := GetIpv4(lib, c);
    if i.Some? { assert lib.parseInet(lib.printInet(i.value)) == i; }
  }

  lemma Socks5Twice(lib: Library, m: Machine, portal: Option<Url>)
    requires Lawful(lib, m.bind)
    ensures NormalSocks5(lib, m, NormalSocks5(lib, m, portal)) == NormalSocks5(lib, m, portal)
  {
  }

  lemma FlagsTwice(m: Machine, f: Flags)
    ensures NormalFlags(m, NormalFlags(m, f)) == NormalFlags(m, f)
  {
    SpacingIdempotent(f.whitelist);
  }

  lemma ForwardsTwice(fs: Option<seq<Forward>>)
    ensures var once := NormalForwards(fs);
            NormalForwards(once) == if once == Some([]) then None else once
  {
    FilterElements(OrEmpty(fs), BothV4);
    FilterAll(Filter(OrEmpty(fs), BothV4), BothV4);
  }

  lemma PeersTwice(peers: seq<Peer>)
    ensures PlainPeers(PlainPeers(peers)) == PlainPeers(peers)
  {
  }

  /** An empty list of forwards that is present becomes absent; nothing else changes the second time. */
  function WithoutEmptyForwards(d: Config): Config {
    if d.forwards == Some([]) then d.(forwards := None) else d
  }

  /** The fields whose normal form takes more than a look. */
  ghost predicate Steady(lib: Library, m: Machine, d: Config) {
    && NormalHostname(m, d.hostname) == d.hostname
    && NormalIpv4(lib, d) == d.ipv4
    && NormalSocks5(lib, m, d.socks5) == d.socks5
    && NormalFlags(m, d.flags) == d.flags
    && NonEmptyList(PlainPeers(OrEmpty(d.peers))) == d.peers
    && NonEmptyList(DistinctProxies([], OrEmpty(d.proxies))) == d.proxies
    && NormalForwards(d.forwards) == WithoutEmptyForwards(d).forwards
  }

  lemma NormalFormSteady(lib: Library, m: Machine, c: Config)
    requires Lawful(lib, m.bind)
    ensures Steady(lib, m, NormalForm(lib, m, c))
  {
    HostnameTwice(m, c.hostname);
    Ipv4Twice(lib, m, c);
    Socks5Twice(lib, m, c.socks5);
    FlagsTwice(m, c.flags);
    ForwardsTwice(c.forwards);
    PeersTwice(OrEmpty(c.peers));
    DistinctTwice(OrEmpty(c.proxies));
  }

  /** The fields whose normal form is read off at a glance. */
  ghost predicate Plain(d: Config) {
    && d.id.Some? && d.dhcp.Some? && d.network.Some? && d.instName == d.network && d.listeners.Some?
    && (d.trust.Some? ==> d.trust.value.relayServing == [])
    && d.mapped != Some([]) && d.exitNodes != Some([]) && d.routes != Some([])
    && (d.vpn.Some? ==> d.vpn.value.listen.ip == V4(0))
    && (d.acl.Some? ==> !AclEmpty(d.acl.value)) && d.credentialFile != Some("") && d.uncarried == map[]
  }

  lemma SteadyAndPlain(lib: Library, m: Machine, d: Config)
    requires Steady(lib, m, d) && Plain(d)
    ensures NormalForm(lib, m, d) == WithoutEmptyForwards(d)
  {
  }

  lemma NormalFormTwice(lib: Library, m: Machine, c: Config)
    requires Lawful(lib, m.bind)
    ensures NormalForm(lib, m, NormalForm(lib, m, c)) == WithoutEmptyForwards(NormalForm(lib, m, c))
  {
    NormalFormSteady(lib, m, c);
    SteadyAndPlain(lib, m, NormalForm(lib, m, c));
  }

  /** A configuration with an absent list reads the same as with an empty one. */
  lemma WithoutEmptyForwardsNormal(lib: Library, m: Machine, d: Config)
    ensures NormalForm(lib, m, WithoutEmptyForwards(d)) == NormalForm(lib, m, d)
  {
  }

  /**
   * Whenever the conversion succeeds, so does converting its result, which then differs at most in
   * an empty list of forwards becoming absent. A third time changes nothing.
   */
  lemma NormaliseTwice(lib: Library, m: Machine, c: Config)
    requires Lawful(lib, m.bind)
    ensures Normalise(lib, m, c).Ok? ==>
              var d := Normalise(lib, m, c).value;
              && Normalise(lib, m, d) == Ok(WithoutEmptyForwards(d))
              && OrEmpty(WithoutEmptyForwards(d).forwards) == OrEmpty(d.forwards)
              && Normalise(lib, m, WithoutEmptyForwards(d)) == Ok(WithoutEmptyForwards(d))
  {
    NormaliseExactly(lib, m, c);
    if Normalise(lib, m, c).Ok? {
      NormaliseAgain(lib, m, c);
    }
  }

  /** A normal form of a convertible configuration converts, with or without its empty forwards. */
  lemma NormaliseAgain(lib: Library, m: Machine, c: Config)
    requires Lawful(lib, m.bind) && !AnyMismatched(OrEmpty(c.proxies)) && !AnyPortless(lib, OrEmpty(c.mapped))
    ensures var d := NormalForm(lib, m, c);
            && Normalise(lib, m, d) == Ok(WithoutEmptyForwards(d))
            && Normalise(lib, m, WithoutEmptyForwards(d)) == Ok(WithoutEmptyForwards(d))
  {
    var d := NormalForm(lib, m, c);
    NormalFormTwice(lib, m, c);
    DistinctTwice(OrEmpty(c.proxies));
    NormaliseSteady(lib, m, d);
    WithoutEmptyForwardsNormal(lib, m, d);
    NormaliseSteady(lib, m, WithoutEmptyForwards(d));
  }

  lemma NormaliseSteady(lib: Library, m: Machine, d: Config)
    requires Lawful(lib, m.bind) && !AnyMismatched(OrEmpty(d.proxies)) && !AnyPortless(lib, OrEmpty(d.mapped))
    ensures Normalise(lib, m, d) == Ok(NormalForm(lib, m, d))
  {
    NormaliseExactly(lib, m, d);
  }

  lemma {:induction false} FilterEmpty<T(!new)>(xs: seq<T>, keep: T -> bool)
    ensures Filter(xs, keep) == [] <==> forall i :: 0 <= i < |xs| ==> !keep(xs[i])
  {
    if xs != [] {
      FilterEmpty(xs[1..], keep);
      forall i | 0 < i < |xs| ensures xs[i] == xs[1..][i - 1] {}
    }
  }

  /** The result is a fixed point at once exactly if not all of the forwards are dropped. */
  lemma IdempotentExactly(lib: Library, m: Machine, c: Config)
    requires Lawful(lib, m.bind)
    ensures Normalise(lib, m, c).Ok? ==>
              var d := Normalise(lib, m, c).value;
              Normalise(lib, m, d) == Ok(d) <==>
                || OrEmpty(c.forwards) == []
                || exists i :: 0 <= i < |OrEmpty(c.forwards)| && BothV4(OrEmpty(c.forwards)[i])
  {
    NormaliseTwice(lib, m, c);
    NormaliseExactly(lib, m, c);
    FilterEmpty(OrEmpty(c.forwards), BothV4);
  }

  /** A configuration whose only forward is between version 6 addresses is not. */
  lemma IdempotenceCanFail(lib: Library, m: Machine)
    requires Lawful(lib, m.bind)
    ensures exists c: Config ::
              Normalise(lib, m, c).Ok? && Normalise(lib, m, Normalise(lib, m, c).value) != Normalise(lib, m, c)
  {
    var end := Sock(V6(1), 80);
    var c := DefaultConfig(m).(forwards := Some([Forward(end, end, "tcp")]));
    NormaliseExactly(lib, m, c);
    IdempotentExactly(lib, m, c);
  }

  // --- Which configurations are left alone ---

  ghost predicate SettledForwards(fs: Option<seq<Forward>>) {
    fs != Some([]) && forall f :: f in OrEmpty(fs) ==> BothV4(f)
  }

  ghost predicate SettledPeers(peers: Option<seq<Peer>>) {
    peers != Some([]) && forall i :: 0 <= i < |OrEmpty(peers)| ==>
        OrEmpty(peers)[i].publicKey.None? && OrEmpty(peers)[i].bootstrap.None?
  }

  predicate SettledFlags(m: Machine, f: Flags) {
    && f.whitelist == Join(Words(f.whitelist), " ") && (f.dnsZone == "" ==> m.dnsZone == "")
    && f.algorithm == m.algorithm && f.compression == 1 && f.uncarried == m.flagDefaults
  }

  ghost predicate SettledIpv4(lib: Library, c: Config) {
    c.ipv4.None? || (!OrElse(c.dhcp, false) && exists i: Inet :: i.length != 32 && lib.printInet(i) == c.ipv4.value)
  }

  predicate SettledHostname(m: Machine, h: Option<string>) {
    h.Some? ==> 0 < |h.value| <= 32 && h.value != m.hostname && forall ch :: ch in h.value ==> IsPrintable(ch)
  }

  ghost predicate SettledSocks5(lib: Library, m: Machine, portal: Option<Url>) {
    portal.Some? ==> exists p: Port :: lib.parseUrl(Socks5Text(m.bind, p)) == portal
  }

  ghost predicate SettledProxies(proxies: Option<seq<Proxy>>) {
    proxies != Some([]) && TidyProxies(OrEmpty(proxies))
  }

  /** Every field is already as the conversion writes it. */
  ghost predicate Settled(lib: Library, m: Machine, c: Config) {
    && Plain(c) && SettledHostname(m, c.hostname) && SettledIpv4(lib, c) && SettledSocks5(lib, m, c.socks5)
    && SettledFlags(m, c.flags) && SettledPeers(c.peers) && SettledProxies(c.proxies) && SettledForwards(c.forwards)
  }

  lemma HostnameSettled(m: Machine, h: Option<string>)
    ensures NormalHostname(m, h) == h <==> SettledHostname(m, h)
  {
    if h.Some? { CleanHostnameFixed(h.value); }
  }

  lemma Ipv4Settled(lib: Library, bind: string, c: Config)
    requires Lawful(lib, bind)
    ensures NormalIpv4(lib, c) == c.ipv4 <==> SettledIpv4(lib, c)
  {
    if c.ipv4.Some? {
      if i: Inet :| i.length != 32 && lib.printInet(i) == c.ipv4.value {
        assert lib.parseInet(lib.printInet(i)) == Some(i);
      }
    }
  }

  lemma PeersSettled(peers: Option<seq<Peer>>)
    ensures NonEmptyList(PlainPeers(OrEmpty(peers))) == peers <==> SettledPeers(peers)
  {
    var plain := PlainPeers(OrEmpty(peers));
    if SettledPeers(peers) {
      assert plain == OrEmpty(peers);
    }
    if NonEmptyList(plain) == peers {
      forall i | 0 <= i < |OrEmpty(peers)|
        ensures OrEmpty(peers)[i].publicKey.None? && OrEmpty(peers)[i].bootstrap.None?
      {
        assert plain[i] == OrEmpty(peers)[i];
      }
    }
  }

  lemma ProxiesSettled(proxies: Option<seq<Proxy>>)
    ensures NonEmptyList(DistinctProxies([], OrEmpty(proxies))) == proxies <==> SettledProxies(proxies)
  {
    DistinctFixed(OrEmpty(proxies));
    DistinctGrows([], OrEmpty(proxies));
  }

  lemma Socks5Settled(lib: Library, m: Machine, portal: Option<Url>)
    requires Lawful(lib, m.bind)
    ensures NormalSocks5(lib, m, portal) == portal <==> SettledSocks5(lib, m, portal)
  {
  }

  lemma ForwardsSettled(fs: Option<seq<Forward>>)
    ensures NormalForwards(fs) == fs <==> SettledForwards(fs)
  {
    FilterElements(OrEmpty(fs), BothV4);
    if SettledForwards(fs) { FilterAll(OrEmpty(fs), BothV4); }
  }

  lemma PlainFixed(lib: Library, m: Machine, c: Config)
    requires NormalForm(lib, m, c) == c
    ensures Plain(c) && Steady(lib, m, c) && c.forwards != Some([])
  {
  }

  lemma SteadySettled(lib: Library, m: Machine, c: Config)
    requires Lawful(lib, m.bind)
    ensures Steady(lib, m, c) && c.forwards != Some([]) && Plain(c) <==> Settled(lib, m, c)
  {
    HostnameSettled(m, c.hostname);
    Ipv4Settled(lib, m.bind, c);
    PeersSettled(c.peers);
    ProxiesSettled(c.proxies);
    Socks5Settled(lib, m, c.socks5);
    ForwardsSettled(c.forwards);
  }

  lemma NormalFormSettled(lib: Library, m: Machine, c: Config)
    requires Lawful(lib, m.bind)
    ensures NormalForm(lib, m, c) == c <==> Settled(lib, m, c)
  {
    SteadySettled(lib, m, c);
    if NormalForm(lib, m, c) == c {
      PlainFixed(lib, m, c);
    } else if Steady(lib, m, c) && Plain(c) {
      SteadyAndPlain(lib, m, c);
    }
  }

  /** The conversion returns a configuration unchanged exactly if every field is settled and convertible. */
  lemma IdentityExactly(lib: Library, m: Machine, c: Config)
    requires Lawful(lib, m.bind)
    ensures Normalise(lib, m, c) == Ok(c) <==>
            Settled(lib, m, c) && !AnyMismatched(OrEmpty(c.proxies)) && !AnyPortless(lib, OrEmpty(c.mapped))
  {
    NormaliseExactly(lib, m, c);
    NormalFormSettled(lib, m, c);
  }
}
