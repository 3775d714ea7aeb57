/**
 * The conversion between a running configuration (`TomlConfigLoader`) and the form the management
 * interface exchanges (`NetworkConfig`). Printing and parsing of URLs, identifiers and addresses
 * belong to other libraries; `Library` stands for any that read back what they print.
 */
module ConfigTypes {
  import opened Prelude
  import opened Text

  const TWO_31: int := 0x8000_0000
  const TWO_32: int := 0x1_0000_0000
  const TWO_128: int := 0x1_0000_0000_0000_0000_0000_0000_0000_0000

  type Port = n: nat | n < 65536
  type Length = n: nat | n <= 32
  type Addr4 = n: nat | n < TWO_32
  type Addr6 = n: nat | n < TWO_128
  type U32 = n: nat | n < TWO_32
  type I32 = i: int | -TWO_31 <= i < TWO_31

  type Uuid = nat
  type Url = nat
  datatype Ip = V4(bits: Addr4) | V6(bits6: Addr6)
  datatype Sock = Sock(ip: Ip, port: Port)
  datatype Inet = Inet(addr: Addr4, length: Length)

  datatype Prefix = Prefix(first: Addr4, length: Length)

  /** A network address has no host bits. */
  predicate Aligned(p: Prefix) {
    p.first % Pow2(32 - p.length) == 0
  }

  type Cidr = p: Prefix | Aligned(p) witness Prefix(0, 0)

  datatype Library = Library(
    printUuid: Uuid -> string, parseUuid: string -> Option<Uuid>,
    printUrl: Url -> string, parseUrl: string -> Option<Url>, urlPort: Url -> Option<Port>,
    printIp: Ip -> string, parseIp: string -> Option<Ip>, parseSock: string -> Option<Sock>,
    printInet: Inet -> string, parseInet: string -> Option<Inet>,
    printCidr: Cidr -> string, parseCidr: string -> Option<Cidr>)

  function PrintInt(i: int): string {
    if i < 0 then "-" + PrintNat(-i) else PrintNat(i)
  }

  function Socks5Text(bind: string, port: int): string {
    "socks5://" + bind + ":" + PrintInt(port)
  }

  ghost predicate UrlLaws(lib: Library, bind: string) {
    && (forall x: Uuid :: lib.parseUuid(lib.printUuid(x)) == Some(x))
    && (forall u: Url :: lib.parseUrl(lib.printUrl(u)) == Some(u) && lib.printUrl(u) != "")
    && (forall p: Port :: lib.parseUrl(Socks5Text(bind, p)).Some?
         && lib.urlPort(lib.parseUrl(Socks5Text(bind, p)).value) == Some(p))
  }

  /** A version 6 address needs brackets before a port, so without them it is refused. */
  ghost predicate AddressLaws(lib: Library) {
    && (forall a :: lib.parseIp(lib.printIp(a)) == Some(a) && lib.printIp(a) != "")
    && lib.printIp(V4(0)) == "0.0.0.0"
    && (forall a, p: Port ::
         lib.parseSock(lib.printIp(a) + ":" + PrintInt(p)) == if a.V4? then Some(Sock(a, p)) else None)
  }

  ghost predicate NetworkLaws(lib: Library) {
    && (forall i :: lib.parseInet(lib.printInet(i)) == Some(i))
    && (forall i: Inet :: lib.parseInet(lib.printIp(V4(i.addr)) + "/" + PrintInt(i.length)) == Some(i))
    && (forall c: Cidr :: lib.parseCidr(lib.printCidr(c)) == Some(c) && '-' !in lib.printCidr(c))
    && (forall c: Cidr :: lib.parseCidr(lib.printIp(V4(c.first)) + "/" + PrintInt(c.length)) == Some(c))
  }

  /** What is asked of the libraries: they read back what they print, also an address with its length or port. */
  ghost predicate Lawful(lib: Library, bind: string) {
    UrlLaws(lib, bind) && AddressLaws(lib) && NetworkLaws(lib)
  }

  /** Rust's `as i32` on a `u32`, and `as u32` on an `i32`. */
  function AsI32(n: U32): I32 {
    if n < TWO_31 then n else n - TWO_32
  }

  function AsU32(i: I32): U32 {
    if i >= 0 then i else i + TWO_32
  }

  // --- The running configuration ---

  /** The flags that are copied under their own name. */
  datatype Toggle =
    | LatencyFirst | UseSmoltcp | EnableKcpProxy | DisableKcpInput | EnableQuicProxy | DisableQuicInput
    | DisableP2p | P2pOnly | LazyP2p | BindDevice | NoTun | EnableExitNode | RelayAllPeerRpc | NeedP2p
    | MultiThread | ProxyForwardBySystem | DisableTcpHolePunching | DisableUdpHolePunching | DisableUpnp
    | DisableSymHolePunching | AcceptDns | PrivateMode

  /** `uncarried`: the flags that the exchange form has no field for. */
  datatype Flags = Flags(
    on: set<Toggle>, devName: string, ipv6: bool, encryption: bool, whitelist: string, dnsZone: string, mtu: U32,
    recvLimit: nat, algorithm: string, compression: int, uncarried: map<string, string>)

  datatype Peer = Peer(uri: Url, publicKey: Option<string>, bootstrap: Option<string>)
  datatype Proxy = Proxy(cidr: Cidr, mapped: Option<Cidr>, allow: Option<seq<string>>)
  datatype Vpn = Vpn(clients: Cidr, listen: Sock)
  datatype Forward = Forward(bind: Sock, dst: Sock, proto: string)
  datatype AclDoc = AclDoc(chains: seq<string>, groups: seq<string>)
  datatype Trust = Trust(dir: string, network: string, passwordEnv: string, relayServing: seq<string>)

  /** `uncarried`: the settings that the exchange form has no field for. */
  datatype Config = Config(
    id: Option<Uuid>, hostname: Option<string>, instName: Option<string>, ipv4: Option<string>, dhcp: Option<bool>,
    network: Option<string>, trust: Option<Trust>, listeners: Option<seq<Url>>, mapped: Option<seq<Url>>,
    exitNodes: Option<seq<Ip>>, peers: Option<seq<Peer>>, proxies: Option<seq<Proxy>>, vpn: Option<Vpn>,
    routes: Option<seq<Cidr>>, socks5: Option<Url>, forwards: Option<seq<Forward>>, flags: Flags,
    acl: Option<AclDoc>, credentialFile: Option<string>, uncarried: map<string, string>)

  // --- The exchange form ---

  datatype ForwardText = ForwardText(proto: string, bindIp: string, bindPort: nat, dstIp: string, dstPort: nat)
  datatype Locator = Locator(dir: string, network: string, passwordEnv: string)

  /** The fields of `NetworkConfig` that become flags. */
  datatype FlagFields = FlagFields(
    toggles: map<Toggle, bool>, devName: Option<string>, disableIpv6: Option<bool>, disableEncryption: Option<bool>,
    enableWhitelist: Option<bool>, whitelist: seq<string>, mtu: Option<I32>, compression: Option<int>,
    algorithm: Option<string>, recvLimit: Option<nat>, dnsZone: Option<string>)

  datatype NetworkConfig = NetworkConfig(
    instanceId: Option<string>, dhcp: Option<bool>, virtualIpv4: Option<string>, networkLength: Option<I32>,
    hostname: Option<string>, networkName: Option<string>, networking: Option<int>, publicServerUrl: Option<string>,
    peerUrls: seq<string>, proxyCidrs: seq<string>, enableVpn: Option<bool>, vpnPort: Option<I32>,
    vpnAddr: Option<string>, vpnLength: Option<I32>, listenerUrls: seq<string>, enableRoutes: Option<bool>,
    routes: seq<string>, exitNodes: seq<string>, enableSocks5: Option<bool>, socks5Port: Option<I32>,
    mappedListeners: seq<string>, forwards: seq<ForwardText>, acl: Option<AclDoc>, credentialFile: Option<string>,
    trust: Option<Locator>, flags: FlagFields)

  /** What the machine supplies: its name, a new identifier and the address the proxy portal binds. */
  datatype Machine = Machine(hostname: string, newId: Uuid, bind: string, dnsZone: string, algorithm: string,
                             flagDefaults: map<string, string>)

  datatype ConfigError =
    | BadId(text: string) | BadIpv4(text: string) | BadUrl(text: string) | BadProxy(text: string)
    | BadFormat(text: string)
    | BadMapped(text: string) | LengthMismatch | BadVpn | BadRoute(text: string) | BadExitNode(text: string) | Panicked

  function DefaultFlags(m: Machine): Flags {
    Flags({MultiThread, BindDevice}, "", true, true, "*", m.dnsZone, 1380, U64_MAX, m.algorithm, 1, m.flagDefaults)
  }

  /** `TomlConfigLoader::default()`. */
  function DefaultConfig(m: Machine): Config {
    Config(None, None, None, None, None, Some(""), None, None, None, None, None, None, None, None, None, None,
           DefaultFlags(m), None, None, map[])
  }

  function OrEmpty<T>(o: Option<seq<T>>): seq<T> {
    if o.Some? then o.value else []
  }

  function OrElse<T>(o: Option<T>, d: T): T {
    if o.Some? then o.value else d
  }
}
