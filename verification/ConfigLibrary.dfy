/** What the conversion asks of the libraries can be met: one set of functions that meets it. */
module ConfigLibrary {
  import opened Prelude
  import opened Text
  import opened ConfigTypes

  function Tally(c: char, n: nat): (s: string)
    ensures |s| == n + 1 && forall x :: x in s ==> x == c
  {
    seq(n + 1, _ => c)
  }

  function PrintIp(a: Ip): (s: string) {
    if a == V4(0) then "0.0.0.0" else if a.V4? then Tally('4', a.bits) else Tally('6', a.bits6)
  }

  function ParseIp(s: string): Option<Ip> {
    if s == "" then None
    else if s == "0.0.0.0" then Some(V4(0))
    else if s[0] == '4' && |s| <= TWO_32 then Some(V4(|s| - 1))
    else if s[0] == '6' && |s| <= TWO_128 then Some(V6(|s| - 1))
    else None
  }

  function PrintNet(addr: Addr4, length: Length): string {
    PrintIp(V4(addr)) + "/" + PrintInt(length)
  }

  /** A version 4 address and a number below `bound`, around the first `sep`. */
  function ParsePair(s: string, sep: char, bound: nat): Option<(Addr4, nat)> {
    match SplitOnce(s, sep)
    case None => None
    case Some((before, after)) =>
      match ParseIp(before)
      case Some(V4(bits)) =>
        if AllDigits(after) && DigitsValue(after) < bound then Some((bits, DigitsValue(after))) else None
      case _ => None
  }

  function ParseSock(s: string): Option<Sock> {
    match ParsePair(s, ':', 65536)
    case Some((bits, port)) => Some(Sock(V4(bits), if port < 65536 then port else 0))
    case None => None
  }

  function ParseInet(s: string): Option<Inet> {
    match ParsePair(s, '/', 33)
    case Some((bits, length)) => Some(Inet(bits, if length <= 32 then length else 0))
    case None => None
  }

  function ParseCidr(s: string): Option<Cidr> {
    match ParseInet(s)
    case Some(i) => if Aligned(Prefix(i.addr, i.length)) then Some(Prefix(i.addr, i.length)) else None
    case None => None
  }

  function ParseUrl(bind: string, s: string): Option<Url> {
    var prefix := "socks5://" + bind + ":";
    if s != "" && s[0] == 'u' then Some(|s| - 1)
    else if prefix <= s && AllDigits(s[|prefix|..]) then Some(DigitsValue(s[|prefix|..]))
    else None
  }

  function UrlPort(u: Url): Option<Port> {
    if u < 65536 then Some(u) else None
  }

  function Unary(bind: string): Library {
    Library(
      (x: Uuid) => Tally('x', x), (s: string) => if s == "" then None else Some(|s| - 1),
      (u: Url) => Tally('u', u), (s: string) => ParseUrl(bind, s), UrlPort,
      PrintIp, ParseIp, ParseSock,
      (i: Inet) => PrintNet(i.addr, i.length), ParseInet,
      (c: Cidr) => PrintNet(c.first, c.length), ParseCidr)
  }

  lemma {:induction false} SplitAtFirst(a: string, b: string, c: char)
    requires c !in a
    ensures SplitOnce(a + [c] + b, c) == Some((a, b))
  {
    var s := a + [c] + b;
    if a == "" {
      assert s[0] == c && s[1..] == b;
    } else {
      assert a == [a[0]] + a[1..];
      assert s[0] == a[0] && a[0] in a && s[1..] == a[1..] + [c] + b;
      SplitAtFirst(a[1..], b, c);
    }
  }

  lemma IpRead(a: Ip)
    ensures ParseIp(PrintIp(a)) == Some(a) && PrintIp(a) != ""
    ensures ':' !in PrintIp(a) && '/' !in PrintIp(a) && '-' !in PrintIp(a)
  {
    var s := PrintIp(a);
    assert s[0] in s;
    if a != V4(0) { assert s != "0.0.0.0" by { assert s[0] != '0'; } }
  }

  lemma PairRead(a: Ip, sep: char, n: nat, bound: nat)
    requires sep in {':', '/'} && n < bound
    ensures ParsePair(PrintIp(a) + [sep] + PrintNat(n), sep, bound) == if a.V4? then Some((a.bits, n)) else None
  {
    IpRead(a);
    SplitAtFirst(PrintIp(a), PrintNat(n), sep);
  }

  lemma SocksRead(bind: string, p: Port)
    ensures ParseUrl(bind, Socks5Text(bind, p)) == Some(p)
  {
    var prefix := "socks5://" + bind + ":";
    assert Socks5Text(bind, p) == prefix + PrintNat(p);
    assert (prefix + PrintNat(p))[|prefix|..] == PrintNat(p);
  }

  lemma NetText(addr: Addr4, length: Length)
    ensures ParseInet(PrintNet(addr, length)) == Some(Inet(addr, length)) && '-' !in PrintNet(addr, length)
  {
    IpRead(V4(addr));
    PairRead(V4(addr), '/', length, 33);
    assert PrintNet(addr, length) == PrintIp(V4(addr)) + ['/'] + PrintNat(length);
    assert forall c :: c in PrintNat(length) ==> IsDigit(c);
  }

  lemma UrlLawsMet(bind: string)
    ensures UrlLaws(Unary(bind), bind)
  {
    var lib := Unary(bind);
    forall u: Url ensures lib.parseUrl(lib.printUrl(u)) == Some(u) && lib.printUrl(u) != "" {
      var s := Tally('u', u);
      assert s[0] in s;
    }
    forall p: Port
      ensures lib.parseUrl(Socks5Text(bind, p)).Some? && lib.urlPort(lib.parseUrl(Socks5Text(bind, p)).value) == Some(p)
    {
      SocksRead(bind, p);
    }
  }

  lemma AddressLawsMet(bind: string)
    ensures AddressLaws(Unary(bind))
  {
    var lib := Unary(bind);
    forall a ensures lib.parseIp(lib.printIp(a)) == Some(a) && lib.printIp(a) != "" {
      IpRead(a);
    }
    forall a, p: Port
      ensures lib.parseSock(lib.printIp(a) + ":" + PrintInt(p)) == if a.V4? then Some(Sock(a, p)) else None
    {
      PairRead(a, ':', p, 65536);
    }
  }

  lemma NetworkLawsMet(bind: string)
    ensures NetworkLaws(Unary(bind))
  {
    var lib := Unary(bind);
    forall i: Inet ensures lib.parseInet(lib.printIp(V4(i.addr)) + "/" + PrintInt(i.length)) == Some(i) {
      NetText(i.addr, i.length);
    }
    forall c: Cidr
      ensures lib.parseCidr(lib.printIp(V4(c.first)) + "/" + PrintInt(c.length)) == Some(c) && '-' !in lib.printCidr(c)
    {
      NetText(c.first, c.length);
    }
  }

  lemma LawsCanBeMet(bind: string)
    ensures Lawful(Unary(bind), bind)
  {
    UrlLawsMet(bind);
    AddressLawsMet(bind);
    NetworkLawsMet(bind);
  }
}
