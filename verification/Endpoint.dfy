/**
  Endpoint validation: a resolver's `host` or `host:port` becomes the text of an address
  outside the blocked ranges, with its port. DNS answers and the text form of IPv6 addresses
  come from outside and are parameters.
 */
module Endpoint {
  import opened Wrappers
  import opened Text
  import opened Address

  datatype Error = BadFormat | BadPort | Unresolvable | Forbidden

  /** The standard library's IPv6 text form. */
  datatype V6Text = V6Text(parse: string -> Option<V6>, render: V6 -> string)

  /** What a DNS query for a name returns at the moment, if anything. */
  type Lookup = string -> Option<Ip>

  datatype Target = Target(ip: Ip, port: Option<nat>)

  function ParseIp(s: string, lib: V6Text): Option<Ip> {
    match ParseV4(s)
    case Some(v4) => Some(IpV4(v4))
    case None =>
      match lib.parse(s)
      case Some(v6) => Some(IpV6(v6))
      case None => None
  }

  function PrintIp(ip: Ip, lib: V6Text): string {
    match ip
    case IpV4(v4) => PrintV4(v4)
    case IpV6(v6) => lib.render(v6)
  }

  /** `dns::resolve`: literals and names without an answer come back as they are. */
  function Resolve(host: string, lookup: Lookup, lib: V6Text): string {
    if host == "" || ParseIp(host, lib).Some? then host
    else
      match lookup(host)
      case None => host
      case Some(ip) => PrintIp(ip, lib)
  }

  function ParsePort(s: string): Result<Option<nat>, Error> {
    if s == "" then Ok(None)
    else
      match ParseUnsigned(s, 65535)
      case None => Err(BadPort)
      case Some(port) => if port == 0 then Err(BadPort) else Ok(Some(port))
  }

  predicate Safe(t: Target) {
    !IsBlocked(t.ip) && (t.port.Some? ==> 1 <= t.port.value <= 65535)
  }

  /** The checks of `validate`, in their order. */
  function Check(endpoint: string, lookup: Lookup, lib: V6Text): (r: Result<Target, Error>)
    ensures r.Ok? ==> Safe(r.value)
  {
    var parts := Split(endpoint, ':');
    if |parts| > 2 then Err(BadFormat)
    else
      match ParsePort(if |parts| == 2 then parts[1] else "")
      case Err(e) => Err(e)
      case Ok(port) =>
        match ParseIp(Resolve(parts[0], lookup, lib), lib)
        case None => Err(Unresolvable)
        case Some(ip) => if IsBlocked(ip) then Err(Forbidden) else Ok(Target(ip, port))
  }

  function Format(t: Target, lib: V6Text): string {
    match t.port
    case None => PrintIp(t.ip, lib)
    case Some(port) => PrintIp(t.ip, lib) + [':'] + Print(port)
  }

  function Validate(endpoint: string, lookup: Lookup, lib: V6Text): Result<string, Error> {
    match Check(endpoint, lookup, lib)
    case Err(e) => Err(e)
    case Ok(t) => Ok(Format(t, lib))
  }

  /** Host and port, split at the first colon; a missing or unreadable port gives the default. */
  function ParseEndpoint(endpoint: string, defaultPort: nat): (string, nat) {
    match IndexOf(endpoint, ':')
    case None => (endpoint, defaultPort)
    case Some(i) =>
      var port := endpoint[i + 1..];
      (endpoint[..i],
       if port == "" then defaultPort
       else match ParseUnsigned(port, 65535)
            case None => defaultPort
            case Some(n) => n)
  }

  // ---------------------------------------------------------------- round trips

  function PortOr(port: Option<nat>, defaultPort: nat): nat {
    if port.Some? then port.value else defaultPort
  }

  lemma PrintedPort(n: nat)
    requires 1 <= n <= 65535
    ensures ParsePort(Print(n)) == Ok(Some(n)) && ':' !in Print(n)
  {
    ParsePrint(n, 65535);
  }

  lemma SplitFormatted(host: string, port: Option<nat>, text: string)
    requires ':' !in host && (port.Some? ==> 1 <= port.value <= 65535)
    requires text == if port.None? then host else host + [':'] + Print(port.value)
    ensures Split(text, ':') == if port.None? then [host] else [host, Print(port.value)]
  {
    if port.None? {
      SplitOnce(host, ':', "");
    } else {
      PrintedPort(port.value);
      SplitOnce(host, ':', Print(port.value));
      SplitOnce(Print(port.value), ':', "");
    }
  }

  /** What `validate` prints for an IPv4 address is read back as exactly that address and port. */
  lemma ParseFormatted(v4: V4, port: Option<nat>, defaultPort: nat, lib: V6Text)
    requires port.Some? ==> 1 <= port.value <= 65535
    ensures ParseEndpoint(Format(Target(IpV4(v4), port), lib), defaultPort) == (PrintV4(v4), PortOr(port, defaultPort))
  {
    QuadHasNoColon(v4);
    if port.Some? {
      var host, digits := PrintV4(v4), Print(port.value);
      IndexOfFirst(host, ':', digits);
      ParsePrint(port.value, 65535);
      assert (host + [':'] + digits)[..|host|] == host && (host + [':'] + digits)[|host| + 1..] == digits;
    }
  }

  /** The text of an IPv4 target passes the checks exactly when the address is not blocked, and names that target. */
  lemma CheckFormatted(v4: V4, port: Option<nat>, lookup: Lookup, lib: V6Text)
    requires port.Some? ==> 1 <= port.value <= 65535
    ensures Check(Format(Target(IpV4(v4), port), lib), lookup, lib)
            == if IsBlockedV4(v4) then Err(Forbidden) else Ok(Target(IpV4(v4), port))
  {
    QuadHasNoColon(v4);
    ParsePrintV4(v4);
    SplitFormatted(PrintV4(v4), port, Format(Target(IpV4(v4), port), lib));
    if port.Some? {
      PrintedPort(port.value);
    }
  }

  /**
    When `validate` succeeds with an IPv4 result, dialling its output goes to exactly the
    checked address and port, and validating it again changes nothing.
   */
  lemma RoundTrip(endpoint: string, lookup: Lookup, lookup': Lookup, lib: V6Text, defaultPort: nat)
    requires var r := Check(endpoint, lookup, lib);
             r.Ok? && r.value.ip.IpV4?
    ensures var t := Check(endpoint, lookup, lib).value;
            var out := Validate(endpoint, lookup, lib).value;
            && ParseEndpoint(out, defaultPort) == (PrintV4(t.ip.v4), PortOr(t.port, defaultPort))
            && Validate(out, lookup', lib) == Ok(out)
  {
    var t := Check(endpoint, lookup, lib).value;
    ParseFormatted(t.ip.v4, t.port, defaultPort, lib);
    CheckFormatted(t.ip.v4, t.port, lookup', lib);
  }

  /** Two targets with IPv4 addresses never share a text. */
  lemma FormatIsInjective(t: Target, u: Target, lib: V6Text)
    requires Safe(t) && Safe(u) && t.ip.IpV4? && u.ip.IpV4? && Format(t, lib) == Format(u, lib)
    ensures t == u
  {
    var nothing: Lookup := name => None;
    CheckFormatted(t.ip.v4, t.port, nothing, lib);
    CheckFormatted(u.ip.v4, u.port, nothing, lib);
  }

  /**
    `parse_endpoint` splits at the first colon, and the text of an IPv6 address contains
    colons: the host that is dialled is the checked address if and only if that is IPv4.
   */
  lemma DialsCheckedAddress(t: Target, defaultPort: nat, lib: V6Text)
    requires Safe(t) && (t.ip.IpV6? ==> ':' in lib.render(t.ip.v6))
    ensures ParseEndpoint(Format(t, lib), defaultPort).0 == PrintIp(t.ip, lib) <==> t.ip.IpV4?
  {
    if t.ip.IpV4? {
      ParseFormatted(t.ip.v4, t.port, defaultPort, lib);
    } else {
      assert ':' !in ParseEndpoint(Format(t, lib), defaultPort).0;
    }
  }

  /** Text with a colon is no dotted quad. */
  lemma ColonIsNoQuad(s: string)
    requires ':' in s
    ensures ParseV4(s).None?
  {
    if ParseV4(s).Some? {
      PrintParseV4(s);
      QuadHasNoColon(ParseV4(s).value);
    }
  }

  lemma CheckName(host: string, port: Option<nat>, v6: V6, text: string, lookup: Lookup, lib: V6Text)
    requires ':' !in host && host != "" && ParseIp(host, lib).None? && (port.Some? ==> 1 <= port.value <= 65535)
    requires text == if port.None? then host else host + [':'] + Print(port.value)
    requires lookup(host) == Some(IpV6(v6)) && !IsBlockedV6(v6)
    requires ':' in lib.render(v6) && lib.parse(lib.render(v6)) == Some(v6)
    ensures Check(text, lookup, lib) == Ok(Target(IpV6(v6), port))
  {
    SplitFormatted(host, port, text);
    ColonIsNoQuad(lib.render(v6));
    if port.Some? {
      PrintedPort(port.value);
    }
  }

  /**
    Such targets do pass validation: a name whose answer is an allowed IPv6 address, with or
    without a port. What is then dialled is not that address.
   */
  lemma ValidatedV6IsNotDialled(host: string, port: Option<nat>, v6: V6, text: string, lookup: Lookup, lib: V6Text,
                                defaultPort: nat)
    requires ':' !in host && host != "" && ParseIp(host, lib).None? && (port.Some? ==> 1 <= port.value <= 65535)
    requires text == if port.None? then host else host + [':'] + Print(port.value)
    requires lookup(host) == Some(IpV6(v6)) && !IsBlockedV6(v6)
    requires ':' in lib.render(v6) && lib.parse(lib.render(v6)) == Some(v6)
    ensures var out := Format(Target(IpV6(v6), port), lib);
            Validate(text, lookup, lib) == Ok(out) && ParseEndpoint(out, defaultPort).0 != lib.render(v6)
  {
    CheckName(host, port, v6, text, lookup, lib);
    DialsCheckedAddress(Target(IpV6(v6), port), defaultPort, lib);
  }
}
