/**
  Endpoint validation case by case, for every text a resolver may name: what is wrong with it, or
  which address and port it stands for.
 */
module EndpointCases {
  import opened Wrappers
  import opened Text
  import opened Address
  import opened Endpoint

  /** A host, and a port if there is a colon. */
  function HostPort(host: string, port: Option<string>): string {
    if port.None? then host else host + [':'] + port.value
  }

  lemma HostPortSplits(host: string, port: Option<string>)
    requires ':' !in host && (port.Some? ==> ':' !in port.value)
    ensures Split(HostPort(host, port), ':') == if port.None? then [host] else [host, port.value]
  {
    if port.None? {
      SplitOnce(host, ':', "");
    } else {
      SplitOnce(host, ':', port.value);
      SplitOnce(port.value, ':', "");
    }
  }

  /** The text is a numeral of this number. */
  ghost predicate ReadsAs(s: string, n: nat) {
    exists digits :: Numeral(s, digits) && Value(digits) == n
  }

  /** A port in 1..65535, or none where nothing is written. */
  ghost predicate IsPort(port: Option<string>, n: Option<nat>) {
    if port.None? || port.value == "" then n == None
    else n.Some? && 1 <= n.value <= 65535 && ReadsAs(port.value, n.value)
  }

  lemma PortIsRead(port: Option<string>, n: Option<nat>)
    requires IsPort(port, n)
    ensures ParsePort(if port.None? then "" else port.value) == Ok(n)
  {
    if port.Some? && port.value != "" {
      ParseUnsignedMeans(port.value, 65535, n.value);
    }
  }

  /** Anything else after the colon is refused. */
  lemma BadPortIsRefused(host: string, port: string, lookup: Lookup, lib: V6Text)
    requires ':' !in host && ':' !in port && (forall n :: !IsPort(Some(port), n))
    ensures Check(HostPort(host, Some(port)), lookup, lib) == Err(BadPort)
  {
    HostPortSplits(host, Some(port));
    assert !IsPort(Some(port), None);
    match ParseUnsigned(port, 65535)
    case None =>
    case Some(n) =>
      ParseUnsignedMeans(port, 65535, n);
      assert !IsPort(Some(port), Some(n));
  }

  /** So is a text with more than one colon. */
  lemma TwoColonsAreRefused(a: string, b: string, c: string, lookup: Lookup, lib: V6Text)
    requires ':' !in a && ':' !in b
    ensures Check(a + [':'] + (b + [':'] + c), lookup, lib) == Err(BadFormat)
  {
    SplitOnce(b, ':', c);
    SplitOnce(a, ':', b + [':'] + c);
  }

  /** What the checks say once the port is good: it depends on the address of the host. */
  function Judged(ip: Option<Ip>, port: Option<nat>): Result<Target, Error> {
    match ip
    case None => Err(Unresolvable)
    case Some(ip) => if IsBlocked(ip) then Err(Forbidden) else Ok(Target(ip, port))
  }

  lemma GoodPortIsJudged(host: string, port: Option<string>, n: Option<nat>, lookup: Lookup, lib: V6Text)
    requires ':' !in host && (port.Some? ==> ':' !in port.value) && IsPort(port, n)
    ensures Check(HostPort(host, port), lookup, lib) == Judged(ParseIp(Resolve(host, lookup, lib), lib), n)
  {
    HostPortSplits(host, port);
    PortIsRead(port, n);
  }

  /** A name, not empty and no literal: DNS decides. */
  predicate IsHostName(host: string, lib: V6Text) {
    ':' !in host && host != "" && ParseV4(host).None? && lib.parse(host).None?
  }

  /** What DNS answers is what is checked and dialled, whatever family it is. */
  predicate Renders(ip: Ip, lib: V6Text) {
    ip.IpV6? ==> ':' in lib.render(ip.v6) && lib.parse(lib.render(ip.v6)) == Some(ip.v6)
  }

  lemma RenderedIsParsed(ip: Ip, lib: V6Text)
    requires Renders(ip, lib)
    ensures ParseIp(PrintIp(ip, lib), lib) == Some(ip)
  {
    match ip
    case IpV4(v4) => ParsePrintV4(v4);
    case IpV6(v6) => ColonIsNoQuad(lib.render(v6));
  }

  /**
    A name with a good port or none: refused as unresolvable without a DNS answer, refused as
    forbidden when the answer is blocked, and otherwise standing for exactly that address and port.
   */
  lemma NameIsJudged(host: string, port: Option<string>, n: Option<nat>, lookup: Lookup, lib: V6Text)
    requires IsHostName(host, lib) && (port.Some? ==> ':' !in port.value) && IsPort(port, n)
    requires lookup(host).Some? ==> Renders(lookup(host).value, lib)
    ensures Check(HostPort(host, port), lookup, lib) == Judged(lookup(host), n)
  {
    GoodPortIsJudged(host, port, n, lookup, lib);
    if lookup(host).Some? {
      RenderedIsParsed(lookup(host).value, lib);
    }
  }

  /** A literal stands for itself, and DNS is not asked. */
  lemma LiteralIsJudged(v4: V4, port: Option<string>, n: Option<nat>, lookup: Lookup, lib: V6Text)
    requires (port.Some? ==> ':' !in port.value) && IsPort(port, n)
    ensures Check(HostPort(PrintV4(v4), port), lookup, lib)
            == if IsBlockedV4(v4) then Err(Forbidden) else Ok(Target(IpV4(v4), n))
  {
    QuadHasNoColon(v4);
    ParsePrintV4(v4);
    GoodPortIsJudged(PrintV4(v4), port, n, lookup, lib);
  }

  /** A name with an IPv4 answer is dialled at that address, on its port or the default one. */
  lemma NameIsDialled(host: string, port: Option<string>, n: Option<nat>, v4: V4, lookup: Lookup, lib: V6Text, defaultPort: nat)
    requires IsHostName(host, lib) && (port.Some? ==> ':' !in port.value) && IsPort(port, n)
    requires lookup(host) == Some(IpV4(v4)) && !IsBlockedV4(v4)
    ensures Validate(HostPort(host, port), lookup, lib).Ok?
    ensures ParseEndpoint(Validate(HostPort(host, port), lookup, lib).value, defaultPort)
            == (PrintV4(v4), if n.Some? then n.value else defaultPort)
  {
    NameIsJudged(host, port, n, lookup, lib);
    ParseFormatted(v4, n, defaultPort, lib);
  }

  /** What is dialled for any text: the part before the first colon, and the port behind it if it is a number. */
  lemma EndpointParts(host: string, port: Option<string>, defaultPort: nat)
    requires ':' !in host
    ensures ParseEndpoint(HostPort(host, port), defaultPort).0 == host
    ensures port.None? || port.value == "" ==> ParseEndpoint(HostPort(host, port), defaultPort).1 == defaultPort
    ensures forall n :: port.Some? && n <= 65535 && ReadsAs(port.value, n) ==>
                          ParseEndpoint(HostPort(host, port), defaultPort).1 == n
    ensures port.Some? && (forall n :: n <= 65535 ==> !ReadsAs(port.value, n)) ==>
              ParseEndpoint(HostPort(host, port), defaultPort).1 == defaultPort
  {
    if port.Some? {
      IndexOfFirst(host, ':', port.value);
      assert HostPort(host, port)[..|host|] == host && HostPort(host, port)[|host| + 1..] == port.value;
      forall n: nat | n <= 65535
        ensures ParseUnsigned(port.value, 65535) == Some(n) <==> ReadsAs(port.value, n)
      {
        ParseUnsignedMeans(port.value, 65535, n);
      }
    }
  }
}
