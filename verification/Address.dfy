/**
  IP addresses: the blocked ranges, tested by octets and segments in Rust and by numeric
  ranges in PHP, and the dotted-quad text form.
 */
module Address {
  import opened Bytes
  import opened Wrappers
  import opened Text

  datatype V4 = V4(a: Byte, b: Byte, c: Byte, d: Byte)

  /** The eight 16-bit segments of an address. */
  datatype V6 = V6(s0: bv16, s1: bv16, s2: bv16, s3: bv16, s4: bv16, s5: bv16, s6: bv16, s7: bv16)

  datatype Ip = IpV4(v4: V4) | IpV6(v6: V6)

  // ---------------------------------------------------------------- IPv4 ranges

  function Long(ip: V4): int {
    ((ip.a as int * 256 + ip.b) * 256 + ip.c) * 256 + ip.d
  }

  /** The octet test. */
  predicate IsBlockedV4(ip: V4) {
    if ip.a == 10 then true
    else if ip.a == 172 && 16 <= ip.b <= 31 then true
    else if ip.a == 192 && ip.b == 168 then true
    else if ip.a == 127 then true
    else if ip.a == 169 && ip.b == 254 then true
    else if ip.a >= 224 then true
    else if ip.a == 0 then true
    else false
  }

  /** The range table: first and last address. */
  const BLOCKED_RANGES: seq<(V4, V4)> := [
    (V4(10, 0, 0, 0), V4(10, 255, 255, 255)),
    (V4(172, 16, 0, 0), V4(172, 31, 255, 255)),
    (V4(192, 168, 0, 0), V4(192, 168, 255, 255)),
    (V4(127, 0, 0, 0), V4(127, 255, 255, 255)),
    (V4(169, 254, 0, 0), V4(169, 254, 255, 255)),
    (V4(224, 0, 0, 0), V4(239, 255, 255, 255)),
    (V4(240, 0, 0, 0), V4(255, 255, 255, 255)),
    (V4(0, 0, 0, 0), V4(0, 255, 255, 255))]

  predicate InRange(ip: V4, range: (V4, V4)) {
    Long(range.0) <= Long(ip) <= Long(range.1)
  }

  predicate InRanges(ip: V4, ranges: seq<(V4, V4)>) {
    exists i :: 0 <= i < |ranges| && InRange(ip, ranges[i])
  }

  /** For every address the octet test equals membership in the table's numeric ranges. */
  lemma RangesMatchOctets(ip: V4)
    ensures InRanges(ip, BLOCKED_RANGES) <==> IsBlockedV4(ip)
  {
    if IsBlockedV4(ip) {
      var i := if ip.a == 10 then 0 else if ip.a == 172 then 1 else if ip.a == 192 then 2 else if ip.a == 127 then 3
               else if ip.a == 169 then 4 else if ip.a >= 240 then 6 else if ip.a >= 224 then 5 else 7;
      assert InRange(ip, BLOCKED_RANGES[i]);
    }
  }

  /** The table lookup as PHP runs it. */
  method PhpIsBlocked(ip: V4) returns (blocked: bool)
    ensures blocked == IsBlockedV4(ip)
  {
    RangesMatchOctets(ip);
    for i := 0 to |BLOCKED_RANGES|
      invariant forall j :: 0 <= j < i ==> !InRange(ip, BLOCKED_RANGES[j])
    {
      if InRange(ip, BLOCKED_RANGES[i]) {
        return true;
      }
    }
    return false;
  }

  // ---------------------------------------------------------------- IPv6 ranges

  /** The address as a 128-bit number. */
  function Number(v: V6): bv128 {
    ((v.s0 as bv128) << 112) | ((v.s1 as bv128) << 96) | ((v.s2 as bv128) << 80) | ((v.s3 as bv128) << 64)
    | ((v.s4 as bv128) << 48) | ((v.s5 as bv128) << 32) | ((v.s6 as bv128) << 16) | (v.s7 as bv128)
  }

  predicate IsMapped(v: V6) {
    v.s0 == 0 && v.s1 == 0 && v.s2 == 0 && v.s3 == 0 && v.s4 == 0 && v.s5 == 0xffff
  }

  /** The segment test. */
  predicate IsBlockedV6(v: V6) {
    if v == V6(0, 0, 0, 0, 0, 0, 0, 1) then true
    else if v.s0 & 0xffc0 == 0xfe80 then true
    else if v.s0 & 0xfe00 == 0xfc00 then true
    else if IsMapped(v) then true
    else false
  }

  /** The loopback address, and the ranges fe80::/10, fc00::/7 and ::ffff:0:0/96 by first and last address. */
  predicate InBlockedV6Ranges(n: bv128) {
    || n == 1
    || 0xfe80_0000_0000_0000_0000_0000_0000_0000 <= n <= 0xfebf_ffff_ffff_ffff_ffff_ffff_ffff_ffff
    || 0xfc00_0000_0000_0000_0000_0000_0000_0000 <= n <= 0xfdff_ffff_ffff_ffff_ffff_ffff_ffff_ffff
    || 0xffff_0000_0000 <= n <= 0xffff_ffff_ffff
  }

  lemma LoopbackNumber(v: V6)
    ensures v == V6(0, 0, 0, 0, 0, 0, 0, 1) <==> Number(v) == 1
  {
  }

  lemma LinkLocalRange(v: V6)
    ensures v.s0 & 0xffc0 == 0xfe80 <==>
            0xfe80_0000_0000_0000_0000_0000_0000_0000 <= Number(v) <= 0xfebf_ffff_ffff_ffff_ffff_ffff_ffff_ffff
  {
  }

  lemma UniqueLocalRange(v: V6)
    ensures v.s0 & 0xfe00 == 0xfc00 <==>
            0xfc00_0000_0000_0000_0000_0000_0000_0000 <= Number(v) <= 0xfdff_ffff_ffff_ffff_ffff_ffff_ffff_ffff
  {
  }

  lemma MappedRange(v: V6)
    ensures IsMapped(v) <==> 0xffff_0000_0000 <= Number(v) <= 0xffff_ffff_ffff
  {
  }

  /** For every address the segment-mask test equals membership in the numeric ranges. */
  lemma SegmentsMatchRanges(v: V6)
    ensures IsBlockedV6(v) <==> InBlockedV6Ranges(Number(v))
  {
    LoopbackNumber(v);
    LinkLocalRange(v);
    UniqueLocalRange(v);
    MappedRange(v);
  }

  predicate IsBlocked(ip: Ip) {
    match ip
    case IpV4(v4) => IsBlockedV4(v4)
    case IpV6(v6) => IsBlockedV6(v6)
  }

  // ---------------------------------------------------------------- dotted quads

  function PrintV4(ip: V4): string {
    Print(ip.a) + ['.'] + (Print(ip.b) + ['.'] + (Print(ip.c) + ['.'] + Print(ip.d)))
  }

  /** One to three digits without a superfluous zero, at most 255. */
  predicate IsOctet(s: string) {
    1 <= |s| <= 3 && AllDigits(s) && (|s| > 1 ==> s[0] != '0') && Value(s) <= 255
  }

  function ParseV4(s: string): Option<V4> {
    var parts := Split(s, '.');
    if |parts| == 4 && IsOctet(parts[0]) && IsOctet(parts[1]) && IsOctet(parts[2]) && IsOctet(parts[3])
    then Some(V4(Value(parts[0]), Value(parts[1]), Value(parts[2]), Value(parts[3])))
    else None
  }

  lemma PrintIsOctet(n: Byte)
    ensures IsOctet(Print(n)) && Value(Print(n)) == n
    ensures '.' !in Print(n) && ':' !in Print(n)
  {
    PrintLength(n);
  }

  lemma PrintLength(n: nat)
    ensures n < 1000 ==> |Print(n)| <= 3
  {
    if 10 <= n < 1000 {
      assert |Print(n)| == |Print(n / 10)| + 1;
    }
  }

  lemma SplitTwo(c: string, d: string)
    requires '.' !in c && '.' !in d
    ensures Split(c + ['.'] + d, '.') == [c, d]
  {
    SplitOnce(c, '.', d);
    SplitOnce(d, '.', d);
  }

  lemma SplitQuad(a: string, b: string, c: string, d: string)
    requires '.' !in a && '.' !in b && '.' !in c && '.' !in d
    ensures Split(a + ['.'] + (b + ['.'] + (c + ['.'] + d)), '.') == [a] + ([b] + [c, d])
  {
    SplitTwo(c, d);
    SplitOnce(b, '.', c + ['.'] + d);
    SplitOnce(a, '.', b + ['.'] + (c + ['.'] + d));
  }

  lemma ParsePrintV4(ip: V4)
    ensures ParseV4(PrintV4(ip)) == Some(ip)
  {
    PrintIsOctet(ip.a);
    PrintIsOctet(ip.b);
    PrintIsOctet(ip.c);
    PrintIsOctet(ip.d);
    SplitQuad(Print(ip.a), Print(ip.b), Print(ip.c), Print(ip.d));
  }

  lemma QuadHasNoColon(ip: V4)
    ensures ':' !in PrintV4(ip) && PrintV4(ip) != ""
  {
    PrintIsOctet(ip.a);
    PrintIsOctet(ip.b);
    PrintIsOctet(ip.c);
    PrintIsOctet(ip.d);
  }

  /** Only the canonical text of an address parses to it. */
  lemma PrintParseV4(s: string)
    requires ParseV4(s).Some?
    ensures PrintV4(ParseV4(s).value) == s
  {
    var parts := Split(s, '.');
    var bcd := SplitHead(s, '.');
    var cd := SplitHead(bcd, '.');
    var d := SplitHead(cd, '.');
    SplitLast(d, '.');
    PrintValue(parts[0]);
    PrintValue(parts[1]);
    PrintValue(parts[2]);
    PrintValue(parts[3]);
  }

  /** The four numbers in their order, with dots between them. */
  lemma DottedQuad(ip: V4)
    ensures PrintV4(ip) == Print(ip.a) + "." + Print(ip.b) + "." + Print(ip.c) + "." + Print(ip.d)
  {
  }

  /** And back: each part is the octet at its place. */
  lemma QuadParts(text: string, a: string, b: string, c: string, d: string)
    requires IsOctet(a) && IsOctet(b) && IsOctet(c) && IsOctet(d)
    requires text == a + "." + b + "." + c + "." + d
    ensures ParseV4(text) == Some(V4(Value(a), Value(b), Value(c), Value(d)))
  {
    var parts := [a] + ([b] + [c, d]);
    assert Split(text, '.') == parts by {
      DigitsHaveNoDot(a);
      DigitsHaveNoDot(b);
      DigitsHaveNoDot(c);
      DigitsHaveNoDot(d);
      Regroup(text, a, b, c, d);
      SplitQuad(a, b, c, d);
    }
    PartsAreParsed(text, parts);
  }

  lemma PartsAreParsed(text: string, parts: seq<string>)
    requires Split(text, '.') == parts && |parts| == 4
    requires IsOctet(parts[0]) && IsOctet(parts[1]) && IsOctet(parts[2]) && IsOctet(parts[3])
    ensures ParseV4(text) == Some(V4(Value(parts[0]), Value(parts[1]), Value(parts[2]), Value(parts[3])))
  {
  }

  lemma Regroup(text: string, a: string, b: string, c: string, d: string)
    requires text == a + "." + b + "." + c + "." + d
    ensures text == a + ['.'] + (b + ['.'] + (c + ['.'] + d))
  {
  }

  lemma DigitsHaveNoDot(s: string)
    requires AllDigits(s)
    ensures '.' !in s
  {
  }
}
