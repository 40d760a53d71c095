/** Bytes on the wire, as every server of the proxy reads and writes them. */
module Bytes {

  type Byte = x: int | 0 <= x < 256

  const LF: Byte := 10
  const CR: Byte := 13
  const DOT: Byte := 46

  /** How a write ended: everything, or an error after some prefix. */
  datatype Written = All | Partial(n: nat)

  /** What of `data` a write that ended so has put on the wire. */
  function SentPart(data: seq<Byte>, w: Written): (r: seq<Byte>)
    ensures r <= data
  {
    match w
    case All => data
    case Partial(n) => if n < |data| then data[..n] else data
  }

  predicate StartsWith(s: seq<Byte>, prefix: seq<Byte>) {
    prefix <= s
  }

  /** `u8::is_ascii_whitespace`: tab, line feed, form feed, carriage return, space. */
  predicate IsAsciiWhitespace(b: Byte) {
    b == 9 || b == LF || b == 12 || b == CR || b == 32
  }

  function ToUpper(b: Byte): Byte {
    if 97 <= b <= 122 then b - 32 else b
  }

  function Upper(s: seq<Byte>): (r: seq<Byte>)
    ensures |r| == |s|
  {
    seq(|s|, i requires 0 <= i < |s| => ToUpper(s[i]))
  }

  function TrimStart(s: seq<Byte>): (r: seq<Byte>)
    ensures |r| <= |s|
  {
    if s != [] && IsAsciiWhitespace(s[0]) then TrimStart(s[1..]) else s
  }

  function TrimEnd(s: seq<Byte>): (r: seq<Byte>)
    ensures |r| <= |s|
  {
    if s != [] && IsAsciiWhitespace(s[|s| - 1]) then TrimEnd(s[..|s| - 1]) else s
  }

  function Trim(s: seq<Byte>): (r: seq<Byte>)
    ensures |r| <= |s|
  {
    TrimEnd(TrimStart(s))
  }

  predicate Blank(s: seq<Byte>) {
    forall i :: 0 <= i < |s| ==> IsAsciiWhitespace(s[i])
  }

  /** Two indices move inwards over whitespace. */
  method TrimAscii(bytes: seq<Byte>) returns (r: seq<Byte>)
    ensures r == Trim(bytes)
  {
    var start, end := 0, |bytes|;
    ghost var inner := TrimStart(bytes);
    while start < end && IsAsciiWhitespace(bytes[start])
      invariant 0 <= start <= end
      invariant inner == TrimStart(bytes[start..])
    {
      TrimStartStep(bytes, start);
      start := start + 1;
    }
    if start < end {
      assert bytes[start..][0] == bytes[start];
    }
    assert inner == bytes[start..end];
    ghost var result := TrimEnd(inner);
    while end > start && IsAsciiWhitespace(bytes[end - 1])
      invariant start <= end <= |bytes|
      invariant result == TrimEnd(bytes[start..end])
    {
      TrimEndStep(bytes, start, end);
      end := end - 1;
    }
    return bytes[start..end];
  }

  lemma TrimStartStep(bytes: seq<Byte>, start: nat)
    requires start < |bytes| && IsAsciiWhitespace(bytes[start])
    ensures TrimStart(bytes[start..]) == TrimStart(bytes[start + 1..])
  {
    assert bytes[start..][1..] == bytes[start + 1..];
  }

  lemma TrimEndStep(bytes: seq<Byte>, start: nat, end: nat)
    requires start < end <= |bytes| && IsAsciiWhitespace(bytes[end - 1])
    ensures TrimEnd(bytes[start..end]) == TrimEnd(bytes[start..end - 1])
  {
    assert bytes[start..end][..end - start - 1] == bytes[start..end - 1];
  }

  lemma {:induction false} TrimStartSplits(s: seq<Byte>)
    ensures var r := TrimStart(s);
            && s == s[..|s| - |r|] + r && Blank(s[..|s| - |r|])
            && (r != [] ==> !IsAsciiWhitespace(r[0]))
  {
    if s != [] && IsAsciiWhitespace(s[0]) {
      TrimStartSplits(s[1..]);
      assert s[..|s| - |TrimStart(s)|] == [s[0]] + s[1..][..|s| - 1 - |TrimStart(s)|];
    }
  }

  lemma {:induction false} TrimEndSplits(s: seq<Byte>)
    ensures var r := TrimEnd(s);
            && s == r + s[|r|..] && Blank(s[|r|..])
            && (r != [] ==> !IsAsciiWhitespace(r[|r| - 1]))
  {
    if s != [] && IsAsciiWhitespace(s[|s| - 1]) {
      TrimEndSplits(s[..|s| - 1]);
      assert s[|TrimEnd(s)|..] == s[..|s| - 1][|TrimEnd(s)|..] + [s[|s| - 1]];
    }
  }

  /** The trimmed slice is what is left between two runs of whitespace, and has none at its ends. */
  lemma TrimSplits(s: seq<Byte>) returns (before: seq<Byte>, after: seq<Byte>)
    ensures s == before + Trim(s) + after && Blank(before) && Blank(after)
    ensures Trim(s) != [] ==> !IsAsciiWhitespace(Trim(s)[0]) && !IsAsciiWhitespace(Trim(s)[|Trim(s)| - 1])
  {
    var inner := TrimStart(s);
    TrimStartSplits(s);
    TrimEndSplits(inner);
    before, after := s[..|s| - |inner|], inner[|Trim(s)|..];
  }
}
