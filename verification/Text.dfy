/**
  Text as the Rust standard library sees it: a `string` is a sequence of Unicode scalar
  values, decoded from UTF-8 bytes. Numbers are parsed and printed in decimal.
 */
module Text {
  import opened Bytes
  import opened Wrappers

  // ---------------------------------------------------------------- UTF-8

  predicate Continuation(b: Byte) {
    0x80 <= b <= 0xBF
  }

  /** Length of the well-formed UTF-8 sequence at the start of `s`, or 0. */
  function SequenceLength(s: seq<Byte>): (n: nat)
    ensures n <= 4 && n <= |s|
  {
    if s == [] then 0
    else if s[0] < 0x80 then 1
    else if |s| >= 2 && 0xC2 <= s[0] <= 0xDF && Continuation(s[1]) then 2
    else if |s| >= 3 && 0xE0 <= s[0] <= 0xEF && Continuation(s[1]) && Continuation(s[2])
            && (s[0] == 0xE0 ==> s[1] >= 0xA0) && (s[0] == 0xED ==> s[1] <= 0x9F) then 3
    else if |s| >= 4 && 0xF0 <= s[0] <= 0xF4 && Continuation(s[1]) && Continuation(s[2]) && Continuation(s[3])
            && (s[0] == 0xF0 ==> s[1] >= 0x90) && (s[0] == 0xF4 ==> s[1] <= 0x8F) then 4
    else 0
  }

  function FirstChar(s: seq<Byte>): char
    requires SequenceLength(s) > 0
  {
    var n := SequenceLength(s);
    var b0: int := s[0];
    if n == 1 then b0 as char
    else if n == 2 then ((b0 - 0xC0) * 64 + Low6(s[1])) as char
    else if n == 3 then ((b0 - 0xE0) * 4096 + Low6(s[1]) * 64 + Low6(s[2])) as char
    else ((b0 - 0xF0) * 262144 + Low6(s[1]) * 4096 + Low6(s[2]) * 64 + Low6(s[3])) as char
  }

  function Low6(b: Byte): (n: int)
    requires Continuation(b)
    ensures 0 <= n < 64
  {
    b - 0x80
  }

  /** `std::str::from_utf8`. */
  function FromUtf8(s: seq<Byte>): (r: Option<string>)
    decreases |s|
  {
    if s == [] then Some("")
    else
      var n := SequenceLength(s);
      if n == 0 then None
      else
        var rest := FromUtf8(s[n..]);
        if rest.None? then None else Some([FirstChar(s)] + rest.value)
  }

  predicate Ascii(s: seq<Byte>) {
    forall i :: 0 <= i < |s| ==> s[i] < 128
  }

  function Chars(s: seq<Byte>): (r: string)
    requires Ascii(s)
    ensures |r| == |s| && forall i :: 0 <= i < |r| ==> r[i] == s[i] as char
  {
    seq(|s|, i requires 0 <= i < |s| => s[i] as char)
  }

  /** ASCII decodes to itself. */
  lemma {:induction false} AsciiDecodes(s: seq<Byte>)
    requires Ascii(s)
    ensures FromUtf8(s) == Some(Chars(s))
  {
    if s != [] {
      AsciiDecodes(s[1..]);
      assert Chars(s) == [s[0] as char] + Chars(s[1..]);
    }
  }

  /** Bytes a character takes in UTF-8. */
  function CharBytes(c: char): nat {
    if c < '\U{80}' then 1 else if c < '\U{800}' then 2 else if c < '\U{10000}' then 3 else 4
  }

  /** `str::len`: the length in bytes. */
  function ByteLength(s: string): nat {
    if s == "" then 0 else CharBytes(s[0]) + ByteLength(s[1..])
  }

  // ---------------------------------------------------------------- words

  /** `char::is_whitespace`: the Unicode White_Space property. */
  predicate IsWhitespace(c: char) {
    || '\U{9}' <= c <= '\U{D}' || c == ' ' || c == '\U{85}' || c == '\U{A0}' || c == '\U{1680}'
    || '\U{2000}' <= c <= '\U{200A}' || c == '\U{2028}' || c == '\U{2029}' || c == '\U{202F}'
    || c == '\U{205F}' || c == '\U{3000}'
  }

  /** The twenty-five code points with that property. */
  lemma WhitespaceCodes(c: char)
    ensures IsWhitespace(c) <==>
            var n := c as int;
            9 <= n <= 13 || n == 32 || n == 133 || n == 160 || n == 5760 || 8192 <= n <= 8202
            || n == 8232 || n == 8233 || n == 8239 || n == 8287 || n == 12288
  {
  }

  function TrimTextStart(s: string): string {
    if s != "" && IsWhitespace(s[0]) then TrimTextStart(s[1..]) else s
  }

  function TrimTextEnd(s: string): string {
    if s != "" && IsWhitespace(s[|s| - 1]) then TrimTextEnd(s[..|s| - 1]) else s
  }

  /** `str::trim`. */
  function TrimText(s: string): string {
    TrimTextEnd(TrimTextStart(s))
  }

  /** The longest prefix without whitespace. */
  function Word(s: string): (w: string)
    ensures |w| <= |s| && w == s[..|w|]
    ensures forall i :: 0 <= i < |w| ==> !IsWhitespace(w[i])
    ensures |w| < |s| ==> IsWhitespace(s[|w|])
  {
    if s == "" || IsWhitespace(s[0]) then "" else [s[0]] + Word(s[1..])
  }

  predicate BlankText(s: string) {
    forall i :: 0 <= i < |s| ==> IsWhitespace(s[i])
  }

  predicate OneWord(s: string) {
    s != "" && forall i :: 0 <= i < |s| ==> !IsWhitespace(s[i])
  }

  lemma {:induction false} WordFinds(word: string, rest: string)
    requires forall i :: 0 <= i < |word| ==> !IsWhitespace(word[i])
    requires rest != "" ==> IsWhitespace(rest[0])
    ensures Word(word + rest) == word
  {
    if word == "" {
      assert word + rest == rest;
    } else {
      WordFinds(word[1..], rest);
      assert (word + rest)[1..] == word[1..] + rest;
    }
  }

  lemma {:induction false} TextStartFinds(gap: string, rest: string)
    requires BlankText(gap) && (rest != "" ==> !IsWhitespace(rest[0]))
    ensures TrimTextStart(gap + rest) == rest
  {
    if gap == "" {
      assert gap + rest == rest;
    } else {
      TextStartFinds(gap[1..], rest);
      assert (gap + rest)[1..] == gap[1..] + rest;
    }
  }

  // ---------------------------------------------------------------- splitting

  function IndexOf(s: string, c: char): (r: Option<nat>)
    ensures r.Some? ==> r.value < |s| && s[r.value] == c && c !in s[..r.value]
    ensures r.None? <==> c !in s
  {
    if s == "" then None
    else if s[0] == c then Some(0)
    else
      var rest := IndexOf(s[1..], c);
      if rest.None? then None else Some(rest.value + 1)
  }

  /** `str::split(c)`: always at least one piece. */
  function Split(s: string, c: char): (r: seq<string>)
    ensures |r| >= 1
    decreases |s|
  {
    var i := IndexOf(s, c);
    if i.None? then [s] else [s[..i.value]] + Split(s[i.value + 1..], c)
  }

  lemma {:induction false} IndexOfFirst(a: string, c: char, b: string)
    requires c !in a
    ensures IndexOf(a + [c] + b, c) == Some(|a|)
  {
    if a != "" {
      IndexOfFirst(a[1..], c, b);
      assert (a + [c] + b)[1..] == a[1..] + [c] + b;
    }
  }

  /** A piece without the separator, then the separator, then the rest. */
  lemma SplitOnce(a: string, c: char, b: string)
    requires c !in a
    ensures Split(a + [c] + b, c) == [a] + Split(b, c)
    ensures Split(a, c) == [a]
  {
    IndexOfFirst(a, c, b);
    assert (a + [c] + b)[..|a|] == a && (a + [c] + b)[|a| + 1..] == b;
  }

  /** Splitting takes the text apart at the first separator, and nothing is lost. */
  lemma SplitHead(s: string, c: char) returns (rest: string)
    requires |Split(s, c)| > 1
    ensures s == Split(s, c)[0] + [c] + rest && Split(rest, c) == Split(s, c)[1..]
  {
    rest := s[IndexOf(s, c).value + 1..];
  }

  lemma SplitLast(s: string, c: char)
    requires |Split(s, c)| == 1
    ensures Split(s, c) == [s] && c !in s
  {
  }

  // ---------------------------------------------------------------- decimal numbers

  predicate IsDigit(c: char) {
    '0' <= c <= '9'
  }

  predicate AllDigits(s: string) {
    forall i :: 0 <= i < |s| ==> IsDigit(s[i])
  }

  function Digit(c: char): (d: nat)
    requires IsDigit(c)
    ensures d < 10
  {
    c as int - '0' as int
  }

  function Value(s: string): nat
    requires AllDigits(s)
  {
    if s == "" then 0 else 10 * Value(s[..|s| - 1]) + Digit(s[|s| - 1])
  }

  /** `str::parse` for an unsigned type whose largest value is `max`: one leading `+` is allowed. */
  function ParseUnsigned(s: string, max: nat): (r: Option<nat>)
    ensures r.Some? ==> r.value <= max
  {
    var digits := if |s| > 1 && s[0] == '+' then s[1..] else s;
    if digits == "" || !AllDigits(digits) || Value(digits) > max then None else Some(Value(digits))
  }

  /** Decimal rendering without leading zeros. */
  function Print(n: nat): (s: string)
    ensures s != "" && AllDigits(s) && Value(s) == n
    ensures n >= 10 ==> s[0] != '0' && |s| > 1
    ensures n < 10 ==> |s| == 1
  {
    var last := [(n % 10 + '0' as int) as char];
    if n < 10 then last
    else
      var front := Print(n / 10);
      assert (front + last)[..|front|] == front;
      front + last
  }

  lemma ParsePrint(n: nat, max: nat)
    requires n <= max
    ensures ParseUnsigned(Print(n), max) == Some(n)
  {
    assert IsDigit(Print(n)[0]);
  }

  /** Digits without a superfluous leading zero are the rendering of their value. */
  lemma {:induction false} PrintValue(s: string)
    requires s != "" && AllDigits(s) && (|s| > 1 ==> s[0] != '0')
    ensures Print(Value(s)) == s
    ensures |s| > 1 ==> Value(s) >= 10
    ensures s[0] != '0' ==> Value(s) >= 1
  {
    var front, last := s[..|s| - 1], s[|s| - 1];
    assert s == front + [last];
    PrintDigit(last);
    if front != "" {
      PrintValue(front);
      PrintStep(Value(front), last);
    }
  }

  lemma PrintDigit(c: char)
    requires IsDigit(c)
    ensures Print(Digit(c)) == [c]
  {
  }

  lemma PrintStep(n: nat, c: char)
    requires n >= 1 && IsDigit(c)
    ensures Print(10 * n + Digit(c)) == Print(n) + [c]
  {
    assert (10 * n + Digit(c)) / 10 == n && (10 * n + Digit(c)) % 10 == Digit(c);
  }

  function Pow10(k: nat): nat {
    if k == 0 then 1 else 10 * Pow10(k - 1)
  }

  /** The ten digits have the values zero to nine. */
  lemma DigitValues(d: nat)
    requires d < 10
    ensures var c := "0123456789"[d];
            IsDigit(c) && AllDigits([c]) && Value([c]) == d
  {
    var c := "0123456789"[d];
    assert c as int == 48 + d;
    assert [c][..0] == "" && Value("") == 0;
  }

  /** Each place counts ten times the next. */
  lemma {:induction false} DecimalPlaces(a: string, b: string)
    requires AllDigits(a) && AllDigits(b)
    ensures AllDigits(a + b) && Value(a + b) == Value(a) * Pow10(|b|) + Value(b)
    decreases |b|
  {
    if b == "" {
      assert a + b == a;
    } else {
      var front, last := b[..|b| - 1], b[|b| - 1];
      DecimalPlaces(a, front);
      assert (a + b)[..|a + b| - 1] == a + front && (a + b)[|a + b| - 1] == last;
      Distribute(Value(a), Pow10(|front|), Value(front), Digit(last));
    }
  }

  lemma Distribute(v: nat, p: nat, w: nat, d: nat)
    ensures 10 * (v * p + w) + d == v * (10 * p) + (10 * w + d)
  {
  }

  /** Digits, at least one, after at most one plus sign. */
  predicate Numeral(s: string, digits: string) {
    digits != "" && AllDigits(digits) && (s == digits || s == "+" + digits)
  }

  /** A number is read if and only if the text is a numeral of it and it is not too large. */
  lemma ParseUnsignedMeans(s: string, max: nat, n: nat)
    ensures ParseUnsigned(s, max) == Some(n) <==> n <= max && exists digits :: Numeral(s, digits) && Value(digits) == n
  {
    if ParseUnsigned(s, max) == Some(n) {
      var digits := if |s| > 1 && s[0] == '+' then s[1..] else s;
      assert Numeral(s, digits);
    }
    forall digits | Numeral(s, digits)
      ensures ParseUnsigned(s, max) == if Value(digits) <= max then Some(Value(digits)) else None
    {
      if s == digits {
        assert IsDigit(s[0]);
      } else {
        assert s[1..] == digits;
      }
    }
  }
}
