/**
  The raw HTTP response reader: bytes are collected until the first CR LF CR LF, the head is
  parsed, and the body is read up to `Content-Length`.

  The backend connection is a byte stream that ends, together with a schedule that says how
  many bytes each read returns at most; a schedule entry of 0 is a read that fails or times out.
 */
module RawHttp {
  import opened Bytes
  import opened Wrappers
  import opened Text

  const CRLF2: seq<Byte> := [13, 10, 13, 10]
  const READ_CAP: nat := 8192
  const USIZE_MAX: nat := 0xFFFF_FFFF_FFFF_FFFF

  type Schedule = nat -> nat

  datatype Error = ClosedBeforeHeaders | ReadFailed | NonUtf8Header | ClosedMidBody | BadHeader

  datatype Head = Head(status: nat, headers: seq<(string, string)>, length: Option<nat>, chunked: bool)

  datatype Reply = Response(status: nat, headers: seq<(string, string)>, body: seq<Byte>) | Failure(error: Error)

  // ---------------------------------------------------------------- searching

  predicate Occurs(hay: seq<Byte>, needle: seq<Byte>, i: nat) {
    i + |needle| <= |hay| && hay[i..i + |needle|] == needle
  }

  /** `windows(n).position(..)` */
  function FindFrom(hay: seq<Byte>, needle: seq<Byte>, i: nat): (r: Option<nat>)
    ensures r.Some? ==> r.value + |needle| <= |hay|
    decreases |hay| - i
  {
    if i + |needle| > |hay| then None
    else if hay[i..i + |needle|] == needle then Some(i)
    else FindFrom(hay, needle, i + 1)
  }

  function FindSubslice(hay: seq<Byte>, needle: seq<Byte>): (r: Option<nat>)
    ensures r.Some? ==> r.value + |needle| <= |hay|
  {
    FindFrom(hay, needle, 0)
  }

  /** The search returns the first occurrence, and fails only when there is none. */
  lemma {:induction false} FindIsFirst(hay: seq<Byte>, needle: seq<Byte>, i: nat)
    ensures match FindFrom(hay, needle, i)
            case None => forall j :: i <= j ==> !Occurs(hay, needle, j)
            case Some(at) => i <= at && Occurs(hay, needle, at) && forall j :: i <= j < at ==> !Occurs(hay, needle, j)
    decreases |hay| - i
  {
    if i + |needle| <= |hay| && hay[i..i + |needle|] != needle {
      FindIsFirst(hay, needle, i + 1);
    }
  }

  /** The first match never moves when the buffer grows: it is found as soon as it is complete. */
  lemma FirstMatchStable(stream: seq<Byte>, needle: seq<Byte>, pos: nat)
    requires pos <= |stream|
    ensures FindSubslice(stream[..pos], needle)
            == match FindSubslice(stream, needle)
               case None => None
               case Some(i) => if i + |needle| <= pos then Some(i) else None
  {
    FindIsFirst(stream, needle, 0);
    FindIsFirst(stream[..pos], needle, 0);
    forall j: nat
      ensures Occurs(stream[..pos], needle, j) <==> Occurs(stream, needle, j) && j + |needle| <= pos
    {
      OccursInPrefix(stream, needle, pos, j);
    }
  }

  lemma OccursInPrefix(stream: seq<Byte>, needle: seq<Byte>, pos: nat, j: nat)
    requires pos <= |stream|
    ensures Occurs(stream[..pos], needle, j) <==> Occurs(stream, needle, j) && j + |needle| <= pos
  {
    if j + |needle| <= pos {
      SliceOfPrefix(stream, pos, j, j + |needle|);
    }
  }

  lemma SliceOfPrefix(stream: seq<Byte>, pos: nat, i: nat, k: nat)
    requires i <= k <= pos <= |stream|
    ensures stream[..pos][i..k] == stream[i..k]
  {
  }

  // ---------------------------------------------------------------- the head

  /** `str::split("\r\n")` */
  function SplitLines(s: string): (r: seq<string>)
    ensures |r| >= 1
    decreases |s|
  {
    match IndexOfCrlf(s)
    case None => [s]
    case Some(i) => [s[..i]] + SplitLines(s[i + 2..])
  }

  function IndexOfCrlf(s: string): (r: Option<nat>)
    ensures r.Some? ==> r.value + 2 <= |s|
  {
    if |s| < 2 then None
    else if s[0] == '\r' && s[1] == '\n' then Some(0)
    else
      var rest := IndexOfCrlf(s[1..]);
      if rest.None? then None else Some(rest.value + 1)
  }

  /** The second whitespace-separated word, when it is a 16-bit number. */
  function ParseStatusLine(line: string): Option<nat> {
    var first := TrimTextStart(line);
    var second := TrimTextStart(first[|Word(first)|..]);
    if first == "" || second == "" then None else ParseUnsigned(Word(second), 65535)
  }

  /** A code outside 100..999 is not a status code. */
  function Status(statusLine: string, assumeOk: bool): (r: nat)
    ensures 100 <= r <= 999
  {
    var parsed := ParseStatusLine(statusLine);
    var code := if parsed.None? then 200 else parsed.value;
    if assumeOk || code < 100 || code > 999 then 200 else code
  }

  function AsciiLower(s: string): string {
    seq(|s|, i requires 0 <= i < |s| => if 'A' <= s[i] <= 'Z' then (s[i] as int + 32) as char else s[i])
  }

  const HOP_BY_HOP := {"connection", "keep-alive", "transfer-encoding", "content-length"}

  /** Name and value of a header line, trimmed. */
  function Field(line: string): Option<(string, string)> {
    match IndexOf(line, ':')
    case None => None
    case Some(i) => Some((TrimText(line[..i]), TrimText(line[i + 1..])))
  }

  function ApplyField(f: Option<(string, string)>, head: Head): Head {
    match f
    case None => head
    case Some((key, value)) =>
      var lower := AsciiLower(key);
      var framed :=
        if lower == "content-length" then head.(length := ParseUnsigned(value, USIZE_MAX))
        else if lower == "transfer-encoding" && AsciiLower(value) == "chunked" then head.(chunked := true)
        else head;
      if lower in HOP_BY_HOP then framed else framed.(headers := framed.headers + [(key, value)])
  }

  function ParseHeaders(lines: seq<string>, head: Head): Head {
    if lines == [] then head else ParseHeaders(lines[1..], ApplyField(Field(lines[0]), head))
  }

  /** The same letters as `word`, which is in lower case, each in either case. */
  predicate SameLetters(name: string, word: string) {
    |name| == |word| && forall i :: 0 <= i < |word| ==> SameLetter(name[i], word[i])
  }

  predicate SameLetter(c: char, d: char) {
    c == d || ('a' <= d <= 'z' && c as int + 32 == d as int)
  }

  predicate LowerCase(word: string) {
    forall i :: 0 <= i < |word| ==> !('A' <= word[i] <= 'Z')
  }

  lemma LoweredLetters(name: string)
    ensures SameLetters(name, AsciiLower(name))
  {
  }

  lemma SpellingIsLowered(name: string, word: string)
    requires LowerCase(word) && SameLetters(name, word)
    ensures AsciiLower(name) == word
  {
    forall i | 0 <= i < |word|
      ensures AsciiLower(name)[i] == word[i]
    {
      assert SameLetter(name[i], word[i]);
    }
  }

  /** Lowering finds exactly the spellings of a lower-case word. */
  lemma LowerIsSameLetters(name: string, word: string)
    requires LowerCase(word)
    ensures AsciiLower(name) == word <==> SameLetters(name, word)
  {
    LoweredLetters(name);
    if SameLetters(name, word) {
      SpellingIsLowered(name, word);
    }
  }

  /** The four names that say how the reply is framed or how long the connection lives. */
  predicate IsFraming(name: string) {
    || SameLetters(name, "connection") || SameLetters(name, "keep-alive")
    || SameLetters(name, "transfer-encoding") || SameLetters(name, "content-length")
  }

  lemma FramingNames(name: string)
    ensures AsciiLower(name) in HOP_BY_HOP <==> IsFraming(name)
    ensures AsciiLower(name) == "content-length" <==> SameLetters(name, "content-length")
    ensures AsciiLower(name) == "transfer-encoding" <==> SameLetters(name, "transfer-encoding")
  {
    LowerIsSameLetters(name, "connection");
    LowerIsSameLetters(name, "keep-alive");
    LowerIsSameLetters(name, "transfer-encoding");
    LowerIsSameLetters(name, "content-length");
  }

  /** A field is passed on unless its name is one of the four. */
  function Passed(f: Option<(string, string)>): seq<(string, string)> {
    if f.Some? && !IsFraming(f.value.0) then [f.value] else []
  }

  function LengthAfter(f: Option<(string, string)>, before: Option<nat>): Option<nat> {
    if f.Some? && SameLetters(f.value.0, "content-length") then ParseUnsigned(f.value.1, 0xFFFF_FFFF_FFFF_FFFF) else before
  }

  function AllPassed(lines: seq<string>): seq<(string, string)> {
    if lines == [] then [] else Passed(Field(lines[0])) + AllPassed(lines[1..])
  }

  /** The last `Content-Length` line decides, even when it cannot be read as a number. */
  function LastLength(lines: seq<string>, before: Option<nat>): Option<nat> {
    if lines == [] then before
    else LengthAfter(Field(lines[|lines| - 1]), LastLength(lines[..|lines| - 1], before))
  }

  predicate SaysChunked(f: Option<(string, string)>) {
    f.Some? && SameLetters(f.value.0, "transfer-encoding") && SameLetters(f.value.1, "chunked")
  }

  predicate AnyChunked(lines: seq<string>) {
    lines != [] && (SaysChunked(Field(lines[0])) || AnyChunked(lines[1..]))
  }

  lemma FieldMeaning(f: Option<(string, string)>, head: Head)
    ensures ApplyField(f, head).headers == head.headers + Passed(f)
    ensures ApplyField(f, head).length == LengthAfter(f, head.length)
    ensures ApplyField(f, head).status == head.status
    ensures ApplyField(f, head).chunked == (head.chunked || SaysChunked(f))
  {
    if f.Some? {
      FramingNames(f.value.0);
      LowerIsSameLetters(f.value.1, "chunked");
      NotBoth(f.value.0);
    }
  }

  lemma NotBoth(name: string)
    ensures !(SameLetters(name, "content-length") && SameLetters(name, "transfer-encoding"))
  {
  }

  /** The fields are passed on in order, and the last declared length counts. */
  lemma {:induction false} HeadersMeaning(lines: seq<string>, head: Head)
    ensures ParseHeaders(lines, head).headers == head.headers + AllPassed(lines)
    ensures ParseHeaders(lines, head).length == LastLength(lines, head.length)
    ensures ParseHeaders(lines, head).status == head.status
    ensures ParseHeaders(lines, head).chunked == (head.chunked || AnyChunked(lines))
  {
    if lines != [] {
      var f := Field(lines[0]);
      FieldMeaning(f, head);
      HeadersMeaning(lines[1..], ApplyField(f, head));
      LengthFromFront(lines, head.length);
    }
  }

  lemma {:induction false} LengthFromFront(lines: seq<string>, before: Option<nat>)
    requires lines != []
    ensures LastLength(lines, before) == LastLength(lines[1..], LengthAfter(Field(lines[0]), before))
    decreases |lines|
  {
    if |lines| > 1 {
      var front := lines[..|lines| - 1];
      assert lines[1..][..|lines| - 2] == front[1..];
      LengthFromFront(front, before);
    }
  }

  /** The head without its final CR LF CR LF; `None` when it is not UTF-8. */
  function ParseHead(bytes: seq<Byte>, assumeOk: bool): Option<Head> {
    match FromUtf8(bytes)
    case None => None
    case Some(text) =>
      var lines := SplitLines(text);
      Some(ParseHeaders(lines[1..], Head(Status(lines[0], assumeOk), [], None, false)))
  }

  /** Any way of reading a head: how reads fall does not depend on it. */
  type Parser = seq<Byte> -> Option<Head>

  function ParserFor(assumeOk: bool): Parser {
    bytes => ParseHead(bytes, assumeOk)
  }

  /** What the response builder accepts as a header: a token, and a value without control characters. */
  predicate ValidHeader(h: (string, string)) {
    && h.0 != ""
    && (forall i :: 0 <= i < |h.0| ==>
          h.0[i] in "!#$%&'*+-.^_`|~" || IsDigit(h.0[i]) || 'a' <= h.0[i] <= 'z' || 'A' <= h.0[i] <= 'Z')
    && (forall i :: 0 <= i < |h.1| ==> (' ' <= h.1[i] && h.1[i] != '\U{7F}') || h.1[i] == '\t')
  }

  predicate Buildable(head: Head) {
    forall i :: 0 <= i < |head.headers| ==> ValidHeader(head.headers[i])
  }

  function Build(head: Head, body: seq<Byte>): Reply {
    if Buildable(head) then Response(head.status, head.headers, body) else Failure(BadHeader)
  }

  // ---------------------------------------------------------------- reading

  function Min(a: nat, b: nat): nat {
    if a < b then a else b
  }

  /** Bytes a read returns: at least one unless the stream is at its end. */
  function ReadSize(wanted: nat, cap: nat, left: nat): (n: nat)
    ensures n <= cap && n <= left
    ensures wanted > 0 && cap > 0 && left > 0 ==> n > 0
  {
    Min(wanted, Min(cap, left))
  }

  /** Where the header loop stops: `pos` bytes read by `turn` reads, the head ending at `end`. */
  datatype HeadRead = Complete(end: nat, pos: nat, turn: nat) | Broken(error: Error)

  function ReadHead(stream: seq<Byte>, sched: Schedule, pos: nat, i: nat): (r: HeadRead)
    requires pos <= |stream|
    ensures r.Complete? ==> pos <= r.pos <= |stream| && 4 <= r.end <= r.pos
    decreases |stream| - pos
  {
    var found := FindSubslice(stream[..pos], CRLF2);
    if found.Some? then Complete(found.value + 4, pos, i)
    else if sched(i) == 0 then Broken(ReadFailed)
    else if pos == |stream| then Broken(ClosedBeforeHeaders)
    else ReadHead(stream, sched, pos + ReadSize(sched(i), READ_CAP, |stream| - pos), i + 1)
  }

  function ReadBody(stream: seq<Byte>, sched: Schedule, head: Head, start: nat, total: nat, pos: nat, i: nat): Reply
    requires start <= pos <= |stream|
    decreases |stream| - pos
  {
    if pos - start >= total then Build(head, stream[start..pos])
    else if sched(i) == 0 then Failure(ReadFailed)
    else if pos == |stream| then Failure(ClosedMidBody)
    else
      ReadBody(stream, sched, head, start, total,
               pos + ReadSize(sched(i), Min(total - (pos - start), READ_CAP), |stream| - pos), i + 1)
  }

  /** What follows the header loop, given the parsed head. */
  function ReadRest(stream: seq<Byte>, sched: Schedule, parsed: Option<Head>, end: nat, pos: nat, i: nat): Reply
    requires end <= pos <= |stream|
  {
    match parsed
    case None => Failure(NonUtf8Header)
    case Some(head) =>
      if head.chunked || head.length.None? then Build(head, stream[end..pos])
      else ReadBody(stream, sched, head, end, head.length.value, pos, i)
  }

  function RawReply(stream: seq<Byte>, sched: Schedule, parse: Parser): Reply {
    match ReadHead(stream, sched, 0, 0)
    case Broken(error) => Failure(error)
    case Complete(end, pos, turn) =>
      ReadRest(stream, sched, parse(stream[..end - 4]), end, pos, turn)
  }

  /** The header loop as it runs, on a growing buffer. */
  method CollectHead(stream: seq<Byte>, sched: Schedule) returns (r: HeadRead, buffer: seq<Byte>)
    ensures r == ReadHead(stream, sched, 0, 0)
    ensures r.Complete? ==> buffer == stream[..r.pos]
  {
    buffer := [];
    var turn := 0;
    var found := FindSubslice(buffer, CRLF2);
    ghost var goal := ReadHead(stream, sched, 0, 0);
    while found.None?
      invariant |buffer| <= |stream| && buffer == stream[..|buffer|]
      invariant found == FindSubslice(buffer, CRLF2)
      invariant goal == ReadHead(stream, sched, |buffer|, turn)
      decreases |stream| - |buffer|, found.None?
    {
      if sched(turn) == 0 {
        return Broken(ReadFailed), buffer;
      }
      var n := ReadSize(sched(turn), READ_CAP, |stream| - |buffer|);
      if n == 0 {
        return Broken(ClosedBeforeHeaders), buffer;
      }
      assert buffer + stream[|buffer|..|buffer| + n] == stream[..|buffer| + n];
      buffer := buffer + stream[|buffer|..|buffer| + n];
      turn := turn + 1;
      found := FindSubslice(buffer, CRLF2);
    }
    r := Complete(found.value + 4, |buffer|, turn);
  }

  /** The body loop as it runs, on the bytes that came with the head. */
  method CollectBody(stream: seq<Byte>, sched: Schedule, head: Head, start: nat, total: nat, pos: nat, i: nat)
    returns (reply: Reply)
    requires start <= pos <= |stream|
    ensures reply == ReadBody(stream, sched, head, start, total, pos, i)
  {
    var body, turn := stream[start..pos], i;
    while |body| < total
      invariant start + |body| <= |stream| && body == stream[start..start + |body|]
      invariant ReadBody(stream, sched, head, start, total, pos, i)
                == ReadBody(stream, sched, head, start, total, start + |body|, turn)
      decreases |stream| - |body|
    {
      if sched(turn) == 0 {
        return Failure(ReadFailed);
      }
      var at := start + |body|;
      var n := ReadSize(sched(turn), Min(total - |body|, READ_CAP), |stream| - at);
      if n == 0 {
        return Failure(ClosedMidBody);
      }
      assert body + stream[at..at + n] == stream[start..at + n];
      body := body + stream[at..at + n];
      turn := turn + 1;
    }
    return Build(head, body);
  }

  method ForwardRaw(stream: seq<Byte>, sched: Schedule, assumeOk: bool) returns (reply: Reply)
    ensures reply == RawReply(stream, sched, ParserFor(assumeOk))
  {
    var read, buffer := CollectHead(stream, sched);
    if read.Broken? {
      return Failure(read.error);
    }
    assert buffer[..read.end - 4] == stream[..read.end - 4];
    assert buffer[read.end..] == stream[read.end..read.pos];
    var parsed := ParseHead(buffer[..read.end - 4], assumeOk);
    if parsed.None? {
      return Failure(NonUtf8Header);
    }
    var head := parsed.value;
    if head.chunked || head.length.None? {
      return Build(head, buffer[read.end..]);
    }
    reply := CollectBody(stream, sched, head, read.end, head.length.value, read.pos, read.turn);
  }

  // ---------------------------------------------------------------- chunking independence

  ghost predicate NeverFails(sched: Schedule) {
    forall i: nat :: sched(i) > 0
  }

  function DeclaredLength(head: Head): nat {
    if head.chunked || head.length.None? then 0 else head.length.value
  }

  function Cut(stream: seq<Byte>, parsed: Option<Head>, end: nat): Reply
    requires end <= |stream|
  {
    match parsed
    case None => Failure(NonUtf8Header)
    case Some(head) =>
      if end + DeclaredLength(head) > |stream| then Failure(ClosedMidBody)
      else Build(head, stream[end..end + DeclaredLength(head)])
  }

  /**
    The reply as a function of the stream alone: parse at the first CR LF CR LF, with whatever
    parser, and take exactly `Content-Length` bytes (none when the head declares no length).
   */
  function OneShot(stream: seq<Byte>, parse: Parser): Reply {
    match FindSubslice(stream, CRLF2)
    case None => Failure(ClosedBeforeHeaders)
    case Some(i) => Cut(stream, parse(stream[..i]), i + 4)
  }

  /**
    When the reply cannot depend on how the reads fall: nothing follows the declared body,
    or the declared body is at least as long as what one read can bring along with the head.
   */
  predicate SelfDelimited(stream: seq<Byte>, parse: Parser) {
    match FindSubslice(stream, CRLF2)
    case None => true
    case Some(i) => Delimited(stream, parse(stream[..i]), i + 4)
  }

  predicate Delimited(stream: seq<Byte>, parsed: Option<Head>, end: nat) {
    match parsed
    case None => true
    case Some(head) =>
      || !Buildable(head)
      || |stream| <= end + DeclaredLength(head)
      || (!head.chunked && head.length.Some? && head.length.value >= 8191)
  }

  /** The header loop always stops at the same end, at most `READ_CAP - 1` bytes past it. */
  lemma {:induction false} HeadIsFound(stream: seq<Byte>, sched: Schedule, pos: nat, i: nat)
    requires pos <= |stream| && NeverFails(sched)
    requires FindSubslice(stream[..pos], CRLF2).None?
    ensures var r := ReadHead(stream, sched, pos, i);
            match FindSubslice(stream, CRLF2)
            case None => r == Broken(ClosedBeforeHeaders)
            case Some(at) => r.Complete? && r.end == at + 4 && r.pos < r.end + 8192
    decreases |stream| - pos
  {
    FirstMatchStable(stream, CRLF2, pos);
    if pos < |stream| {
      var next := pos + ReadSize(sched(i), READ_CAP, |stream| - pos);
      FirstMatchStable(stream, CRLF2, next);
      if FindSubslice(stream[..next], CRLF2).None? {
        HeadIsFound(stream, sched, next, i + 1);
      }
    } else {
      assert stream[..pos] == stream;
    }
  }

  /** Reads are capped at what is missing, so the body loop never overshoots. */
  lemma {:induction false} BodyIsExact(stream: seq<Byte>, sched: Schedule, head: Head, start: nat, total: nat, pos: nat, i: nat)
    requires start <= pos <= |stream| && pos <= start + total && NeverFails(sched)
    ensures ReadBody(stream, sched, head, start, total, pos, i)
            == if start + total > |stream| then Failure(ClosedMidBody) else Build(head, stream[start..start + total])
    decreases |stream| - pos
  {
    if pos - start < total && pos < |stream| {
      var next := pos + ReadSize(sched(i), Min(total - (pos - start), READ_CAP), |stream| - pos);
      BodyIsExact(stream, sched, head, start, total, next, i + 1);
    }
  }

  lemma DelimitedRest(stream: seq<Byte>, sched: Schedule, parsed: Option<Head>, end: nat, pos: nat, i: nat)
    requires end <= pos <= |stream| && pos < end + READ_CAP && NeverFails(sched)
    requires Delimited(stream, parsed, end)
    ensures ReadRest(stream, sched, parsed, end, pos, i) == Cut(stream, parsed, end)
  {
    if parsed.Some? && pos <= end + DeclaredLength(parsed.value) {
      BodyIsExact(stream, sched, parsed.value, end, DeclaredLength(parsed.value), pos, i);
    }
  }

  lemma SelfDelimitedReply(stream: seq<Byte>, sched: Schedule, parse: Parser)
    requires NeverFails(sched) && SelfDelimited(stream, parse)
    ensures RawReply(stream, sched, parse) == OneShot(stream, parse)
  {
    FirstMatchStable(stream, CRLF2, 0);
    HeadIsFound(stream, sched, 0, 0);
    match ReadHead(stream, sched, 0, 0)
    case Broken(_) =>
    case Complete(end, pos, turn) =>
      DelimitedRest(stream, sched, parse(stream[..end - 4]), end, pos, turn);
  }

  /** One byte at a time for `slow` reads, then up to `burst` bytes at once. */
  function SlowThenBurst(slow: nat, burst: nat): Schedule {
    i => if i < slow then 1 else burst
  }

  lemma {:induction false} SlowReads(stream: seq<Byte>, at: nat, burst: nat, pos: nat)
    requires FindSubslice(stream, CRLF2) == Some(at) && pos <= at + 3
    ensures ReadHead(stream, SlowThenBurst(at + 3, burst), pos, pos)
            == ReadHead(stream, SlowThenBurst(at + 3, burst), at + 3, at + 3)
    decreases at + 3 - pos
  {
    if pos < at + 3 {
      FirstMatchStable(stream, CRLF2, pos);
      SlowReads(stream, at, burst, pos + 1);
    }
  }

  /** A burst that straddles the end of the head carries `extra` bytes of what follows. */
  lemma BurstCarries(stream: seq<Byte>, at: nat, extra: nat)
    requires FindSubslice(stream, CRLF2) == Some(at)
    requires extra < READ_CAP && at + 4 + extra <= |stream|
    ensures ReadHead(stream, SlowThenBurst(at + 3, extra + 1), 0, 0) == Complete(at + 4, at + 4 + extra, at + 4)
  {
    var sched := SlowThenBurst(at + 3, extra + 1);
    SlowReads(stream, at, extra + 1, 0);
    BurstRead(stream, sched, at, extra);
    HeadComplete(stream, sched, at, extra);
  }

  lemma BurstRead(stream: seq<Byte>, sched: Schedule, at: nat, extra: nat)
    requires FindSubslice(stream, CRLF2) == Some(at) && sched(at + 3) == extra + 1
    requires extra < READ_CAP && at + 4 + extra <= |stream|
    ensures ReadHead(stream, sched, at + 3, at + 3) == ReadHead(stream, sched, at + 4 + extra, at + 4)
  {
    FirstMatchStable(stream, CRLF2, at + 3);
  }

  lemma HeadComplete(stream: seq<Byte>, sched: Schedule, at: nat, extra: nat)
    requires FindSubslice(stream, CRLF2) == Some(at) && at + 4 + extra <= |stream|
    ensures ReadHead(stream, sched, at + 4 + extra, at + 4) == Complete(at + 4, at + 4 + extra, at + 4)
  {
    FirstMatchStable(stream, CRLF2, at + 4 + extra);
  }

  lemma RestCarries(stream: seq<Byte>, sched: Schedule, head: Head, end: nat, i: nat)
    requires Buildable(head) && end + DeclaredLength(head) < |stream|
    ensures ReadRest(stream, sched, Some(head), end, end + DeclaredLength(head) + 1, i) != Cut(stream, Some(head), end)
  {
    var extra := DeclaredLength(head) + 1;
    assert |stream[end..end + extra]| == extra;
  }

  lemma OpenEndedHead(stream: seq<Byte>, parse: Parser, at: nat, head: Head) returns (sched: Schedule)
    requires FindSubslice(stream, CRLF2) == Some(at) && parse(stream[..at]) == Some(head)
    requires !Delimited(stream, Some(head), at + 4)
    ensures NeverFails(sched) && RawReply(stream, sched, parse) != Cut(stream, Some(head), at + 4)
  {
    var extra := DeclaredLength(head) + 1;
    sched := SlowThenBurst(at + 3, extra + 1);
    BurstCarries(stream, at, extra);
    RestCarries(stream, sched, head, at + 4, at + 4);
  }

  lemma OpenEndedReply(stream: seq<Byte>, parse: Parser) returns (sched: Schedule)
    requires !SelfDelimited(stream, parse)
    ensures NeverFails(sched) && RawReply(stream, sched, parse) != OneShot(stream, parse)
  {
    var at := FindSubslice(stream, CRLF2).value;
    var parsed := parse(stream[..at]);
    ParsedOneShot(stream, parse, at, parsed);
    sched := OpenEndedHead(stream, parse, at, parsed.value);
  }

  /**
    Exactly when the reply is the same for every way of splitting the stream into reads: if
    and only if the stream is self-delimited.
   */
  lemma ChunkingIndependence(stream: seq<Byte>, parse: Parser)
    ensures (forall sched: Schedule :: NeverFails(sched) ==> RawReply(stream, sched, parse) == OneShot(stream, parse))
            <==> SelfDelimited(stream, parse)
  {
    if SelfDelimited(stream, parse) {
      forall sched: Schedule | NeverFails(sched)
        ensures RawReply(stream, sched, parse) == OneShot(stream, parse)
      {
        SelfDelimitedReply(stream, sched, parse);
      }
    } else {
      var sched := OpenEndedReply(stream, parse);
    }
  }

  /** The documented case: a head that declares a length, followed by exactly that many bytes. */
  lemma FramedReply(stream: seq<Byte>, sched: Schedule, parse: Parser, at: nat, head: Head)
    requires NeverFails(sched)
    requires FindSubslice(stream, CRLF2) == Some(at) && parse(stream[..at]) == Some(head)
    requires Buildable(head) && !head.chunked && head.length == Some(|stream| - at - 4)
    ensures RawReply(stream, sched, parse) == Response(head.status, head.headers, stream[at + 4..])
  {
    CutFramed(stream, head, at + 4);
    ParsedOneShot(stream, parse, at, parse(stream[..at]));
    SelfDelimitedReply(stream, sched, parse);
  }

  lemma ParsedOneShot(stream: seq<Byte>, parse: Parser, at: nat, parsed: Option<Head>)
    requires FindSubslice(stream, CRLF2) == Some(at) && parsed == parse(stream[..at])
    ensures OneShot(stream, parse) == Cut(stream, parsed, at + 4)
    ensures SelfDelimited(stream, parse) == Delimited(stream, parsed, at + 4)
  {
  }

  lemma CutFramed(stream: seq<Byte>, head: Head, end: nat)
    requires Buildable(head) && !head.chunked && end <= |stream| && head.length == Some(|stream| - end)
    ensures Delimited(stream, Some(head), end)
    ensures Cut(stream, Some(head), end) == Response(head.status, head.headers, stream[end..])
  {
    assert stream[end..|stream|] == stream[end..];
  }
}
