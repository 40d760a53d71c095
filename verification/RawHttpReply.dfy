/**
  The raw forwarder seen from the backend: a reply written out as status line, header fields
  and body comes through with its status, its fields and its body, however the reads fall.
 */
module RawHttpReply {
  import opened Bytes
  import opened Wrappers
  import opened Text
  import opened RawHttp

  // ---------------------------------------------------------------- lines

  predicate PlainChar(c: char) {
    c < '\U{80}' && c != '\r' && c != '\n'
  }

  predicate CleanLine(s: string) {
    s != "" && forall i :: 0 <= i < |s| ==> PlainChar(s[i])
  }

  predicate CleanLines(lines: seq<string>) {
    lines != [] && forall i :: 0 <= i < |lines| ==> CleanLine(lines[i])
  }

  const CRLF: string := ['\r', '\n']

  function Join(lines: seq<string>): string
    requires lines != []
  {
    if |lines| == 1 then lines[0] else lines[0] + CRLF + Join(lines[1..])
  }

  predicate AsciiText(text: string) {
    forall i :: 0 <= i < |text| ==> text[i] < '\U{80}'
  }

  /** ASCII without an empty line: after every CR LF comes something other than CR. */
  predicate Lined(text: string) {
    && text != "" && text[0] != '\r'
    && AsciiText(text)
    && (forall i :: 0 <= i < |text| && text[i] == '\r' ==> i + 2 < |text| && text[i + 2] != '\r')
  }

  lemma LinedPair(a: string, rest: string)
    requires CleanLine(a) && Lined(rest)
    ensures Lined(a + CRLF + rest)
  {
    var text := a + CRLF + rest;
    forall i | 0 <= i < |text| && text[i] == '\r'
      ensures i + 2 < |text| && text[i + 2] != '\r'
    {
      if i > |a| {
        assert rest[i - |a| - 2] == '\r';
      }
    }
  }

  lemma {:induction false} JoinIsLined(lines: seq<string>)
    requires CleanLines(lines)
    ensures Lined(Join(lines))
    decreases |lines|
  {
    if |lines| > 1 {
      JoinIsLined(lines[1..]);
      LinedPair(lines[0], Join(lines[1..]));
    }
  }

  /** No CR is followed by LF. */
  predicate NoCrlf(s: string) {
    forall i :: 0 <= i < |s| - 1 ==> !(s[i] == '\r' && s[i + 1] == '\n')
  }

  lemma {:induction false} CrlfIsFound(a: string, rest: string)
    requires NoCrlf(a)
    ensures IndexOfCrlf(a + ['\r', '\n'] + rest) == Some(|a|)
    ensures IndexOfCrlf(a).None?
  {
    if a != "" {
      assert NoCrlf(a[1..]);
      CrlfIsFound(a[1..], rest);
      assert (a + ['\r', '\n'] + rest)[1..] == a[1..] + ['\r', '\n'] + rest;
    }
  }

  /** Splitting takes joined lines apart again, whatever else is in them. */
  lemma {:induction false} SplitJoined(lines: seq<string>)
    requires lines != [] && forall i :: 0 <= i < |lines| ==> NoCrlf(lines[i])
    ensures SplitLines(Join(lines)) == lines
    decreases |lines|
  {
    var a := lines[0];
    if |lines| == 1 {
      CrlfIsFound(a, "");
    } else {
      var rest := Join(lines[1..]);
      CrlfIsFound(a, rest);
      SplitJoined(lines[1..]);
      assert (a + CRLF + rest)[..|a|] == a && (a + CRLF + rest)[|a| + 2..] == rest;
      assert lines == [a] + lines[1..];
    }
  }

  // ---------------------------------------------------------------- bytes

  /** The bytes of ASCII text; other characters do not occur in a head. */
  function Encode(text: string): (r: seq<Byte>)
    ensures |r| == |text| && Ascii(r) && (AsciiText(text) ==> Chars(r) == text)
    ensures forall i :: 0 <= i < |r| && text[i] < '\U{80}' ==> r[i] == text[i] as int
  {
    seq(|text|, i requires 0 <= i < |text| => if text[i] < '\U{80}' then text[i] as int else 63)
  }

  /** The head ends where it was written to end. */
  lemma HeadEnds(text: string, stream: seq<Byte>, body: seq<Byte>)
    requires Lined(text) && stream == Encode(text) + [13, 10, 13, 10] + body
    ensures FindSubslice(stream, CRLF2) == Some(|text|)
  {
    FindIsFirst(stream, CRLF2, 0);
    assert Occurs(stream, CRLF2, |text|);
    forall j | 0 <= j < |text|
      ensures !Occurs(stream, CRLF2, j)
    {
      NoEarlierEnd(text, stream, body, j);
    }
  }

  lemma NoEarlierEnd(text: string, stream: seq<Byte>, body: seq<Byte>, j: nat)
    requires Lined(text) && stream == Encode(text) + [13, 10, 13, 10] + body && j < |text|
    ensures !Occurs(stream, CRLF2, j)
  {
    assert stream[j] == text[j] as int;
    if text[j] == '\r' {
      assert stream[j..j + 4][2] == stream[j + 2] == text[j + 2] as int;
    } else {
      assert stream[j..j + 4][0] == stream[j];
    }
  }

  // ---------------------------------------------------------------- fields

  predicate Solid(s: string) {
    s != "" ==> !IsWhitespace(s[0]) && !IsWhitespace(s[|s| - 1])
  }

  /** A field that can be sent: a token, and ASCII text without blanks at its ends. */
  predicate GoodField(f: (string, string)) {
    ValidHeader(f) && Solid(f.1) && AsciiText(f.1)
  }

  function RenderField(f: (string, string)): string {
    f.0 + [':'] + ([' '] + f.1)
  }

  lemma FieldFinds(name: string, value: string)
    requires OneWord(name) && ':' !in name && Solid(value)
    ensures Field(RenderField((name, value))) == Some((name, value))
  {
    var line, rest := RenderField((name, value)), [' '] + value;
    IndexOfFirst(name, ':', rest);
    assert line[..|name|] == name && line[|name| + 1..] == rest;
    NameIsTrimmed(name);
    ValueIsTrimmed(value);
  }

  lemma NameIsTrimmed(name: string)
    requires OneWord(name)
    ensures TrimText(name) == name
  {
  }

  lemma ValueIsTrimmed(value: string)
    requires Solid(value)
    ensures TrimText([' '] + value) == value
  {
    TextStartFinds([' '], value);
  }

  lemma FieldIsClean(f: (string, string))
    requires GoodField(f)
    ensures CleanLine(RenderField(f)) && OneWord(f.0) && ':' !in f.0
  {
    assert forall i :: 0 <= i < |f.0| ==> PlainChar(f.0[i]) && !IsWhitespace(f.0[i]) && f.0[i] != ':';
    assert forall i :: 0 <= i < |f.1| ==> PlainChar(f.1[i]);
  }

  /** A field that is written out is read back as it was. */
  lemma FieldIsRead(f: (string, string))
    requires GoodField(f)
    ensures Field(RenderField(f)) == Some(f) && CleanLine(RenderField(f))
  {
    FieldIsClean(f);
    FieldFinds(f.0, f.1);
  }

  function RenderFields(fields: seq<(string, string)>): (r: seq<string>)
    ensures |r| == |fields| && forall i :: 0 <= i < |r| ==> r[i] == RenderField(fields[i])
  {
    seq(|fields|, i requires 0 <= i < |fields| => RenderField(fields[i]))
  }

  predicate GoodFields(fields: seq<(string, string)>) {
    forall i :: 0 <= i < |fields| ==> GoodField(fields[i])
  }

  /** The fields that are passed on. */
  function Kept(fields: seq<(string, string)>): seq<(string, string)> {
    if fields == [] then [] else Passed(Some(fields[0])) + Kept(fields[1..])
  }

  /** The length the fields declare: the last `Content-Length` counts. */
  function Declared(fields: seq<(string, string)>): Option<nat> {
    if fields == [] then None else LengthAfter(Some(fields[|fields| - 1]), Declared(fields[..|fields| - 1]))
  }

  /** The lines are read as these fields. */
  predicate ReadAs(lines: seq<string>, fields: seq<(string, string)>) {
    |lines| == |fields| && forall i :: 0 <= i < |lines| ==> Field(lines[i]) == Some(fields[i])
  }

  lemma FieldsAreRead(fields: seq<(string, string)>)
    requires GoodFields(fields)
    ensures ReadAs(RenderFields(fields), fields)
  {
    forall i | 0 <= i < |fields|
      ensures Field(RenderFields(fields)[i]) == Some(fields[i])
    {
      FieldIsRead(fields[i]);
    }
  }

  lemma {:induction false} KeptIsPassed(lines: seq<string>, fields: seq<(string, string)>)
    requires ReadAs(lines, fields)
    ensures AllPassed(lines) == Kept(fields)
  {
    if fields != [] {
      KeptIsPassed(lines[1..], fields[1..]);
    }
  }

  lemma {:induction false} KeptIsGood(fields: seq<(string, string)>)
    requires GoodFields(fields)
    ensures GoodFields(Kept(fields))
  {
    if fields != [] {
      KeptIsGood(fields[1..]);
    }
  }

  lemma {:induction false} DeclaredIsLast(lines: seq<string>, fields: seq<(string, string)>)
    requires ReadAs(lines, fields)
    ensures LastLength(lines, None) == Declared(fields)
  {
    if fields != [] {
      DeclaredIsLast(lines[..|lines| - 1], fields[..|fields| - 1]);
    }
  }

  lemma {:induction false} NothingChunked(lines: seq<string>, fields: seq<(string, string)>)
    requires ReadAs(lines, fields) && forall i :: 0 <= i < |fields| ==> !SaysChunked(Some(fields[i]))
    ensures !AnyChunked(lines)
  {
    if fields != [] {
      NothingChunked(lines[1..], fields[1..]);
    }
  }

  /** Fields that end with a length declare it. */
  lemma LengthIsDeclared(fields: seq<(string, string)>, name: string, n: nat)
    requires SameLetters(name, "content-length") && n <= USIZE_MAX
    ensures Declared(fields + [(name, Print(n))]) == Some(n)
  {
    ParsePrint(n, USIZE_MAX);
  }

  /** In any letter case the name is a token, and the digits are a value. */
  lemma LengthFieldIsGood(name: string, n: nat)
    requires SameLetters(name, "content-length")
    ensures GoodField((name, Print(n))) && !SaysChunked(Some((name, Print(n)))) && Passed(Some((name, Print(n)))) == []
  {
    var digits := Print(n);
    assert forall i :: 0 <= i < |digits| ==> IsDigit(digits[i]);
    assert IsDigit(digits[0]) && IsDigit(digits[|digits| - 1]);
    forall i | 0 <= i < |name|
      ensures 'a' <= name[i] <= 'z' || 'A' <= name[i] <= 'Z' || name[i] == '-'
    {
      assert SameLetter(name[i], "content-length"[i]);
      assert 'a' <= "content-length"[i] <= 'z' || "content-length"[i] == '-';
    }
    NotBoth(name);
  }

  lemma {:induction false} KeptAppend(fields: seq<(string, string)>, f: (string, string))
    ensures Kept(fields + [f]) == Kept(fields) + Passed(Some(f))
  {
    if fields == [] {
      assert fields + [f] == [f];
    } else {
      KeptAppend(fields[1..], f);
      assert (fields + [f])[1..] == fields[1..] + [f];
    }
  }

  // ---------------------------------------------------------------- the status line

  /** Version, code and whatever reason follows. */
  function StatusLine(version: string, code: nat, reason: string): string {
    version + ([' '] + (Print(code) + reason))
  }

  predicate GoodReason(reason: string) {
    && (reason != "" ==> IsWhitespace(reason[0]))
    && forall i :: 0 <= i < |reason| ==> PlainChar(reason[i])
  }

  /** The code is read and used when it is one; otherwise, or when a good end is assumed, it is 200. */
  lemma StatusIsRead(version: string, code: nat, reason: string, assumeOk: bool)
    requires OneWord(version) && code <= 65535 && (reason != "" ==> IsWhitespace(reason[0]))
    ensures ParseStatusLine(StatusLine(version, code, reason)) == Some(code)
    ensures Status(StatusLine(version, code, reason), assumeOk) == if assumeOk || !(100 <= code <= 999) then 200 else code
  {
    var rest := Print(code) + reason;
    var line := StatusLine(version, code, reason);
    assert IsDigit(Print(code)[0]);
    assert TrimTextStart(line) == line by { assert line[0] == version[0]; }
    WordFinds(version, [' '] + rest);
    assert line[|version|..] == [' '] + rest;
    TextStartFinds([' '], rest);
    WordFinds(Print(code), reason);
    ParsePrint(code, 65535);
  }

  // ---------------------------------------------------------------- whole replies

  function Lines(version: string, code: nat, reason: string, fields: seq<(string, string)>): seq<string> {
    [StatusLine(version, code, reason)] + RenderFields(fields)
  }

  /** A reply a backend can send, whose fields declare the length of its body. */
  predicate GoodReply(version: string, code: nat, reason: string, fields: seq<(string, string)>, body: seq<Byte>) {
    && CleanLine(version) && OneWord(version) && 100 <= code <= 999 && GoodReason(reason) && GoodFields(fields)
    && (forall i :: 0 <= i < |fields| ==> !SaysChunked(Some(fields[i])))
    && Declared(fields) == Some(|body|)
  }

  lemma LinesAreClean(version: string, code: nat, reason: string, fields: seq<(string, string)>)
    requires CleanLine(version) && GoodReason(reason) && GoodFields(fields)
    ensures CleanLines(Lines(version, code, reason, fields))
  {
    var lines := Lines(version, code, reason, fields);
    StatusLineIsClean(version, code, reason);
    forall i | 0 <= i < |lines|
      ensures CleanLine(lines[i])
    {
      if i > 0 {
        FieldIsRead(fields[i - 1]);
      }
    }
  }

  lemma StatusLineIsClean(version: string, code: nat, reason: string)
    requires CleanLine(version) && GoodReason(reason)
    ensures CleanLine(StatusLine(version, code, reason))
  {
    var digits := Print(code);
    assert forall i :: 0 <= i < |digits| ==> IsDigit(digits[i]) && PlainChar(digits[i]);
    assert forall i :: 0 <= i < |digits + reason| ==> PlainChar((digits + reason)[i]);
  }

  function HeadOf(code: nat, fields: seq<(string, string)>, length: nat, assumeOk: bool): Head {
    Head(if assumeOk then 200 else code, Kept(fields), Some(length), false)
  }

  lemma LinesAreParsed(version: string, code: nat, reason: string, fields: seq<(string, string)>, body: seq<Byte>,
                       assumeOk: bool)
    requires GoodReply(version, code, reason, fields, body)
    ensures ParseHeaders(RenderFields(fields), Head(Status(StatusLine(version, code, reason), assumeOk), [], None, false))
            == HeadOf(code, fields, |body|, assumeOk)
  {
    StatusIsRead(version, code, reason, assumeOk);
    HeadersMeaning(RenderFields(fields), Head(Status(StatusLine(version, code, reason), assumeOk), [], None, false));
    FieldsAreRead(fields);
    KeptIsPassed(RenderFields(fields), fields);
    DeclaredIsLast(RenderFields(fields), fields);
    NothingChunked(RenderFields(fields), fields);
    assert [] + Kept(fields) == Kept(fields);
  }

  lemma HeadIsParsed(lines: seq<string>, text: string, assumeOk: bool)
    requires CleanLines(lines) && text == Join(lines)
    ensures ParseHead(Encode(text), assumeOk)
            == Some(ParseHeaders(lines[1..], Head(Status(lines[0], assumeOk), [], None, false)))
  {
    JoinIsLined(lines);
    AsciiDecodes(Encode(text));
    SplitJoined(lines);
  }

  /**
    Every reply with a declared length is delivered with its status, the fields that are
    passed on, in their order, and its exact body.
   */
  lemma RenderedReply(version: string, code: nat, reason: string, fields: seq<(string, string)>, body: seq<Byte>,
                      text: string, stream: seq<Byte>, sched: Schedule, assumeOk: bool)
    requires GoodReply(version, code, reason, fields, body) && NeverFails(sched)
    requires text == Join(Lines(version, code, reason, fields))
    requires stream == Encode(text) + [13, 10, 13, 10] + body
    ensures RawReply(stream, sched, ParserFor(assumeOk)) == Response(if assumeOk then 200 else code, Kept(fields), body)
  {
    var head := HeadOf(code, fields, |body|, assumeOk);
    RenderedHead(version, code, reason, fields, body, text, assumeOk);
    HeadEnds(text, stream, body);
    assert stream[..|text|] == Encode(text);
    assert stream[|text| + 4..] == body;
    KeptIsGood(fields);
    FramedReply(stream, sched, ParserFor(assumeOk), |text|, head);
  }

  lemma RenderedHead(version: string, code: nat, reason: string, fields: seq<(string, string)>, body: seq<Byte>,
                     text: string, assumeOk: bool)
    requires GoodReply(version, code, reason, fields, body)
    requires text == Join(Lines(version, code, reason, fields))
    ensures Lined(text)
    ensures ParseHead(Encode(text), assumeOk) == Some(HeadOf(code, fields, |body|, assumeOk))
  {
    var lines := Lines(version, code, reason, fields);
    LinesAreClean(version, code, reason, fields);
    JoinIsLined(lines);
    HeadIsParsed(lines, text, assumeOk);
    LinesAreParsed(version, code, reason, fields, body, assumeOk);
    assert lines[1..] == RenderFields(fields);
  }

  lemma FieldsDescribeBody(fields: seq<(string, string)>, name: string, n: nat)
    requires GoodFields(fields) && SameLetters(name, "content-length") && n <= USIZE_MAX
    requires forall i :: 0 <= i < |fields| ==> !SaysChunked(Some(fields[i]))
    ensures var all := fields + [(name, Print(n))];
            && GoodFields(all) && (forall i :: 0 <= i < |all| ==> !SaysChunked(Some(all[i])))
            && Declared(all) == Some(n) && Kept(all) == Kept(fields)
  {
    LengthIsDeclared(fields, name, n);
    LengthFieldIsGood(name, n);
    KeptAppend(fields, (name, Print(n)));
  }

  /** The usual reply: any fields, then its own length in any letter case. */
  lemma SelfDescribedReply(version: string, code: nat, reason: string, fields: seq<(string, string)>, name: string,
                           body: seq<Byte>, text: string, stream: seq<Byte>, sched: Schedule, assumeOk: bool)
    requires CleanLine(version) && OneWord(version) && 100 <= code <= 999 && GoodReason(reason) && GoodFields(fields)
    requires forall i :: 0 <= i < |fields| ==> !SaysChunked(Some(fields[i]))
    requires SameLetters(name, "content-length") && |body| <= USIZE_MAX && NeverFails(sched)
    requires text == Join(Lines(version, code, reason, fields + [(name, Print(|body|))]))
    requires stream == Encode(text) + [13, 10, 13, 10] + body
    ensures RawReply(stream, sched, ParserFor(assumeOk)) == Response(if assumeOk then 200 else code, Kept(fields), body)
  {
    var all := fields + [(name, Print(|body|))];
    FieldsDescribeBody(fields, name, |body|);
    RenderedReply(version, code, reason, all, body, text, stream, sched, assumeOk);
  }

  lemma OneTooMany(stream: seq<Byte>, sched: Schedule, head: Head, end: nat, body: seq<Byte>, more: seq<Byte>)
    requires Buildable(head) && !head.chunked && head.length == Some(|body|) && more != []
    requires end <= |stream| && stream[end..] == body + more
    ensures ReadRest(stream, sched, Some(head), end, end + |body| + 1, end)
            == Response(head.status, head.headers, body + [more[0]])
  {
    assert stream[end..end + |body| + 1] == stream[end..][..|body| + 1] == body + [more[0]];
  }

  lemma BurstDelivers(stream: seq<Byte>, parse: Parser, at: nat, head: Head, body: seq<Byte>, more: seq<Byte>)
    returns (sched: Schedule)
    requires FindSubslice(stream, CRLF2) == Some(at) && parse(stream[..at]) == Some(head)
    requires Buildable(head) && !head.chunked && head.length == Some(|body|)
    requires |body| < 8191 && more != [] && stream[at + 4..] == body + more
    ensures NeverFails(sched)
    ensures RawReply(stream, sched, parse) == Response(head.status, head.headers, body + [more[0]])
  {
    sched := SlowThenBurst(at + 3, |body| + 2);
    BurstCarries(stream, at, |body| + 1);
    OneTooMany(stream, sched, head, at + 4, body, more);
  }

  /**
    The same reply with at least one more byte behind a body of less than 8191: some split
    delivers a byte too many.
   */
  lemma TrailingByteIsDelivered(version: string, code: nat, reason: string, fields: seq<(string, string)>, body: seq<Byte>,
                                more: seq<Byte>, text: string, stream: seq<Byte>, assumeOk: bool)
    returns (sched: Schedule)
    requires GoodReply(version, code, reason, fields, body) && |body| < 8191 && more != []
    requires text == Join(Lines(version, code, reason, fields)) && stream == Encode(text) + [13, 10, 13, 10] + (body + more)
    ensures NeverFails(sched)
    ensures RawReply(stream, sched, ParserFor(assumeOk))
            == Response(if assumeOk then 200 else code, Kept(fields), body + [more[0]])
  {
    var head := HeadOf(code, fields, |body|, assumeOk);
    RenderedHead(version, code, reason, fields, body, text, assumeOk);
    HeadEnds(text, stream, body + more);
    KeptIsGood(fields);
    assert stream[..|text|] == Encode(text);
    assert stream[|text| + 4..] == body + more;
    sched := BurstDelivers(stream, ParserFor(assumeOk), |text|, head, body, more);
  }
}
