/**
  The raw forwarder on replies that are not well formed, and over connections that fail: what a
  status line and a header line of any shape are read as, and what a failing read leaves.
 */
module RawHttpCases {
  import opened Bytes
  import opened Wrappers
  import opened Text
  import opened RawHttp

  // ---------------------------------------------------------------- blanks

  lemma {:induction false} TextEndFinds(s: string, after: string)
    requires BlankText(after) && (s != "" ==> !IsWhitespace(s[|s| - 1]))
    ensures TrimTextEnd(s + after) == s
  {
    if after == "" {
      assert s + after == s;
    } else {
      var rest := after[..|after| - 1];
      TextEndFinds(s, rest);
      assert (s + after)[..|s + after| - 1] == s + rest;
    }
  }

  /** Nothing but blanks at the ends is cut off. */
  lemma TrimTextFinds(text: string, before: string, core: string, after: string)
    requires text == before + (core + after) && BlankText(before) && BlankText(after)
    requires core != "" ==> !IsWhitespace(core[0]) && !IsWhitespace(core[|core| - 1])
    ensures TrimText(text) == core
  {
    if core == "" {
      assert text == (before + after) + "" && BlankText(before + after);
      TextStartFinds(before + after, "");
    } else {
      TextStartFinds(before, core + after);
      TextEndFinds(core, after);
    }
  }

  // ---------------------------------------------------------------- header lines

  /** The name ends at the first colon, and the value goes to the end; blanks around both are cut off. */
  lemma FieldSplits(name: string, value: string)
    requires ':' !in name
    ensures Field(name + [':'] + value) == Some((TrimText(name), TrimText(value)))
  {
    IndexOfFirst(name, ':', value);
    assert (name + [':'] + value)[..|name|] == name && (name + [':'] + value)[|name| + 1..] == value;
  }

  /** A line without a colon is no field, and changes nothing. */
  lemma NoColonNoField(line: string, head: Head)
    requires ':' !in line
    ensures Field(line).None? && ApplyField(Field(line), head) == head
  {
  }

  // ---------------------------------------------------------------- status lines

  /** The second word of the status line, with any blanks before, between and after. */
  lemma StatusIsSecondWord(before: string, first: string, gap: string, word: string, rest: string, assumeOk: bool)
    requires BlankText(before) && OneWord(first) && BlankText(gap) && gap != "" && OneWord(word)
    requires rest != "" ==> IsWhitespace(rest[0])
    ensures var line := before + (first + (gap + (word + rest)));
            && ParseStatusLine(line) == ParseUnsigned(word, 65535)
            && Status(line, assumeOk)
               == match ParseUnsigned(word, 65535)
                  case None => 200
                  case Some(code) => if assumeOk || code < 100 || code > 999 then 200 else code
  {
    var tail := gap + (word + rest);
    TextStartFinds(before, first + tail);
    WordFinds(first, tail);
    assert (first + tail)[|first|..] == tail;
    TextStartFinds(gap, word + rest);
    WordFinds(word, rest);
  }

  /** With fewer than two words the status is 200. */
  lemma ShortStatusLine(before: string, word: string, after: string, assumeOk: bool)
    requires BlankText(before) && (word == "" || OneWord(word)) && BlankText(after)
    ensures Status(before + (word + after), assumeOk) == 200
  {
    if word == "" {
      assert before + (word + after) == (before + after) + "" && BlankText(before + after);
      TextStartFinds(before + after, "");
    } else {
      TextStartFinds(before, word + after);
      WordFinds(word, after);
      assert (word + after)[|word|..] == after + "";
      TextStartFinds(after, "");
    }
  }

  // ---------------------------------------------------------------- failing reads

  /** No read fails before turn `n`. */
  predicate GoodUntil(sched: Schedule, n: nat) {
    forall i :: 0 <= i < n ==> sched(i) > 0
  }

  /** The schedule with its failing reads mended. */
  function Mended(sched: Schedule): Schedule {
    i => if sched(i) == 0 then 1 else sched(i)
  }

  /** The header loop ends as it would without failures, or with the failure; without one, if none comes in time. */
  lemma {:induction false} HeadOrFailure(stream: seq<Byte>, sched: Schedule, pos: nat, i: nat)
    requires pos <= |stream| && i <= pos
    ensures var r, mended := ReadHead(stream, sched, pos, i), ReadHead(stream, Mended(sched), pos, i);
            && (r == mended || r == Broken(ReadFailed))
            && (GoodUntil(sched, |stream| + 1) ==> r == mended)
            && (r.Complete? ==> r.turn <= r.pos)
    decreases |stream| - pos
  {
    if FindSubslice(stream[..pos], CRLF2).None? && sched(i) > 0 && pos < |stream| {
      HeadOrFailure(stream, sched, pos + ReadSize(sched(i), READ_CAP, |stream| - pos), i + 1);
    }
  }

  lemma {:induction false} BodyOrFailure(stream: seq<Byte>, sched: Schedule, head: Head, start: nat, total: nat, pos: nat, i: nat)
    requires start <= pos <= |stream| && i <= pos
    ensures var r := ReadBody(stream, sched, head, start, total, pos, i);
            var mended := ReadBody(stream, Mended(sched), head, start, total, pos, i);
            && (r == mended || r == Failure(ReadFailed))
            && (GoodUntil(sched, |stream| + 1) ==> r == mended)
    decreases |stream| - pos
  {
    if pos - start < total && sched(i) > 0 && pos < |stream| {
      BodyOrFailure(stream, sched, head, start, total,
                    pos + ReadSize(sched(i), Min(total - (pos - start), READ_CAP), |stream| - pos), i + 1);
    }
  }

  lemma RestOrFailure(stream: seq<Byte>, sched: Schedule, parsed: Option<Head>, end: nat, pos: nat, i: nat)
    requires end <= pos <= |stream| && i <= pos
    ensures var r := ReadRest(stream, sched, parsed, end, pos, i);
            var mended := ReadRest(stream, Mended(sched), parsed, end, pos, i);
            && (r == mended || r == Failure(ReadFailed))
            && (GoodUntil(sched, |stream| + 1) ==> r == mended)
  {
    if parsed.Some? && !parsed.value.chunked && parsed.value.length.Some? {
      BodyOrFailure(stream, sched, parsed.value, end, parsed.value.length.value, pos, i);
    }
  }

  lemma ReplyOrFailure(stream: seq<Byte>, sched: Schedule, parse: Parser)
    ensures RawReply(stream, sched, parse) in [RawReply(stream, Mended(sched), parse), Failure(ReadFailed)]
    ensures GoodUntil(sched, |stream| + 1) ==> RawReply(stream, sched, parse) == RawReply(stream, Mended(sched), parse)
  {
    HeadOrFailure(stream, sched, 0, 0);
    match ReadHead(stream, sched, 0, 0)
    case Broken(_) =>
    case Complete(end, pos, turn) => RestOrFailure(stream, sched, parse(stream[..end - 4]), end, pos, turn);
  }

  /**
    Over any connection, a self-delimited reply is the one-shot reply or a read failure, never
    something in between; and it is not a failure unless one of the first reads fails.
   */
  lemma FailingReads(stream: seq<Byte>, sched: Schedule, parse: Parser)
    requires SelfDelimited(stream, parse)
    ensures RawReply(stream, sched, parse) == OneShot(stream, parse) || RawReply(stream, sched, parse) == Failure(ReadFailed)
    ensures GoodUntil(sched, |stream| + 1) ==> RawReply(stream, sched, parse) == OneShot(stream, parse)
    ensures sched(0) == 0 ==> RawReply(stream, sched, parse) == Failure(ReadFailed)
  {
    ReplyOrFailure(stream, sched, parse);
    SelfDelimitedReply(stream, Mended(sched), parse);
    assert stream[..0] == [];
  }

  // ---------------------------------------------------------------- what can be built

  /** A name of these 77 characters, and a value without control characters other than tab. */
  lemma BuildableHeader(h: (string, string))
    ensures ValidHeader(h) <==>
            && h.0 != "" && (forall i :: 0 <= i < |h.0| ==> TokenCode(h.0[i] as int))
            && (forall i :: 0 <= i < |h.1| ==> var c := h.1[i] as int; c == 9 || (32 <= c && c != 127))
  {
  }

  /** Section 5.6.2 of RFC 9110: the characters of a token, by their codes. */
  predicate TokenCode(c: int) {
    || c == 33 || 35 <= c <= 39 || c == 42 || c == 43 || c == 45 || c == 46 || 48 <= c <= 57
    || 65 <= c <= 90 || 94 <= c <= 122 || c == 124 || c == 126
  }
}
