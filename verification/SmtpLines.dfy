/**
  What the proxy reads in a client line, told without its own parsing steps: which verb a
  line carries, and which domain a greeting names.
 */
module SmtpLines {
  import opened Bytes
  import opened Wrappers
  import opened Smtp
  import opened Text

  // ---------------------------------------------------------------- trimming

  predicate SolidEnds(core: seq<Byte>) {
    core != [] && !IsAsciiWhitespace(core[0]) && !IsAsciiWhitespace(core[|core| - 1])
  }

  /** Trimming finds the part between two runs of whitespace: there is only one. */
  lemma TrimFinds(s: seq<Byte>, before: seq<Byte>, core: seq<Byte>, after: seq<Byte>)
    requires s == before + core + after && Blank(before) && Blank(after) && SolidEnds(core)
    ensures Trim(s) == core
  {
    assert s == before + (core + after);
    StartFinds(before, core + after);
    EndFinds(core, after);
  }

  lemma {:induction false} StartFinds(before: seq<Byte>, s: seq<Byte>)
    requires Blank(before) && s != [] && !IsAsciiWhitespace(s[0])
    ensures TrimStart(before + s) == s
  {
    if before == [] {
      assert before + s == s;
    } else {
      StartFinds(before[1..], s);
      assert (before + s)[1..] == before[1..] + s;
    }
  }

  lemma {:induction false} EndFinds(s: seq<Byte>, after: seq<Byte>)
    requires Blank(after) && s != [] && !IsAsciiWhitespace(s[|s| - 1])
    ensures TrimEnd(s + after) == s
  {
    if after == [] {
      assert s + after == s;
    } else {
      var rest := after[..|after| - 1];
      EndFinds(s, rest);
      assert (s + after)[..|s + after| - 1] == s + rest;
    }
  }

  // ---------------------------------------------------------------- the verb

  /** The first four bytes of the trimmed line, whatever their encoding. */
  function FirstFour(line: seq<Byte>): seq<Byte> {
    if |Trim(line)| < 4 then Trim(line) else Trim(line)[..4]
  }

  /** The token is this upper-case word, each letter in either case. */
  predicate Spells(token: seq<Byte>, word: string) {
    |token| == |word| && forall i :: 0 <= i < |word| ==> SpellsLetter(token[i], word[i])
  }

  predicate SpellsLetter(b: Byte, c: char) {
    b == c as int || ('A' <= c <= 'Z' && b == c as int + 32)
  }

  predicate SpellsOne(token: seq<Byte>, words: seq<string>) {
    exists i :: 0 <= i < |words| && Spells(token, words[i])
  }

  /** The constant has the codes of this word, which is in upper case. */
  predicate Codes(verb: seq<Byte>, word: string) {
    |verb| == |word| && forall i :: 0 <= i < |word| ==> verb[i] == word[i] as int && 'A' <= word[i] <= 'Z'
  }

  lemma SpelledIsUpper(token: seq<Byte>, verb: seq<Byte>, word: string)
    requires Codes(verb, word) && Spells(token, word)
    ensures Upper(token) == verb && Ascii(token)
  {
    forall i | 0 <= i < |word|
      ensures Upper(token)[i] == verb[i] && token[i] < 128
    {
      assert SpellsLetter(token[i], word[i]);
    }
  }

  lemma UpperIsSpelled(token: seq<Byte>, verb: seq<Byte>, word: string)
    requires Codes(verb, word) && Upper(token) == verb
    ensures Spells(token, word)
  {
    forall i | 0 <= i < |word|
      ensures SpellsLetter(token[i], word[i])
    {
      assert Upper(token)[i] == verb[i];
    }
  }

  /** Upper-casing finds exactly the spellings of a word; they are ASCII, hence UTF-8. */
  lemma UpperIsSpelling(token: seq<Byte>, verb: seq<Byte>, word: string)
    requires Codes(verb, word)
    ensures Upper(token) == verb <==> Spells(token, word)
    ensures Spells(token, word) ==> FromUtf8(token).Some?
  {
    if Upper(token) == verb {
      UpperIsSpelled(token, verb, word);
    }
    if Spells(token, word) {
      SpelledIsUpper(token, verb, word);
      AsciiDecodes(token);
    }
  }

  /** The eight verbs by name. */
  lemma FirstVerbs(token: seq<Byte>)
    ensures Upper(token) == EHLO <==> Spells(token, "EHLO")
    ensures Upper(token) == HELO <==> Spells(token, "HELO")
    ensures Upper(token) == MAIL <==> Spells(token, "MAIL")
    ensures Upper(token) == RCPT <==> Spells(token, "RCPT")
  {
    UpperIsSpelling(token, EHLO, "EHLO");
    UpperIsSpelling(token, HELO, "HELO");
    UpperIsSpelling(token, MAIL, "MAIL");
    UpperIsSpelling(token, RCPT, "RCPT");
  }

  lemma LastVerbs(token: seq<Byte>)
    ensures Upper(token) == DATA <==> Spells(token, "DATA")
    ensures Upper(token) == RSET <==> Spells(token, "RSET")
    ensures Upper(token) == NOOP <==> Spells(token, "NOOP")
    ensures Upper(token) == QUIT <==> Spells(token, "QUIT")
  {
    UpperIsSpelling(token, DATA, "DATA");
    UpperIsSpelling(token, RSET, "RSET");
    UpperIsSpelling(token, NOOP, "NOOP");
    UpperIsSpelling(token, QUIT, "QUIT");
  }

  /** What kind of line it is, by the name of its verb. */
  function Named(token: seq<Byte>): Verb {
    if Spells(token, "EHLO") || Spells(token, "HELO") then Hello
    else if Spells(token, "QUIT") then Quit
    else if Spells(token, "MAIL") || Spells(token, "RCPT") || Spells(token, "DATA") || Spells(token, "RSET")
            || Spells(token, "NOOP") then Relayed
    else Unknown
  }

  /**
    The verb is the first four bytes in any letter case. The UTF-8 check never changes the
    answer: bytes that fail it spell no verb.
   */
  lemma VerbIsFirstFour(line: seq<Byte>)
    ensures Classify(line) == Named(FirstFour(line))
  {
    var token := FirstFour(line);
    FirstVerbs(token);
    LastVerbs(token);
    if FromUtf8(token).None? {
      NoTextNoVerb(token);
    }
  }

  lemma NoTextNoVerb(token: seq<Byte>)
    requires FromUtf8(token).None?
    ensures Named(token) == Unknown
  {
    NoTextNoWord(token, EHLO, "EHLO");
    NoTextNoWord(token, HELO, "HELO");
    NoTextNoWord(token, MAIL, "MAIL");
    NoTextNoWord(token, RCPT, "RCPT");
    NoTextNoWord(token, DATA, "DATA");
    NoTextNoWord(token, RSET, "RSET");
    NoTextNoWord(token, NOOP, "NOOP");
    NoTextNoWord(token, QUIT, "QUIT");
  }

  lemma NoTextNoWord(token: seq<Byte>, verb: seq<Byte>, word: string)
    requires FromUtf8(token).None? && Codes(verb, word)
    ensures !Spells(token, word)
  {
    UpperIsSpelling(token, verb, word);
  }

  lemma SpelledHello(token: seq<Byte>)
    requires SpellsOne(token, ["EHLO", "HELO"])
    ensures Named(token).Hello? && |token| == 4 && Ascii(token)
  {
    if Spells(token, "EHLO") {
      SpelledIsUpper(token, EHLO, "EHLO");
    } else {
      assert Spells(token, "HELO");
      SpelledIsUpper(token, HELO, "HELO");
    }
  }

  /** A line announces a message if and only if there is nothing else on it. */
  lemma DataLineMeans(line: seq<Byte>)
    ensures IsDataOnlyLine(line) <==> Spells(Trim(line), "DATA")
  {
    LastVerbs(Trim(line));
  }

  /** The proxy takes a line for the terminator if and only if it is one dot between blanks. */
  lemma TerminatorMeans(line: seq<Byte>)
    ensures IsTerminator(line) <==> Trim(line) == [46]
  {
  }

  /** Tab, line feed, form feed, carriage return and space are blanks. */
  lemma BlanksAre(b: Byte)
    ensures IsAsciiWhitespace(b) <==> b in [9, 10, 12, 13, 32]
  {
  }

  // ---------------------------------------------------------------- the greeting

  /** A name as it stands in a greeting: ASCII without whitespace. */
  predicate PlainName(name: seq<Byte>) {
    name != [] && Ascii(name) && forall i :: 0 <= i < |name| ==> !IsWhitespace(name[i] as char)
  }

  lemma BlankIsText(b: Byte)
    requires IsAsciiWhitespace(b)
    ensures b < 128 && IsWhitespace(b as char)
  {
  }

  /** The second word of a text: what stands between the whitespace after the first word and the next whitespace. */
  predicate IsSecondWord(text: string, first: string, gap: string, word: string, rest: string) {
    && text == first + (gap + (word + rest))
    && (first == "" || OneWord(first)) && BlankText(gap) && gap != "" && OneWord(word)
    && (rest != "" ==> IsWhitespace(rest[0]))
  }

  lemma SecondWordFinds(text: string, first: string, gap: string, word: string, rest: string)
    requires IsSecondWord(text, first, gap, word, rest)
    ensures SecondWord(text) == Some(word)
  {
    var tail := gap[1..] + (word + rest);
    WordFinds(first, gap + (word + rest));
    AfterFirst(text, first, gap, word + rest, tail);
    TextStartFinds(gap[1..], word + rest);
    WordFinds(word, rest);
  }

  lemma AfterFirst(text: string, first: string, gap: string, rest: string, tail: string)
    requires text == first + (gap + rest) && gap != "" && tail == gap[1..] + rest
    ensures |text| > |first| && text[|first| + 1..] == tail
  {
  }

  lemma {:induction false} TextStartSplits(s: string) returns (gap: string)
    ensures s == gap + TrimTextStart(s) && BlankText(gap)
  {
    gap := "";
    if s != "" && IsWhitespace(s[0]) {
      var g := TextStartSplits(s[1..]);
      gap := [s[0]] + g;
    }
  }

  /** Conversely, what is found is the second word. */
  lemma SecondWordSplits(text: string) returns (first: string, gap: string, rest: string)
    requires SecondWord(text).Some?
    ensures IsSecondWord(text, first, gap, SecondWord(text).value, rest)
  {
    first := Word(text);
    var c, tail := text[|first|], text[|first| + 1..];
    var g := TextStartSplits(tail);
    var trimmed := TrimTextStart(tail);
    var word := Word(trimmed);
    gap, rest := [c] + g, trimmed[|word|..];
    SplitsAt(text, first, c, tail);
    Pieces(text, first, c, tail, g, trimmed, word, rest);
  }

  lemma SplitsAt(text: string, first: string, c: char, tail: string)
    requires |first| < |text| && first == text[..|first|] && c == text[|first|] && tail == text[|first| + 1..]
    ensures text == first + [c] + tail
  {
  }

  lemma Pieces(text: string, first: string, c: char, tail: string, g: string, trimmed: string, word: string, rest: string)
    requires text == first + [c] + tail && tail == g + trimmed && trimmed == word + rest
    requires (first == "" || OneWord(first)) && IsWhitespace(c) && BlankText(g) && OneWord(word)
    requires rest != "" ==> IsWhitespace(rest[0])
    ensures IsSecondWord(text, first, [c] + g, word, rest)
  {
    assert text == first + ([c] + g + (word + rest));
  }

  /** A greeting names a domain if and only if its trimmed text has a second word, and then that word. */
  lemma DomainIsSecondWord(line: seq<Byte>, domain: string)
    ensures ParseHeloDomain(line) == Some(domain) <==>
            FromUtf8(Trim(line)).Some?
            && exists first, gap, rest :: IsSecondWord(FromUtf8(Trim(line)).value, first, gap, domain, rest)
  {
    var decoded := FromUtf8(Trim(line));
    if decoded.Some? {
      SecondWordIff(decoded.value, domain);
    }
  }

  lemma SecondWordIff(text: string, word: string)
    ensures SecondWord(text) == Some(word) <==> exists first, gap, rest :: IsSecondWord(text, first, gap, word, rest)
  {
    if SecondWord(text) == Some(word) {
      var first, gap, rest := SecondWordSplits(text);
    }
    forall first, gap, rest | IsSecondWord(text, first, gap, word, rest)
      ensures SecondWord(text) == Some(word)
    {
      SecondWordFinds(text, first, gap, word, rest);
    }
  }

  lemma CoreSecondWord(verb: seq<Byte>, gap: seq<Byte>, name: seq<Byte>, core: seq<Byte>)
    requires PlainName(verb) && PlainName(name) && Blank(gap) && gap != [] && Ascii(gap)
    requires core == verb + gap + name && Ascii(core)
    ensures SecondWord(Chars(core)) == Some(Chars(name))
  {
    assert Chars(core) == Chars(verb) + (Chars(gap) + (Chars(name) + ""));
    assert BlankText(Chars(gap));
    SecondWordFinds(Chars(core), Chars(verb), Chars(gap), Chars(name), "");
  }

  lemma DomainIsRead(line: seq<Byte>, core: seq<Byte>, word: string)
    requires Ascii(core) && Trim(line) == core && SecondWord(Chars(core)) == Some(word)
    ensures ParseHeloDomain(line) == Some(word)
  {
    AsciiDecodes(core);
  }

  lemma VerbIsRead(line: seq<Byte>, verb: seq<Byte>, core: seq<Byte>)
    requires SpellsOne(verb, ["EHLO", "HELO"]) && |verb| == 4 && verb <= core && Trim(line) == core
    ensures Classify(line).Hello? && !IsDataOnlyLine(line) && !IsTerminator(line)
  {
    assert core[..4] == verb;
    SpelledHello(verb);
    VerbIsFirstFour(line);
    InputIsCoherent(line);
    HelloIsNoDot(line);
  }

  lemma HelloIsNoDot(line: seq<Byte>)
    requires |Trim(line)| >= 4
    ensures !IsTerminator(line)
  {
  }

  /**
    EHLO or HELO in any letter case, a name after at least one blank, and blanks around: the
    proxy reads a greeting for exactly that name.
   */
  lemma GreetingIsRead(line: seq<Byte>, before: seq<Byte>, verb: seq<Byte>, gap: seq<Byte>, name: seq<Byte>,
                       after: seq<Byte>)
    requires line == before + (verb + gap + name) + after
    requires Blank(before) && Blank(gap) && gap != [] && Blank(after) && PlainName(name)
    requires SpellsOne(verb, ["EHLO", "HELO"])
    ensures Ascii(name)
    ensures ReadInput(line) == Input(line, Hello, Some(Chars(name)), false, false)
  {
    var core := verb + gap + name;
    GreetingCore(verb, gap, name, core);
    TrimFinds(line, before, core, after);
    VerbIsRead(line, verb, core);
    CoreSecondWord(verb, gap, name, core);
    DomainIsRead(line, core, Chars(name));
  }

  lemma GreetingCore(verb: seq<Byte>, gap: seq<Byte>, name: seq<Byte>, core: seq<Byte>)
    requires Blank(gap) && gap != [] && PlainName(name) && SpellsOne(verb, ["EHLO", "HELO"]) && core == verb + gap + name
    ensures |verb| == 4 && verb <= core && PlainName(verb) && Ascii(gap) && Ascii(core) && SolidEnds(core)
  {
    SpelledHello(verb);
    var word := if Spells(verb, "EHLO") then "EHLO" else "HELO";
    assert Spells(verb, word);
    forall i | 0 <= i < |verb|
      ensures !IsWhitespace(verb[i] as char) && !IsAsciiWhitespace(verb[i])
    {
      assert SpellsLetter(verb[i], word[i]) && 'A' <= word[i] <= 'Z';
    }
    var last := name[|name| - 1];
    if IsAsciiWhitespace(last) {
      BlankIsText(last);
    }
  }
}
