/** A whole session that the trimmed comparison ends: a greeting, DATA, and one line of mail text. */
module SmtpPaddedDot {
  import opened Bytes
  import opened Wrappers
  import opened Smtp
  import opened SmtpDialogue
  import opened SmtpLines
  import Text
  import opened SmtpLockstep

  const DATA_LINE: seq<Byte> := [68, 65, 84, 65, CR, LF]

  lemma DataLineIsRead()
    ensures ReadInput(DATA_LINE) == Input(DATA_LINE, Relayed, ParseHeloDomain(DATA_LINE), true, false)
  {
    TrimFinds(DATA_LINE, [], DATA, [CR, LF]);
    assert DATA[..4] == DATA && Spells(DATA, "DATA");
    VerbIsFirstFour(DATA_LINE);
    DataLineMeans(DATA_LINE);
  }

  /** All I/O of the turn works; the backend greets with 220 when dialled and replies with `reply`. */
  predicate WorkingTurn(io: Io, reply: seq<Byte>) {
    io.write.All? && io.client && Dialled(io.banner) && io.reply == Some(reply) && reply != []
  }

  /** A client that greets, announces a message, and sends one line of it. */
  function ThreeTurns(greeting: Input, io0: Io, io1: Io, line: seq<Byte>, io2: Io): seq<Turn> {
    [Turn(greeting, io0), Turn(ReadInput(DATA_LINE), io1), Turn(ReadInput(line), io2)]
  }

  function Greeted(greeting: Input, io: Io, endpoint: string): Session
    requires greeting.domain.Some? && io.reply.Some?
  {
    Session(false, greeting.domain, Some(0), [Backend(endpoint, greeting.domain.value, greeting.line)],
            [Greeting, Block(io.reply.value)], true)
  }

  lemma GreetingStep(greeting: Input, io: Io, reply: seq<Byte>, endpoint: string)
    requires greeting.verb.Hello? && greeting.domain.Some? && !greeting.dataOnly && |greeting.line| <= 10_485_760
    requires WorkingTurn(io, reply) && io.route(greeting.domain.value) == Some(endpoint)
    ensures HandleLine(Fresh, greeting, io) == Greeted(greeting, io, endpoint)
  {
    assert [] + greeting.line == greeting.line;
  }

  lemma DataTurn(s: Session, io: Io, reply: seq<Byte>)
    requires AtHead(s) && s.open && !s.data && s.backend.Some? && WorkingTurn(io, reply) && StartsWith(reply, [51, 53, 52])
    ensures var s' := HandleLine(s, ReadInput(DATA_LINE), io);
            s'.open && s'.data && AtHead(s') && s'.replies == s.replies + [Block(reply)]
  {
    DataLineIsRead();
    CommandStep(s, ReadInput(DATA_LINE), io);
  }

  lemma RunThree(a: Turn, b: Turn, c: Turn)
    requires HandleLine(Fresh, a.input, a.io).open
    requires HandleLine(HandleLine(Fresh, a.input, a.io), b.input, b.io).open
    ensures Run(Fresh, [a, b, c]) == HandleLine(HandleLine(HandleLine(Fresh, a.input, a.io), b.input, b.io), c.input, c.io)
  {
    var s1 := HandleLine(Fresh, a.input, a.io);
    var s2 := HandleLine(s1, b.input, b.io);
    var s3 := HandleLine(s2, c.input, c.io);
    assert [a, b, c][1..] == [b, c] && [b, c][1..] == [c] && [c][1..] == [];
    assert Run(s3, []) == s3 && Run(s2, [c]) == s3 && Run(s1, [b, c]) == s3;
  }

  /**
    From a fresh session, for every greeting that is understood and every first body line that
    trims to a dot without being the terminator: the backend is still reading the message, and
    the client has been sent 421.
   */
  lemma MistakenLineEndsSession(greeting: Input, io0: Io, r0: seq<Byte>, endpoint: string, io1: Io, r1: seq<Byte>,
                                line: seq<Byte>, io2: Io)
    requires greeting.verb.Hello? && greeting.domain.Some? && !greeting.dataOnly && |greeting.line| <= 10_485_760
    requires WorkingTurn(io0, r0) && io0.route(greeting.domain.value) == Some(endpoint)
    requires WorkingTurn(io1, r1) && StartsWith(r1, [51, 53, 52])
    requires FalseTerminator(LineStart, ReadInput(line)) && Working(LineStart, ReadInput(line), io2)
    ensures var s := Run(Fresh, ThreeTurns(greeting, io0, io1, line, io2));
            && !s.open && s.replies == [Greeting, Block(r0), Block(r1), Unavailable421]
            && FeedAll(LineStart, line).Reading?
  {
    GreetingStep(greeting, io0, r0, endpoint);
    var s1 := Greeted(greeting, io0, endpoint);
    DataTurn(s1, io1, r1);
    var s2 := HandleLine(s1, ReadInput(DATA_LINE), io1);
    BodyLineSurvives(s2, LineStart, ReadInput(line), io2);
    RunThree(Turn(greeting, io0), Turn(ReadInput(DATA_LINE), io1), Turn(ReadInput(line), io2));
  }

  /** In particular the line with a space before its dot, after any greeting line with a name. */
  lemma PaddedDotEndsSession(hello: seq<Byte>, before: seq<Byte>, verb: seq<Byte>, gap: seq<Byte>, name: seq<Byte>,
                             after: seq<Byte>, io0: Io, r0: seq<Byte>, endpoint: string, io1: Io, r1: seq<Byte>, io2: Io)
    requires hello == before + (verb + gap + name) + after && |hello| <= 10_485_760
    requires Blank(before) && Blank(gap) && gap != [] && Blank(after) && PlainName(name) && SpellsOne(verb, ["EHLO", "HELO"])
    requires WorkingTurn(io0, r0) && io0.route(Text.Chars(name)) == Some(endpoint)
    requires WorkingTurn(io1, r1) && StartsWith(r1, [51, 53, 52])
    requires io2.write.All? && io2.client && io2.reply.None?
    ensures Run(Fresh, ThreeTurns(ReadInput(hello), io0, io1, PADDED_DOT, io2)).replies
            == [Greeting, Block(r0), Block(r1), Unavailable421]
  {
    GreetingIsRead(hello, before, verb, gap, name, after);
    PaddedDotIsMistaken();
    MistakenLineEndsSession(ReadInput(hello), io0, r0, endpoint, io1, r1, PADDED_DOT, io2);
  }
}
