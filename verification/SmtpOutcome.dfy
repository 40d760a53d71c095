/**
  What each line leads to, told by the names of the verbs and the codes on the wire: which lines
  leave the session open, what is answered to them, and which are refused without being forwarded.
 */
module SmtpOutcome {
  import opened Bytes
  import opened Wrappers
  import opened Smtp
  import opened SmtpDialogue
  import opened SmtpLines

  /** The line goes out whole, a reply comes, and the client can be sent it. */
  predicate Exchanged(io: Io) {
    io.write == All && io.reply.Some? && io.reply.value != [] && io.client
  }

  /** The dialled server introduces itself with 220, blanks before it aside. */
  predicate Introduced(banner: Option<seq<Byte>>) {
    banner.Some? && [50, 50, 48] <= Trim(banner.value)
  }

  lemma DialledMeans(banner: Option<seq<Byte>>)
    ensures Dialled(banner) <==> Introduced(banner)
  {
  }

  /** Outside a body: does the line leave the session open? */
  predicate CommandSucceeds(s: Session, line: seq<Byte>, io: Io) {
    match Named(FirstFour(line))
    case Unknown => io.client
    case Quit => false
    case Relayed => s.backend.Some? && Exchanged(io)
    case Hello =>
      match ParseHeloDomain(line)
      case None => io.client
      case Some(name) => io.route(name).Some? && Introduced(io.banner) && Exchanged(io)
  }

  /** Inside one: it goes out whole, and if it is a dot the reply is read and passed on. */
  predicate BodyLineSucceeds(s: Session, line: seq<Byte>, io: Io) {
    && s.backend.Some? && io.write == All
    && (Trim(line) == [46] ==> io.reply.Some? && (io.reply.value == [] || io.client))
  }

  lemma CommandOpen(s: Session, line: seq<Byte>, io: Io)
    requires Linked(s) && s.open && !s.data && |line| <= 10_485_760
    ensures HandleLine(s, ReadInput(line), io).open <==> CommandSucceeds(s, line, io)
  {
    VerbIsFirstFour(line);
    DialledMeans(io.banner);
  }

  lemma BodyOpen(s: Session, line: seq<Byte>, io: Io)
    requires Linked(s) && s.open && s.data && |line| <= 10_485_760
    ensures HandleLine(s, ReadInput(line), io).open <==> BodyLineSucceeds(s, line, io)
  {
  }

  /** A session goes on after a line if and only if the line is not too long and succeeds. */
  lemma OpenExactly(s: Session, line: seq<Byte>, io: Io)
    requires Linked(s) && s.open
    ensures HandleLine(s, ReadInput(line), io).open <==>
            |line| <= 10_485_760 && if s.data then BodyLineSucceeds(s, line, io) else CommandSucceeds(s, line, io)
  {
    if |line| <= 10_485_760 {
      if s.data {
        BodyOpen(s, line, io);
      } else {
        CommandOpen(s, line, io);
      }
    }
  }

  /** What the client is sent for a line after which the session goes on: refusals by the proxy, the rest word for word. */
  function Due(s: Session, line: seq<Byte>, io: Io): seq<Answer> {
    var reply := if io.reply.Some? then io.reply.value else [];
    if s.data then
      if Trim(line) == [46] && reply != [] then [Block(reply)] else []
    else if Named(FirstFour(line)).Unknown? then [Unknown500]
    else if Named(FirstFour(line)).Hello? && ParseHeloDomain(line).None? then [Syntax501]
    else [Block(reply)]
  }

  lemma CommandDue(s: Session, line: seq<Byte>, io: Io)
    requires AtHead(s) && s.open && !s.data && |line| <= 10_485_760 && CommandSucceeds(s, line, io)
    ensures HandleLine(s, ReadInput(line), io).replies == s.replies + Due(s, line, io)
  {
    VerbIsFirstFour(line);
    CommandOpen(s, line, io);
    InputIsCoherent(line);
    match Classify(line)
    case Hello => HeloStep(s, ReadInput(line), io);
    case Relayed => CommandStep(s, ReadInput(line), io);
    case _ =>
  }

  lemma BodyDue(s: Session, line: seq<Byte>, io: Io)
    requires AtHead(s) && s.open && s.data && |line| <= 10_485_760 && BodyLineSucceeds(s, line, io)
    ensures HandleLine(s, ReadInput(line), io).replies == s.replies + Due(s, line, io)
  {
    assert s.replies + [] == s.replies;
  }

  /**
    Refusals, outside a body and with the client there: a line is answered 500 if and only if
    its first four bytes spell no verb, and 501 if and only if it is a greeting without a second
    word. Either way nothing is sent to any backend and the session goes on.
   */
  lemma RefusedExactly(s: Session, line: seq<Byte>, io: Io)
    requires AtHead(s) && s.open && !s.data && |line| <= 10_485_760 && io.client
    ensures var s' := HandleLine(s, ReadInput(line), io);
            && (s'.replies == s.replies + [Unknown500] <==> Named(FirstFour(line)).Unknown?)
            && (s'.replies == s.replies + [Syntax501] <==> Named(FirstFour(line)).Hello? && ParseHeloDomain(line).None?)
            && (Named(FirstFour(line)).Unknown? || (Named(FirstFour(line)).Hello? && ParseHeloDomain(line).None?) ==>
                  s' == s.(replies := s'.replies))
  {
    VerbIsFirstFour(line);
    var s' := HandleLine(s, ReadInput(line), io);
    var n := |s.replies|;
    if CommandSucceeds(s, line, io) {
      CommandDue(s, line, io);
      assert s'.replies[n..] == Due(s, line, io);
    } else {
      FailedCommand(s, line, io);
    }
    LastOf(s.replies, Unknown500);
    LastOf(s.replies, Syntax501);
  }

  lemma LastOf(replies: seq<Answer>, a: Answer)
    ensures (replies + [a])[|replies|..] == [a]
  {
  }

  /** A command that fails, QUIT included, is answered by the backend or with 421. */
  lemma FailedCommand(s: Session, line: seq<Byte>, io: Io)
    requires AtHead(s) && s.open && !s.data && io.client && |line| <= 10_485_760 && !CommandSucceeds(s, line, io)
    ensures var s' := HandleLine(s, ReadInput(line), io);
            |s'.replies| == |s.replies| + 1 && (s'.replies[|s.replies|].Block? || s'.replies[|s.replies|].Unavailable421?)
  {
    VerbIsFirstFour(line);
    CommandOpen(s, line, io);
  }

  /**
    The whole table: after a line that succeeds the session is open, the client has been sent
    what was due, and the wires and the state are those the observer expects.
   */
  lemma LineSucceeds(s: Session, line: seq<Byte>, io: Io)
    requires AtHead(s) && s.open && |line| <= 10_485_760
    requires if s.data then BodyLineSucceeds(s, line, io) else CommandSucceeds(s, line, io)
    ensures var s' := HandleLine(s, ReadInput(line), io);
            && s'.open && AtHead(s') && s'.replies == s.replies + Due(s, line, io)
            && Seen(s') == Watch(Seen(s), Exchange(ReadInput(line), Due(s, line, io)))
  {
    OpenExactly(s, line, io);
    InputIsCoherent(line);
    OpenStep(s, ReadInput(line), io);
    if s.data {
      BodyDue(s, line, io);
    } else {
      CommandDue(s, line, io);
    }
    var s' := HandleLine(s, ReadInput(line), io);
    assert s'.replies[|s.replies|..] == Due(s, line, io);
  }
}
