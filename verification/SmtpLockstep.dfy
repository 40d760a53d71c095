/**
  The proxy against a backend that follows RFC 5321: section 4.1.1.4 (354 answers DATA and
  starts mail input, which CR LF . CR LF ends) and section 4.5.2 (a dot alone on a line).
  The backend reads bytes, not lines; the proxy decides line by line.
 */
module SmtpLockstep {
  import opened Bytes
  import opened Wrappers
  import opened Smtp
  import opened SmtpDialogue

  // ---------------------------------------------------------------- the backend

  /** How much of CR LF . CR LF the backend has just seen while it reads mail input. */
  datatype Pos = LineStart | Dot | DotCr | Cr | Other

  /** A backend takes commands, reads mail input, or has hung up. */
  datatype Peer = Commanding | Reading(pos: Pos) | Ended | Hungup

  /** One byte of mail input; `Ended` is the moment the terminator is complete. */
  function Feed(pos: Pos, b: Byte): (r: Peer)
    ensures r.Reading? || r.Ended?
  {
    if b == LF then
      match pos
      case DotCr => Ended
      case Cr => Reading(LineStart)
      case _ => Reading(Other)
    else if b == CR then Reading(if pos.Dot? then DotCr else Cr)
    else if b == DOT && pos.LineStart? then Reading(Dot)
    else Reading(Other)
  }

  /** Bytes after the terminator would be the next command; a client line has none. */
  function FeedAll(pos: Pos, bytes: seq<Byte>): (r: Peer)
    ensures r.Reading? || r.Ended?
    decreases |bytes|
  {
    if bytes == [] then Reading(pos)
    else
      var next := Feed(pos, bytes[0]);
      if next.Reading? then FeedAll(next.pos, bytes[1..]) else next
  }

  /** What `read_until(LF)` yields: no line feed except as the last byte. */
  predicate IsLine(line: seq<Byte>) {
    line != [] && forall i :: 0 <= i < |line| - 1 ==> line[i] != LF
  }

  const DOT_LINE: seq<Byte> := [DOT, CR, LF]

  /** How far the terminator must still be away for this line to complete it. */
  predicate Completes(pos: Pos, line: seq<Byte>) {
    match pos
    case LineStart => line == DOT_LINE
    case Dot => line == [CR, LF]
    case DotCr => line == [LF]
    case _ => false
  }

  /**
    The backend ends mail input on a line exactly when the line is a dot alone after a CR LF
    (`LineStart`); any other complete line leaves it reading, at a line start exactly if the
    line ends in CR LF.
   */
  lemma {:induction false} LineToBackend(pos: Pos, line: seq<Byte>)
    requires IsLine(line) && line[|line| - 1] == LF
    ensures FeedAll(pos, line) ==
            if Completes(pos, line) then Ended
            else if (if |line| == 1 then pos.Cr? else line[|line| - 2] == CR) then Reading(LineStart)
            else Reading(Other)
    decreases |line|
  {
    if |line| > 1 {
      var tail := line[1..];
      assert IsLine(tail) && tail[|tail| - 1] == LF;
      assert line == [line[0]] + tail;
      LineToBackend(Feed(pos, line[0]).pos, tail);
    }
  }

  /** Mail input only ever ends on such a line, complete or not. */
  lemma {:induction false} OnlyTerminatorEnds(pos: Pos, line: seq<Byte>)
    requires IsLine(line) && FeedAll(pos, line).Ended?
    ensures Completes(pos, line)
    decreases |line|
  {
    if line[|line| - 1] == LF {
      LineToBackend(pos, line);
    } else {
      NoLineFeedNoEnd(pos, line);
    }
  }

  lemma {:induction false} NoLineFeedNoEnd(pos: Pos, bytes: seq<Byte>)
    requires forall i :: 0 <= i < |bytes| ==> bytes[i] != LF
    ensures FeedAll(pos, bytes).Reading?
    decreases |bytes|
  {
    if bytes != [] {
      NoLineFeedNoEnd(Feed(pos, bytes[0]).pos, bytes[1..]);
    }
  }

  lemma DotLineIsTerminator()
    ensures IsTerminator(DOT_LINE)
  {
    assert DOT_LINE[..2] == [DOT, CR] && [DOT, CR][..1] == [DOT];
    assert TrimEnd([DOT]) == [DOT] && TrimEnd([DOT, CR]) == [DOT] && TrimEnd(DOT_LINE) == [DOT];
  }

  // ---------------------------------------------------------------- proxy and backend together

  function Replied(reply: Option<seq<Byte>>): Peer {
    if reply == Some([]) then Hungup
    else if reply.Some? && StartsWith(reply.value, [51, 53, 52]) then Reading(LineStart)
    else Commanding
  }

  /** The current backend after the proxy has handled a line. */
  function PeerAfter(peer: Peer, s: Session, input: Input, io: Io): Peer {
    if s.data then
      if !peer.Reading? then peer
      else if input.terminator && io.reply == Some([]) then Hungup
      else
        var fed := FeedAll(peer.pos, input.line);
        if fed.Ended? then Commanding else fed
    else
      match input.verb
      case Hello => if input.domain.None? then peer else Replied(io.reply)
      case Relayed => Replied(io.reply)
      case Quit => Replied(io.reply)
      case Unknown => peer
  }

  /**
    The backend keeps to the standard: it says 354 only to DATA, it says nothing while it reads
    mail input, and once it has hung up a read finds the end of the stream.
   */
  predicate Conforms(peer: Peer, s: Session, input: Input, io: Io) {
    if s.data then
      && (peer.Reading? && FeedAll(peer.pos, input.line).Reading? ==> io.reply.None? || io.reply == Some([]))
      && (peer.Hungup? ==> io.reply.None? || io.reply == Some([]))
    else
      && (io.reply.Some? && StartsWith(io.reply.value, [51, 53, 52]) ==> input.dataOnly)
      && (peer.Hungup? && !input.verb.Hello? ==> io.reply.None? || io.reply == Some([]))
  }

  predicate ConformingScript(peer: Peer, s: Session, script: seq<Turn>)
    requires Linked(s)
    decreases |script|
  {
    script != [] && s.open ==>
      var Turn(input, io) := script[0];
      Conforms(peer, s, input, io)
      && ConformingScript(PeerAfter(peer, s, input, io), HandleLine(s, input, io), script[1..])
  }

  function PeerRun(peer: Peer, s: Session, script: seq<Turn>): Peer
    requires Linked(s)
    decreases |script|
  {
    if script == [] || !s.open then peer
    else
      var Turn(input, io) := script[0];
      PeerRun(PeerAfter(peer, s, input, io), HandleLine(s, input, io), script[1..])
  }

  /** Lines cut out of one stream: only the last may lack its line feed. */
  predicate FromStream(script: seq<Turn>) {
    forall i :: 0 <= i < |script| ==>
      IsLine(script[i].input.line) && (i < |script| - 1 ==> script[i].input.line[|script[i].input.line| - 1] == LF)
  }

  /** Both sides agree, and the backend is between two lines if more lines are to come. */
  predicate Together(peer: Peer, s: Session, more: bool) {
    && (s.data <==> peer.Reading?)
    && (peer.Reading? && more ==> peer.pos.LineStart? || peer.pos.Other?)
  }

  lemma TogetherInData(peer: Peer, s: Session, input: Input, io: Io, more: bool)
    requires AtHead(s) && s.open && s.data && Together(peer, s, true) && Conforms(peer, s, input, io)
    requires IsLine(input.line) && (more ==> input.line[|input.line| - 1] == LF)
    requires input.line == DOT_LINE ==> input.terminator
    requires HandleLine(s, input, io).open
    ensures Together(PeerAfter(peer, s, input, io), HandleLine(s, input, io), more)
  {
    if FeedAll(peer.pos, input.line).Ended? {
      OnlyTerminatorEnds(peer.pos, input.line);
    } else if more {
      LineToBackend(peer.pos, input.line);
    }
  }

  lemma TogetherInCommand(peer: Peer, s: Session, input: Input, io: Io, more: bool)
    requires AtHead(s) && s.open && !s.data && Together(peer, s, true) && Conforms(peer, s, input, io)
    requires Coherent(input) && HandleLine(s, input, io).open
    ensures Together(PeerAfter(peer, s, input, io), HandleLine(s, input, io), more)
  {
  }

  predicate DotsAreTerminators(script: seq<Turn>) {
    forall i :: 0 <= i < |script| ==> script[i].input.line == DOT_LINE ==> script[i].input.terminator
  }

  lemma {:induction false} StayTogether(peer: Peer, s: Session, script: seq<Turn>)
    requires Linked(s) && AtHead(s) && Together(peer, s, script != [])
    requires CoherentScript(script) && DotsAreTerminators(script) && FromStream(script)
    requires ConformingScript(peer, s, script) && Run(s, script).open
    ensures Run(s, script).data <==> PeerRun(peer, s, script).Reading?
    decreases |script|
  {
    if script != [] && s.open {
      var Turn(input, io) := script[0];
      var s' := HandleLine(s, input, io);
      var more := script[1..] != [];
      OpenStep(s, input, io);
      if s.data {
        TogetherInData(peer, s, input, io, more);
      } else {
        TogetherInCommand(peer, s, input, io, more);
      }
      StayTogether(PeerAfter(peer, s, input, io), s', script[1..]);
    }
  }

  /**
    Lockstep: over every session with a conforming backend, including repeated EHLO and any
    number of messages, the proxy is in Data state at a loop head exactly when the current
    backend is reading mail input.
   */
  lemma Lockstep(script: seq<Turn>)
    requires Genuine(script) && FromStream(script)
    requires ConformingScript(Commanding, Fresh, script) && Run(Fresh, script).open
    ensures Run(Fresh, script).data <==> PeerRun(Commanding, Fresh, script).Reading?
  {
    GenuineIsCoherent(script);
    DotLineIsTerminator();
    StayTogether(Commanding, Fresh, script);
  }

  // ---------------------------------------------------------------- lines mistaken for the terminator

  /**
    The proxy trims before it compares, so it takes a padded dot, or a dot after a bare line
    feed, for the terminator; the backend does not end mail input on it.
   */
  predicate FalseTerminator(pos: Pos, input: Input) {
    input.terminator && !FeedAll(pos, input.line).Ended?
  }

  /** At a line start or in the middle of a line, only a dot line after CR LF is no such line. */
  lemma FalseTerminators(pos: Pos, line: seq<Byte>)
    requires IsLine(line) && (pos.LineStart? || pos.Other?)
    ensures FalseTerminator(pos, ReadInput(line)) <==> IsTerminator(line) && !(pos.LineStart? && line == DOT_LINE)
  {
    if FeedAll(pos, line).Ended? {
      OnlyTerminatorEnds(pos, line);
    } else if pos.LineStart? && line == DOT_LINE {
      LineToBackend(pos, line);
    }
  }

  /** All I/O works, and the backend answers exactly when it has read a whole message. */
  predicate Working(pos: Pos, input: Input, io: Io) {
    && io.write.All? && io.client && |input.line| <= 10_485_760
    && (if FeedAll(pos, input.line).Ended? then io.reply.Some? && io.reply.value != [] else io.reply.None?)
  }

  /** Such a line, and no other, ends the session: with 421, while the message is incomplete. */
  lemma BodyLineSurvives(s: Session, pos: Pos, input: Input, io: Io)
    requires AtHead(s) && s.open && s.data && Working(pos, input, io)
    ensures HandleLine(s, input, io).open <==> !FalseTerminator(pos, input)
    ensures FalseTerminator(pos, input) ==> HandleLine(s, input, io).replies == s.replies + [Unavailable421]
  {
  }

  /** Where the backend stands after a complete line that did not end the message. */
  function PosAfter(line: seq<Byte>): Pos {
    if |line| >= 2 && line[|line| - 2] == CR then LineStart else Other
  }

  lemma BackendStandsAt(pos: Pos, line: seq<Byte>)
    requires IsLine(line) && line[|line| - 1] == LF && (pos.LineStart? || pos.Other?)
    ensures FeedAll(pos, line) == if pos.LineStart? && line == DOT_LINE then Ended else Reading(PosAfter(line))
  {
    LineToBackend(pos, line);
  }

  /** A message body over working I/O, read by the backend byte by byte; what it takes for the end is the last line. */
  predicate WorkingBody(pos: Pos, script: seq<Turn>)
    decreases |script|
  {
    script != [] ==>
      var fed := FeedAll(pos, script[0].input.line);
      && Working(pos, script[0].input, script[0].io)
      && (if fed.Reading? then WorkingBody(fed.pos, script[1..]) else |script| == 1)
  }

  predicate NoFalseTerminator(pos: Pos, script: seq<Turn>)
    decreases |script|
  {
    script != [] ==>
      var fed := FeedAll(pos, script[0].input.line);
      !FalseTerminator(pos, script[0].input) && (fed.Reading? ==> NoFalseTerminator(fed.pos, script[1..]))
  }

  /** A line that is not mistaken leaves the session open, and in Data state until the message ends. */
  lemma BodyGoesOn(s: Session, pos: Pos, input: Input, io: Io)
    requires AtHead(s) && s.open && s.data && Working(pos, input, io) && Coherent(input) && !FalseTerminator(pos, input)
    ensures var s' := HandleLine(s, input, io);
            s'.open && AtHead(s') && (FeedAll(pos, input.line).Reading? ==> s'.data)
  {
    BodyLineSurvives(s, pos, input, io);
    OpenStep(s, input, io);
  }

  /** A message passes if and only if none of its lines is mistaken for the terminator. */
  lemma {:induction false} MessageSurvives(s: Session, pos: Pos, script: seq<Turn>)
    requires Linked(s) && AtHead(s) && s.open && (script != [] ==> s.data)
    requires CoherentScript(script) && WorkingBody(pos, script)
    ensures Run(s, script).open <==> NoFalseTerminator(pos, script)
    decreases |script|
  {
    if script != [] {
      var Turn(input, io) := script[0];
      var s', fed := HandleLine(s, input, io), FeedAll(pos, input.line);
      if FalseTerminator(pos, input) {
        BodyLineSurvives(s, pos, input, io);
      } else {
        BodyGoesOn(s, pos, input, io);
        MessageSurvives(s', if fed.Reading? then fed.pos else pos, script[1..]);
      }
    }
  }

  /** A body whose lines all end in CR LF passes when no line but a dot alone trims to a dot. */
  lemma {:induction false} PlainBodySurvives(script: seq<Turn>)
    requires FromStream(script)
    requires forall i :: 0 <= i < |script| ==>
               && script[i].input.line[|script[i].input.line| - 1] == LF && PosAfter(script[i].input.line) == LineStart
               && (script[i].input.terminator ==> script[i].input.line == DOT_LINE)
    ensures NoFalseTerminator(LineStart, script)
    decreases |script|
  {
    if script != [] {
      BackendStandsAt(LineStart, script[0].input.line);
      PlainBodySurvives(script[1..]);
    }
  }

  const PADDED_DOT: seq<Byte> := [32, DOT, CR, LF]

  /** A body line ` .` is mail text to the backend and the terminator to the proxy. */
  lemma PaddedDotIsMistaken()
    ensures FalseTerminator(LineStart, ReadInput(PADDED_DOT))
    ensures FeedAll(LineStart, PADDED_DOT) == Reading(LineStart)
  {
    assert PADDED_DOT[1..] == DOT_LINE;
    assert TrimStart(PADDED_DOT) == TrimStart(DOT_LINE) == DOT_LINE;
    DotLineIsTerminator();
    LineToBackend(LineStart, PADDED_DOT);
  }
}
