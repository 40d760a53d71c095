/**
  One SMTP session of the proxy: the Command/Data state, the EHLO domain, the backend
  connection that a later EHLO replaces, and what is written to either side.

  Every line the client sends comes with the outcomes of the I/O the proxy attempts while it
  handles that line (`Io`), so a script of lines and outcomes determines the session.
 */
module Smtp {
  import opened Bytes
  import opened Wrappers
  import Text

  const PACKAGE_MAX_LENGTH: nat := 10 * 1024 * 1024

  const EHLO: seq<Byte> := [69, 72, 76, 79]
  const HELO: seq<Byte> := [72, 69, 76, 79]
  const MAIL: seq<Byte> := [77, 65, 73, 76]
  const RCPT: seq<Byte> := [82, 67, 80, 84]
  const DATA: seq<Byte> := [68, 65, 84, 65]
  const RSET: seq<Byte> := [82, 83, 69, 84]
  const NOOP: seq<Byte> := [78, 79, 79, 80]
  const QUIT: seq<Byte> := [81, 85, 73, 84]

  const GREETING_CODE: seq<Byte> := [50, 50, 48]    // "220"
  const DATA_READY_CODE: seq<Byte> := [51, 53, 52]  // "354"
  const TERMINATOR: seq<Byte> := [DOT]

  // ---------------------------------------------------------------- reading a line

  datatype Verb = Hello | Relayed | Quit | Unknown

  /** First four trimmed bytes in upper case; empty when they are not UTF-8. */
  function CommandToken(line: seq<Byte>): seq<Byte> {
    var trimmed := Trim(line);
    var token := if |trimmed| < 4 then trimmed else trimmed[..4];
    if Text.FromUtf8(token).None? then [] else Upper(token)
  }

  function Classify(line: seq<Byte>): Verb {
    var token := CommandToken(line);
    if token == EHLO || token == HELO then Hello
    else if token == QUIT then Quit
    else if token in [MAIL, RCPT, DATA, RSET, NOOP] then Relayed
    else Unknown
  }

  predicate IsDataOnlyLine(line: seq<Byte>) {
    Upper(Trim(line)) == DATA
  }

  predicate IsTerminator(line: seq<Byte>) {
    Trim(line) == TERMINATOR
  }

  /** What follows the first word, up to the next whitespace. */
  function SecondWord(text: string): (r: Option<string>)
    ensures r.Some? ==> r.value != "" && forall i :: 0 <= i < |r.value| ==> !Text.IsWhitespace(r.value[i])
  {
    var verb := Text.Word(text);
    if |verb| == |text| then None
    else
      var word := Text.Word(Text.TrimTextStart(text[|verb| + 1..]));
      if word == "" then None else Some(word)
  }

  /** The second word of a HELO line. */
  function ParseHeloDomain(line: seq<Byte>): (r: Option<string>)
    ensures r.Some? ==> r.value != "" && forall i :: 0 <= i < |r.value| ==> !Text.IsWhitespace(r.value[i])
  {
    match Text.FromUtf8(Trim(line))
    case None => None
    case Some(text) => SecondWord(text)
  }

  /** A client line and everything the proxy reads in it. */
  datatype Input = Input(
    line: seq<Byte>, verb: Verb, domain: Option<string>, dataOnly: bool, terminator: bool)

  function ReadInput(line: seq<Byte>): Input {
    Input(line, Classify(line), ParseHeloDomain(line), IsDataOnlyLine(line), IsTerminator(line))
  }

  // ---------------------------------------------------------------- the session

  datatype Answer = Greeting | Block(bytes: seq<Byte>) | Unknown500 | Syntax501 | Unavailable421

  /** A backend connection: where it was dialled to, for which domain, and all bytes written to it. */
  datatype Backend = Backend(endpoint: string, domain: string, wire: seq<Byte>)

  datatype Session = Session(
    data: bool,
    domain: Option<string>,
    backend: Option<nat>,      // the current one of `backends`
    backends: seq<Backend>,
    replies: seq<Answer>,
    open: bool)

  /**
    Outcomes while one line is handled: the routing decision, the first read from a freshly
    dialled backend, the write to the backend, the read of its reply, and whether writes to
    the client succeed. A failed or timed-out read is `None`, end of stream is `Some([])`.
   */
  datatype Io = Io(
    route: string -> Option<string>,
    banner: Option<seq<Byte>>,
    write: Written,
    reply: Option<seq<Byte>>,
    client: bool)

  const Fresh := Session(false, None, None, [], [Greeting], true)

  /** The current backend, when set, exists. */
  predicate Linked(s: Session) {
    s.backend.Some? ==> s.backend.value < |s.backends|
  }

  function Answered(s: Session, a: Answer, client: bool): Session {
    if client then s.(replies := s.replies + [a]) else s
  }

  function WriteBackend(s: Session, line: seq<Byte>, w: Written): (r: Session)
    requires Linked(s) && s.backend.Some?
    ensures Linked(r)
  {
    var b := s.backends[s.backend.value];
    s.(backends := s.backends[s.backend.value := b.(wire := b.wire + SentPart(line, w))])
  }

  /** A session together with whether the handler it came from succeeded. */
  datatype Outcome = Outcome(session: Session, ok: bool)

  function ForwardCommand(s: Session, input: Input, io: Io): (r: Outcome)
    requires Linked(s)
    ensures Linked(r.session) && r.session.open == s.open
  {
    if s.backend.None? then Outcome(s, false)
    else
      var written := WriteBackend(s, input.line, io.write);
      if io.write.Partial? || io.reply.None? || io.reply.value == [] || !io.client then Outcome(written, false)
      else
        var answered := written.(replies := written.replies + [Block(io.reply.value)]);
        if input.dataOnly && StartsWith(io.reply.value, DATA_READY_CODE)
        then Outcome(answered.(data := true), true)
        else Outcome(answered, true)
  }

  function ForwardData(s: Session, input: Input, io: Io): (r: Outcome)
    requires Linked(s)
    ensures Linked(r.session) && r.session.open == s.open
  {
    if s.backend.None? then Outcome(s, false)
    else
      var written := WriteBackend(s, input.line, io.write);
      if io.write.Partial? then Outcome(written, false)
      else if !input.terminator then Outcome(written, true)
      else if io.reply.None? then Outcome(written, false)
      else
        var ended := written.(data := false);
        if io.reply.value == [] then Outcome(ended, true)
        else if !io.client then Outcome(ended, false)
        else Outcome(ended.(replies := ended.replies + [Block(io.reply.value)]), true)
  }

  /** Connected, and greeted with 220. */
  predicate Dialled(banner: Option<seq<Byte>>) {
    banner.Some? && banner.value != [] && StartsWith(Trim(banner.value), GREETING_CODE)
  }

  /** A freshly dialled backend replaces the current one. */
  function Attach(s: Session, b: Backend): (r: Session)
    ensures Linked(r)
  {
    s.(domain := Some(b.domain), backends := s.backends + [b], backend := Some(|s.backends|))
  }

  function HandleHelo(s: Session, input: Input, io: Io): (r: Outcome)
    requires Linked(s)
    ensures Linked(r.session) && r.session.open == s.open
  {
    match input.domain
    case None => Outcome(Answered(s, Syntax501, io.client), io.client)
    case Some(name) =>
      var endpoint := io.route(name);
      if endpoint.None? || !Dialled(io.banner) then Outcome(s.(domain := input.domain), false)
      else ForwardCommand(Attach(s, Backend(endpoint.value, name, [])), input, io)
  }

  /** A failed handler is answered with 421 and ends the session. */
  function Conclude(r: Outcome, io: Io): Session {
    if r.ok then r.session else Answered(r.session, Unavailable421, io.client).(open := false)
  }

  function HandleLine(s: Session, input: Input, io: Io): (s': Session)
    requires Linked(s) && s.open
    ensures Linked(s')
  {
    if |input.line| > PACKAGE_MAX_LENGTH then Answered(s, Unavailable421, io.client).(open := false)
    else if s.data then Conclude(ForwardData(s, input, io), io)
    else
      match input.verb
      case Hello => Conclude(HandleHelo(s, input, io), io)
      case Relayed => Conclude(ForwardCommand(s, input, io), io)
      case Quit => Conclude(ForwardCommand(s, input, io), io).(open := false)
      case Unknown => Answered(s, Unknown500, io.client).(open := io.client)
  }

  datatype Turn = Turn(input: Input, io: Io)

  /** The inputs are what the proxy reads in their lines. */
  predicate Genuine(script: seq<Turn>) {
    forall i :: 0 <= i < |script| ==> script[i].input == ReadInput(script[i].input.line)
  }

  /** The session after the lines of `script`; lines after its end are not read. */
  function Run(s: Session, script: seq<Turn>): (s': Session)
    requires Linked(s)
    ensures Linked(s')
    decreases |script|
  {
    if script == [] || !s.open then s
    else Run(HandleLine(s, script[0].input, script[0].io), script[1..])
  }

  /** No greeting line is a DATA line. */
  predicate Coherent(input: Input) {
    input.verb.Hello? ==> !input.dataOnly
  }

  lemma InputIsCoherent(line: seq<Byte>)
    ensures Coherent(ReadInput(line))
  {
    var trimmed := Trim(line);
    if |trimmed| == 4 {
      assert trimmed[..4] == trimmed;
    }
  }

  predicate CoherentScript(script: seq<Turn>) {
    forall i :: 0 <= i < |script| ==> Coherent(script[i].input)
  }

  lemma GenuineIsCoherent(script: seq<Turn>)
    requires Genuine(script)
    ensures CoherentScript(script)
  {
    forall i | 0 <= i < |script|
      ensures Coherent(script[i].input)
    {
      InputIsCoherent(script[i].input.line);
    }
  }
}
