/**
  What a whole SMTP session does, told from the outside: the bytes on every backend
  connection and the shape of the replies are functions of the dialogue the client sees.
 */
module SmtpDialogue {
  import opened Bytes
  import opened Wrappers
  import opened Smtp

  /** One line and what the client was sent for it. */
  datatype Exchange = Exchange(input: Input, answers: seq<Answer>)

  function NewAnswers(s: Session, s': Session): seq<Answer> {
    if |s.replies| <= |s'.replies| then s'.replies[|s.replies|..] else []
  }

  function Dialogue(s: Session, script: seq<Turn>): seq<Exchange>
    requires Linked(s)
    decreases |script|
  {
    if script == [] || !s.open then []
    else
      var s' := HandleLine(s, script[0].input, script[0].io);
      [Exchange(script[0].input, NewAnswers(s, s'))] + Dialogue(s', script[1..])
  }

  // ---------------------------------------------------------------- an observer on the client side

  /** What the dialogue so far implies: is a message body under way, and what each backend must have received. */
  datatype View = View(body: bool, wires: seq<seq<Byte>>)

  function AppendLast(wires: seq<seq<Byte>>, line: seq<Byte>): seq<seq<Byte>> {
    if wires == [] then [] else wires[..|wires| - 1] + [wires[|wires| - 1] + line]
  }

  predicate Refused(x: Exchange) {
    x.answers == [Unknown500] || x.answers == [Syntax501]
  }

  predicate BodyInvited(x: Exchange) {
    && x.input.dataOnly
    && |x.answers| == 1 && x.answers[0].Block? && StartsWith(x.answers[0].bytes, [51, 53, 52])
  }

  /**
    A body line goes to the current backend as it is. Outside a body a refused line goes
    nowhere, a greeting line opens a new backend with itself, any other line goes to the
    current backend.
   */
  function Watch(v: View, x: Exchange): View {
    if v.body then View(!x.input.terminator, AppendLast(v.wires, x.input.line))
    else if Refused(x) then v
    else if x.input.verb.Hello? then View(false, v.wires + [x.input.line])
    else View(BodyInvited(x), AppendLast(v.wires, x.input.line))
  }

  function Observe(v: View, dialogue: seq<Exchange>): View
    decreases |dialogue|
  {
    if dialogue == [] then v else Observe(Watch(v, dialogue[0]), dialogue[1..])
  }

  function Wires(backends: seq<Backend>): (r: seq<seq<Byte>>)
    ensures |r| == |backends| && forall i :: 0 <= i < |r| ==> r[i] == backends[i].wire
  {
    seq(|backends|, i requires 0 <= i < |backends| => backends[i].wire)
  }

  function Seen(s: Session): View {
    View(s.data, Wires(s.backends))
  }

  // ---------------------------------------------------------------- at every loop head

  /** The newest backend is the current one; it belongs to the current domain; a body needs a backend. */
  predicate AtHead(s: Session) {
    && (s.backend == if s.backends == [] then None else Some(|s.backends| - 1))
    && (s.domain.Some? <==> s.backend.Some?)
    && (s.backend.Some? ==> s.backends[s.backend.value].domain == s.domain.value)
    && (s.data ==> s.backend.Some?)
  }

  lemma CommandStep(s: Session, input: Input, io: Io)
    requires AtHead(s) && !s.data && ForwardCommand(s, input, io).ok
    ensures var s' := ForwardCommand(s, input, io).session;
            && AtHead(s')
            && s'.replies == s.replies + [Block(io.reply.value)]
            && Wires(s'.backends) == AppendLast(Wires(s.backends), input.line)
            && s'.data == BodyInvited(Exchange(input, [Block(io.reply.value)]))
  {
  }

  lemma DataStep(s: Session, input: Input, io: Io)
    requires AtHead(s) && s.data && ForwardData(s, input, io).ok
    ensures var s' := ForwardData(s, input, io).session;
            && AtHead(s')
            && Wires(s'.backends) == AppendLast(Wires(s.backends), input.line)
            && s'.data == !input.terminator
            && s.replies <= s'.replies && |s'.replies| <= |s.replies| + (if input.terminator then 1 else 0)
            && (|s'.replies| > |s.replies| ==> s'.replies[|s.replies|].Block?)
  {
  }

  lemma HeloStep(s: Session, input: Input, io: Io)
    requires AtHead(s) && !s.data && !input.dataOnly && HandleHelo(s, input, io).ok
    ensures var s' := HandleHelo(s, input, io).session;
            && AtHead(s') && !s'.data
            && (input.domain.None? ==> s'.backends == s.backends && s'.replies == s.replies + [Syntax501])
            && (input.domain.Some? ==>
                  && s'.replies == s.replies + [Block(io.reply.value)]
                  && Wires(s'.backends) == Wires(s.backends) + [input.line])
  {
    if input.domain.Some? {
      var dialled := Attach(s, Backend(io.route(input.domain.value).value, input.domain.value, []));
      CommandStep(dialled, input, io);
      assert Wires(dialled.backends) == Wires(s.backends) + [[]];
      assert [] + input.line == input.line;
    }
  }

  /** One line that leaves the session open does exactly what the observer expects, with one reply or none. */
  lemma OpenStep(s: Session, input: Input, io: Io)
    requires AtHead(s) && Coherent(input) && s.open && HandleLine(s, input, io).open
    ensures var s' := HandleLine(s, input, io);
            var x := Exchange(input, NewAnswers(s, s'));
            && AtHead(s') && Seen(s') == Watch(Seen(s), x)
            && s'.replies == s.replies + x.answers && WellAnswered(s.data, x)
  {
    var s' := HandleLine(s, input, io);
    if s.data {
      DataStep(s, input, io);
    } else {
      match input.verb
      case Hello => HeloStep(s, input, io);
      case Relayed => CommandStep(s, input, io);
      case _ =>
    }
    assert s'.replies == s.replies + s'.replies[|s.replies|..];
  }

  // ---------------------------------------------------------------- reply grammar

  /** One reply to a command, none to a line inside a body, at most one to its terminator, never 421. */
  predicate WellAnswered(body: bool, x: Exchange) {
    && (body && !x.input.terminator ==> x.answers == [])
    && (body && x.input.terminator ==> |x.answers| <= 1)
    && (!body ==> |x.answers| == 1)
    && Unavailable421 !in x.answers && Greeting !in x.answers
  }

  predicate Grammar(v: View, dialogue: seq<Exchange>)
    decreases |dialogue|
  {
    dialogue == [] || (WellAnswered(v.body, dialogue[0]) && Grammar(Watch(v, dialogue[0]), dialogue[1..]))
  }

  function Flatten(dialogue: seq<Exchange>): seq<Answer> {
    if dialogue == [] then [] else dialogue[0].answers + Flatten(dialogue[1..])
  }

  /** Running and observing both begin with the first line. */
  lemma FirstLine(s: Session, script: seq<Turn>, v: View)
    requires Linked(s) && script != [] && s.open
    ensures var s' := HandleLine(s, script[0].input, script[0].io);
            var x, rest := Exchange(script[0].input, NewAnswers(s, s')), Dialogue(s', script[1..]);
            && Run(s, script) == Run(s', script[1..]) && Dialogue(s, script) == [x] + rest
            && Observe(v, [x] + rest) == Observe(Watch(v, x), rest)
            && Grammar(v, [x] + rest) == (WellAnswered(v.body, x) && Grammar(Watch(v, x), rest))
            && Flatten([x] + rest) == x.answers + Flatten(rest)
  {
    var s' := HandleLine(s, script[0].input, script[0].io);
    var x, rest := Exchange(script[0].input, NewAnswers(s, s')), Dialogue(s', script[1..]);
    assert ([x] + rest)[1..] == rest;
  }

  lemma {:induction false} OpenRun(s: Session, script: seq<Turn>)
    requires Linked(s) && AtHead(s) && CoherentScript(script) && Run(s, script).open
    ensures AtHead(Run(s, script))
    ensures Seen(Run(s, script)) == Observe(Seen(s), Dialogue(s, script))
    ensures Grammar(Seen(s), Dialogue(s, script))
    ensures Run(s, script).replies == s.replies + Flatten(Dialogue(s, script))
    decreases |script|
  {
    if script != [] && s.open {
      var Turn(input, io) := script[0];
      FirstLine(s, script, Seen(s));
      OpenStep(s, input, io);
      OpenRun(HandleLine(s, input, io), script[1..]);
    }
  }

  /**
    Transparency: as long as the session is open, the bytes on every backend connection are
    those the dialogue implies, line by line and in order, and the proxy is in Data state
    exactly when the dialogue says a body is under way.
   */
  lemma Transparency(script: seq<Turn>)
    requires Genuine(script) && Run(Fresh, script).open
    ensures Seen(Run(Fresh, script)) == Observe(View(false, []), Dialogue(Fresh, script))
  {
    GenuineIsCoherent(script);
    OpenRun(Fresh, script);
    assert Seen(Fresh) == View(false, []);
  }

  /** The client sees the greeting and then, line by line, exactly the replies the grammar allows. */
  lemma ReplyGrammar(script: seq<Turn>)
    requires Genuine(script) && Run(Fresh, script).open
    ensures Run(Fresh, script).replies == [Greeting] + Flatten(Dialogue(Fresh, script))
    ensures Grammar(View(false, []), Dialogue(Fresh, script))
  {
    GenuineIsCoherent(script);
    OpenRun(Fresh, script);
    assert Seen(Fresh) == View(false, []);
  }

  // ---------------------------------------------------------------- sessions that end

  /** A line that ends the session adds at most one reply. */
  lemma ClosingReplies(s: Session, input: Input, io: Io)
    requires AtHead(s) && s.open && !HandleLine(s, input, io).open
    ensures var s' := HandleLine(s, input, io);
            s.replies <= s'.replies && |s'.replies| <= |s.replies| + 1
  {
  }

  /** Whatever happens, 421 is sent at most once and nothing follows it. */
  lemma {:induction false} UnavailableIsLast(s: Session, script: seq<Turn>)
    requires Linked(s) && AtHead(s) && CoherentScript(script) && s.open && Unavailable421 !in s.replies
    ensures var r := Run(s, script).replies;
            s.replies <= r && forall i :: 0 <= i < |r| && r[i].Unavailable421? ==> i == |r| - 1 && !Run(s, script).open
    decreases |script|
  {
    if script != [] {
      var s' := HandleLine(s, script[0].input, script[0].io);
      if s'.open {
        OpenStep(s, script[0].input, script[0].io);
        UnavailableIsLast(s', script[1..]);
      } else {
        ClosingReplies(s, script[0].input, script[0].io);
        assert Run(s', script[1..]) == s';
      }
    }
  }

  /** When a line ends the session, earlier backends keep their bytes and the last one has a prefix of what was due. */
  predicate CutShort(was: seq<seq<Byte>>, now: seq<seq<Byte>>, line: seq<Byte>) {
    || now == was
    || (|now| == |was| > 0 && now[..|was| - 1] == was[..|was| - 1]
        && was[|was| - 1] <= now[|was| - 1] <= was[|was| - 1] + line)
    || (|now| == |was| + 1 && now[..|was|] == was && now[|was|] <= line)
  }

  /** Both forwarders write one part of the line to the current backend, or nothing at all. */
  predicate Sent(was: seq<seq<Byte>>, now: seq<seq<Byte>>, part: seq<Byte>) {
    now == was || (was != [] && now == AppendLast(was, part))
  }

  lemma ForwardSends(s: Session, input: Input, io: Io)
    requires AtHead(s)
    ensures Sent(Wires(s.backends), Wires(ForwardCommand(s, input, io).session.backends), SentPart(input.line, io.write))
    ensures Sent(Wires(s.backends), Wires(ForwardData(s, input, io).session.backends), SentPart(input.line, io.write))
  {
    if s.backend.Some? {
      assert Wires(WriteBackend(s, input.line, io.write).backends)
          == AppendLast(Wires(s.backends), SentPart(input.line, io.write));
    }
  }

  lemma SentIsCutShort(was: seq<seq<Byte>>, now: seq<seq<Byte>>, part: seq<Byte>, line: seq<Byte>)
    requires Sent(was, now, part) && part <= line
    ensures CutShort(was, now, line)
  {
    if now != was {
      var n := |was| - 1;
      assert now[..n] == was[..n];
      assert was[n] + part <= was[n] + line;
    }
  }

  lemma AttachedIsCutShort(was: seq<seq<Byte>>, now: seq<seq<Byte>>, part: seq<Byte>, line: seq<Byte>)
    requires Sent(was + [[]], now, part) && part <= line
    ensures CutShort(was, now, line)
  {
    assert now[..|was|] == was;
    assert [] + part == part;
  }

  lemma AttachCutShort(s: Session, b: Backend, input: Input, io: Io)
    requires AtHead(s) && b.wire == []
    ensures CutShort(Wires(s.backends), Wires(ForwardCommand(Attach(s, b), input, io).session.backends), input.line)
  {
    ForwardSends(Attach(s, b), input, io);
    assert Wires(Attach(s, b).backends) == Wires(s.backends) + [[]];
    AttachedIsCutShort(Wires(s.backends), Wires(ForwardCommand(Attach(s, b), input, io).session.backends),
                       SentPart(input.line, io.write), input.line);
  }

  lemma HeloCutShort(s: Session, input: Input, io: Io)
    requires AtHead(s)
    ensures CutShort(Wires(s.backends), Wires(HandleHelo(s, input, io).session.backends), input.line)
  {
    if input.domain.Some? && io.route(input.domain.value).Some? {
      AttachCutShort(s, Backend(io.route(input.domain.value).value, input.domain.value, []), input, io);
    }
  }

  lemma HandlersWrite(s: Session, input: Input, io: Io)
    requires Linked(s) && s.open
    ensures HandleLine(s, input, io).backends in
            [s.backends, ForwardCommand(s, input, io).session.backends,
             ForwardData(s, input, io).session.backends, HandleHelo(s, input, io).session.backends]
  {
  }

  lemma ClosingWires(s: Session, input: Input, io: Io)
    requires AtHead(s) && s.open
    ensures CutShort(Wires(s.backends), Wires(HandleLine(s, input, io).backends), input.line)
  {
    HandlersWrite(s, input, io);
    ForwardSends(s, input, io);
    HeloCutShort(s, input, io);
    var now := HandleLine(s, input, io).backends;
    if now != HandleHelo(s, input, io).session.backends {
      SentIsCutShort(Wires(s.backends), Wires(now), SentPart(input.line, io.write), input.line);
    }
  }

  // ---------------------------------------------------------------- routing

  /** This turn named the backend's domain, and its routing decision was the backend's endpoint. */
  predicate DialledBy(turn: Turn, b: Backend) {
    turn.input.domain == Some(b.domain) && turn.io.route(b.domain) == Some(b.endpoint)
  }

  /** Some turn of the script did. */
  predicate DialledInScript(script: seq<Turn>, b: Backend) {
    exists k :: 0 <= k < |script| && DialledBy(script[k], b)
  }

  predicate SameTarget(a: Backend, b: Backend) {
    a.endpoint == b.endpoint && a.domain == b.domain
  }

  predicate Grown(was: seq<Backend>, now: seq<Backend>, turn: Turn) {
    && |was| <= |now| <= |was| + 1
    && (forall i :: 0 <= i < |was| ==> SameTarget(now[i], was[i]))
    && (|now| > |was| ==> DialledBy(turn, now[|was|]))
  }

  predicate SameTargets(was: seq<Backend>, now: seq<Backend>) {
    |was| == |now| && forall i :: 0 <= i < |was| ==> SameTarget(now[i], was[i])
  }

  lemma ForwardKeepsTargets(s: Session, input: Input, io: Io)
    requires Linked(s)
    ensures SameTargets(s.backends, ForwardCommand(s, input, io).session.backends)
    ensures SameTargets(s.backends, ForwardData(s, input, io).session.backends)
  {
  }

  lemma HeloGrows(s: Session, turn: Turn)
    requires Linked(s)
    ensures Grown(s.backends, HandleHelo(s, turn.input, turn.io).session.backends, turn)
  {
    var domain := turn.input.domain;
    if domain.Some? && turn.io.route(domain.value).Some? {
      ForwardKeepsTargets(Attach(s, Backend(turn.io.route(domain.value).value, domain.value, [])), turn.input, turn.io);
    }
  }

  lemma StepBackends(s: Session, turn: Turn)
    requires Linked(s) && s.open
    ensures Grown(s.backends, HandleLine(s, turn.input, turn.io).backends, turn)
  {
    HandlersWrite(s, turn.input, turn.io);
    ForwardKeepsTargets(s, turn.input, turn.io);
    HeloGrows(s, turn);
  }

  lemma {:induction false} TargetsStay(s: Session, script: seq<Turn>, i: nat)
    requires Linked(s) && (s.open ==> AtHead(s)) && CoherentScript(script) && i < |s.backends|
    ensures i < |Run(s, script).backends| && SameTarget(Run(s, script).backends[i], s.backends[i])
    decreases |script|
  {
    if script != [] && s.open {
      StepBackends(s, script[0]);
      var s' := HandleLine(s, script[0].input, script[0].io);
      if s'.open {
        OpenStep(s, script[0].input, script[0].io);
      }
      TargetsStay(s', script[1..], i);
    }
  }

  lemma GrowingRun(s: Session, script: seq<Turn>)
    requires Linked(s) && |s.backends| < |Run(s, script).backends|
    ensures script != [] && s.open
    ensures Run(s, script) == Run(HandleLine(s, script[0].input, script[0].io), script[1..])
  {
  }

  /** Every backend ever dialled was dialled where the router sent the domain of the line that opened it. */
  lemma {:induction false} BackendsAreRouted(s: Session, script: seq<Turn>, i: nat) returns (k: nat)
    requires Linked(s) && (s.open ==> AtHead(s)) && CoherentScript(script) && |s.backends| <= i < |Run(s, script).backends|
    ensures k < |script| && DialledBy(script[k], Run(s, script).backends[i])
    decreases |script|
  {
    GrowingRun(s, script);
    var s', rest := HandleLine(s, script[0].input, script[0].io), script[1..];
    StepBackends(s, script[0]);
    if s'.open {
      OpenStep(s, script[0].input, script[0].io);
    }
    if i < |s'.backends| {
      TargetsStay(s', rest, i);
      k := 0;
    } else {
      var j := BackendsAreRouted(s', rest, i);
      k := j + 1;
    }
  }

  /**
    At every loop head a domain is set exactly when a backend is, and that backend was
    dialled from that domain's route.
   */
  lemma RoutedSession(script: seq<Turn>)
    requires Genuine(script) && Run(Fresh, script).open
    ensures var s := Run(Fresh, script);
            && (s.domain.Some? <==> s.backend.Some?)
            && (s.backend.Some? ==>
                  && DialledInScript(script, s.backends[s.backend.value])
                  && s.backends[s.backend.value].domain == s.domain.value)
  {
    GenuineIsCoherent(script);
    OpenRun(Fresh, script);
    var s := Run(Fresh, script);
    if s.backend.Some? {
      var k := BackendsAreRouted(Fresh, script, s.backend.value);
      assert DialledBy(script[k], s.backends[s.backend.value]);
    }
  }
}
