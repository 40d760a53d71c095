/**
  Sessions that have ended, by QUIT or by a failure: everything up to the last line is what the
  observer of the dialogue expects, and the last line adds what is stated here.
 */
module SmtpEnd {
  import opened Smtp
  import opened SmtpDialogue

  /** An ended session is an open one and the line that closed it. */
  lemma {:induction false} LastLine(s: Session, script: seq<Turn>) returns (k: nat)
    requires Linked(s) && s.open && !Run(s, script).open
    ensures k < |script| && Run(s, script[..k]).open
    ensures Run(s, script) == HandleLine(Run(s, script[..k]), script[k].input, script[k].io)
    decreases |script|
  {
    var s' := HandleLine(s, script[0].input, script[0].io);
    if s'.open {
      var j := LastLine(s', script[1..]);
      k := j + 1;
      assert script[..k][1..] == script[1..][..j];
    } else {
      k := 0;
      assert Run(s', script[1..]) == s';
    }
  }

  /** QUIT was forwarded and answered. */
  predicate Farewell(s: Session, turn: Turn)
    requires Linked(s)
  {
    !s.data && turn.input.verb.Quit? && |turn.input.line| <= 10_485_760
    && ForwardCommand(s, turn.input, turn.io).ok
  }

  /** What the client is sent for the line that closes the session: nothing if it is gone, else one reply. */
  function LastAnswers(s: Session, turn: Turn): seq<Answer>
    requires Linked(s)
  {
    if !turn.io.client then []
    else if Farewell(s, turn) then [Block(turn.io.reply.value)]
    else [Unavailable421]
  }

  lemma CommandAnswers(s: Session, input: Input, io: Io)
    requires Linked(s)
    ensures var r := ForwardCommand(s, input, io);
            && (r.ok ==> io.client && io.reply.Some? && r.session.replies == s.replies + [Block(io.reply.value)])
            && (!r.ok ==> r.session.replies == s.replies)
  {
  }

  lemma DataAnswers(s: Session, input: Input, io: Io)
    requires Linked(s) && !ForwardData(s, input, io).ok
    ensures ForwardData(s, input, io).session.replies == s.replies
  {
  }

  lemma HeloAnswers(s: Session, input: Input, io: Io)
    requires Linked(s) && !HandleHelo(s, input, io).ok
    ensures HandleHelo(s, input, io).session.replies == s.replies
  {
    if input.domain.Some? && io.route(input.domain.value).Some? {
      CommandAnswers(Attach(s, Backend(io.route(input.domain.value).value, input.domain.value, [])), input, io);
    }
  }

  lemma ClosingAnswers(s: Session, turn: Turn)
    requires Linked(s) && s.open && !HandleLine(s, turn.input, turn.io).open
    ensures HandleLine(s, turn.input, turn.io).replies == s.replies + LastAnswers(s, turn)
  {
    assert s.replies + [] == s.replies;
    if |turn.input.line| <= 10_485_760 {
      if s.data {
        DataAnswers(s, turn.input, turn.io);
      } else if turn.input.verb.Hello? {
        HeloAnswers(s, turn.input, turn.io);
      } else {
        CommandAnswers(s, turn.input, turn.io);
      }
    }
  }

  lemma QuitStep(s: Session, turn: Turn)
    requires AtHead(s) && s.open && Farewell(s, turn)
    ensures var s' := HandleLine(s, turn.input, turn.io);
            var x := Exchange(turn.input, [Block(turn.io.reply.value)]);
            && !s'.open && s'.replies == s.replies + x.answers
            && Wires(s'.backends) == Watch(Seen(s), x).wires
  {
    CommandStep(s, turn.input, turn.io);
  }

  /** With a backend and working I/O, QUIT is such a farewell. */
  lemma WorkingQuit(s: Session, turn: Turn)
    requires Linked(s) && !s.data && s.backend.Some? && turn.input.verb.Quit? && |turn.input.line| <= 10_485_760
    ensures Farewell(s, turn) <==>
            turn.io.write.All? && turn.io.client && turn.io.reply.Some? && turn.io.reply.value != []
  {
  }

  /**
    Every ended session: up to its last line the replies follow the grammar and the wires are
    those the dialogue implies; the last line adds at most a part of itself to one backend,
    and exactly one reply unless the client is gone. If it was a QUIT the backend answered,
    the wires are exactly those the whole dialogue implies, the QUIT line included.
   */
  lemma EndedSession(script: seq<Turn>) returns (k: nat)
    requires Genuine(script) && !Run(Fresh, script).open
    ensures k < |script| && Run(Fresh, script[..k]).open
    ensures var before, dialogue := Run(Fresh, script[..k]), Dialogue(Fresh, script[..k]);
            && Grammar(View(false, []), dialogue)
            && Run(Fresh, script).replies == [Greeting] + Flatten(dialogue) + LastAnswers(before, script[k])
            && (Farewell(before, script[k]) ==>
                  Wires(Run(Fresh, script).backends)
                  == Watch(Observe(View(false, []), dialogue), Exchange(script[k].input, LastAnswers(before, script[k]))).wires)
            && CutShort(Observe(View(false, []), dialogue).wires, Wires(Run(Fresh, script).backends), script[k].input.line)
  {
    k := LastLine(Fresh, script);
    var prefix := script[..k];
    var before := Run(Fresh, prefix);
    Transparency(prefix);
    ReplyGrammar(prefix);
    GenuineIsCoherent(prefix);
    OpenRun(Fresh, prefix);
    ClosingAnswers(before, script[k]);
    ClosingWires(before, script[k].input, script[k].io);
    if Farewell(before, script[k]) {
      QuitStep(before, script[k]);
    }
    assert Wires(before.backends) == Observe(View(false, []), Dialogue(Fresh, prefix)).wires;
  }
}
