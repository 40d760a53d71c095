/**
  The two-coroutine TCP relay.

  The main coroutine reads the client and writes the backend; the relay coroutine reads
  the backend and writes the client. They share the two sockets and the one-slot channel
  `done`. The model is a state machine over atomic steps of either coroutine and of the
  two remote peers, interleaved in any order.
 */
module Relay {
  import opened Bytes

  /** One socket: what the remote side did, and what the proxy did to its end. */
  datatype Socket = Socket(
    sent: seq<Byte>,   // everything the remote side has put on the wire so far
    read: nat,         // how much of `sent` the proxy has received
    ended: bool,       // the remote side sent FIN or reset; it sends nothing more
    got: seq<Byte>,    // everything the proxy has delivered to the remote side
    closed: bool)      // the proxy closed its end
  {
    function Pending(): int {
      |sent| - read
    }
  }

  datatype MainPc =
    | FirstRecv | RejectClose | Dial(held: seq<Byte>) | Fork(held: seq<Byte>)
    | SendFirst(held: seq<Byte>) | FailClose | FailPop | FailCloseClient | FailCleanup
    | Recv | Send(held: seq<Byte>) | CloseBackend | Pop | Cleanup | Returned

  datatype RelayPc = Unborn | RelayRecv | RelaySend(held: seq<Byte>) | CloseClient | Push | Over

  datatype State = State(
    buffer: nat,       // receive buffer size
    main: MainPc,
    relay: RelayPc,
    client: Socket,
    backend: Socket,
    dialled: bool,     // the adapter connected a backend
    entry: bool,       // the adapter holds a connection for this client
    done: nat,         // values waiting in the channel
    pushes: nat,       // values ever pushed to the channel
    clientEof: bool,   // the main loop stopped on an orderly end of the client stream
    backendEof: bool)  // the relay loop stopped on an orderly end of the backend stream

  datatype Coroutine = Main | Relay

  /** What may happen next. `ok` and `n` resolve what the system call of a step returned. */
  datatype Action =
    | Idle
    | ClientSends(bytes: seq<Byte>)
    | ClientEnds
    | BackendSends(bytes: seq<Byte>)
    | BackendEnds
    | Step(who: Coroutine, ok: bool, n: nat)

  const FreshSocket := Socket([], 0, false, [], false)

  ghost predicate Init(s: State) {
    && s.buffer > 0
    && s == State(s.buffer, FirstRecv, Unborn, FreshSocket, FreshSocket, false, false, 0, 0, false, false)
  }

  // ---------------------------------------------------------------- steps

  /** A receive yields 1..buffer bytes that have arrived, or fails on a closed or ended socket. */
  predicate RecvEnabled(x: Socket, buffer: nat, ok: bool, n: nat) {
    if ok then !x.closed && 1 <= n <= buffer && n <= x.Pending()
    else x.closed || x.ended
  }

  /** A send delivers everything, or fails after delivering some prefix; nothing leaves a closed socket. */
  predicate SendEnabled(x: Socket, held: seq<Byte>, ok: bool, n: nat) {
    if ok then !x.closed else n <= |held| && (x.closed ==> n == 0)
  }

  function Received(x: Socket, n: nat): seq<Byte>
    requires x.read + n <= |x.sent|
  {
    x.sent[x.read..x.read + n]
  }

  function Deliver(x: Socket, held: seq<Byte>, ok: bool, n: nat): Socket
    requires SendEnabled(x, held, ok, n)
  {
    x.(got := x.got + if ok then held else held[..n])
  }

  predicate OrderlyEnd(x: Socket) {
    !x.closed && x.ended && x.Pending() == 0
  }

  predicate MainEnabled(s: State, ok: bool, n: nat) {
    match s.main
    case FirstRecv => ok ==> RecvEnabled(s.client, s.buffer, ok, n)  // this receive may also time out
    case SendFirst(held) => SendEnabled(s.backend, held, ok, n)
    case FailPop => ok ==> s.done > 0                                // waits at most one second
    case Recv => RecvEnabled(s.client, s.buffer, ok, n)
    case Send(held) => SendEnabled(s.backend, held, ok, n)
    case Pop => ok && s.done > 0                                     // waits without limit
    case Returned => false
    case _ => true
  }

  function MainStep(s: State, ok: bool, n: nat): State
    requires MainEnabled(s, ok, n)
  {
    match s.main
    case FirstRecv =>
      if ok then s.(main := Dial(Received(s.client, n)), client := s.client.(read := s.client.read + n))
      else s.(main := RejectClose)
    case RejectClose => s.(main := Returned, client := s.client.(closed := true))
    case Dial(held) =>
      if ok then s.(main := Fork(held), dialled := true, entry := true) else s.(main := RejectClose)
    case Fork(held) => s.(main := SendFirst(held), relay := RelayRecv)
    case SendFirst(held) =>
      s.(main := if ok then Recv else FailClose, backend := Deliver(s.backend, held, ok, n))
    case FailClose => s.(main := FailPop, backend := s.backend.(closed := true))
    case FailPop => s.(main := FailCloseClient, done := if ok then s.done - 1 else s.done)
    case FailCloseClient => s.(main := FailCleanup, client := s.client.(closed := true))
    case FailCleanup => s.(main := Returned, entry := false)
    case Recv =>
      if ok then s.(main := Send(Received(s.client, n)), client := s.client.(read := s.client.read + n))
      else s.(main := CloseBackend, clientEof := OrderlyEnd(s.client))
    case Send(held) =>
      s.(main := if ok then Recv else CloseBackend, backend := Deliver(s.backend, held, ok, n))
    case CloseBackend => s.(main := Pop, backend := s.backend.(closed := true))
    case Pop => s.(main := Cleanup, done := s.done - 1)
    case Cleanup => s.(main := Returned, entry := false)
    case Returned => s
  }

  predicate RelayEnabled(s: State, ok: bool, n: nat) {
    match s.relay
    case Unborn => false
    case RelayRecv => RecvEnabled(s.backend, s.buffer, ok, n)
    case RelaySend(held) => SendEnabled(s.client, held, ok, n)
    case CloseClient => true
    case Push => s.done < 1                                          // the channel has one slot
    case Over => false
  }

  function RelayStep(s: State, ok: bool, n: nat): State
    requires RelayEnabled(s, ok, n)
  {
    match s.relay
    case Unborn => s
    case RelayRecv =>
      if ok then s.(relay := RelaySend(Received(s.backend, n)), backend := s.backend.(read := s.backend.read + n))
      else s.(relay := CloseClient, backendEof := OrderlyEnd(s.backend))
    case RelaySend(held) =>
      s.(relay := if ok then RelayRecv else CloseClient, client := Deliver(s.client, held, ok, n))
    case CloseClient => s.(relay := Push, client := s.client.(closed := true))
    case Push => s.(relay := Over, done := s.done + 1, pushes := s.pushes + 1)
    case Over => s
  }

  predicate Enabled(s: State, a: Action) {
    match a
    case Idle => true
    case ClientSends(bytes) => !s.client.ended
    case ClientEnds => true
    case BackendSends(bytes) => s.dialled && !s.backend.ended
    case BackendEnds => s.dialled
    case Step(who, ok, n) => if who.Main? then MainEnabled(s, ok, n) else RelayEnabled(s, ok, n)
  }

  function Next(s: State, a: Action): State
    requires Enabled(s, a)
  {
    match a
    case Idle => s
    case ClientSends(bytes) => s.(client := s.client.(sent := s.client.sent + bytes))
    case ClientEnds => s.(client := s.client.(ended := true))
    case BackendSends(bytes) => s.(backend := s.backend.(sent := s.backend.sent + bytes))
    case BackendEnds => s.(backend := s.backend.(ended := true))
    case Step(who, ok, n) => if who.Main? then MainStep(s, ok, n) else RelayStep(s, ok, n)
  }

  ghost predicate CanStep(s: State, who: Coroutine) {
    exists ok, n :: Enabled(s, Step(who, ok, n))
  }

  // ---------------------------------------------------------------- invariant

  /** `to` has received exactly what was read from `from`, except for what is still in hand. */
  predicate InStep(from: Socket, held: seq<Byte>, to: Socket) {
    from.read <= |from.sent| && to.got + held == from.sent[..from.read]
  }

  predicate Prefix(from: Socket, to: Socket) {
    from.read <= |from.sent| && to.got <= from.sent[..from.read]
  }

  predicate UpstreamOk(s: State) {
    match s.main
    case FirstRecv => InStep(s.client, [], s.backend)
    case Dial(held) => InStep(s.client, held, s.backend)
    case Fork(held) => InStep(s.client, held, s.backend)
    case SendFirst(held) => InStep(s.client, held, s.backend)
    case Recv => InStep(s.client, [], s.backend)
    case Send(held) => InStep(s.client, held, s.backend)
    case _ => Prefix(s.client, s.backend)
  }

  predicate DownstreamOk(s: State) {
    match s.relay
    case Unborn => InStep(s.backend, [], s.client) && s.client.got == []
    case RelayRecv => InStep(s.backend, [], s.client)
    case RelaySend(held) => InStep(s.backend, held, s.client)
    case _ => Prefix(s.backend, s.client)
  }

  predicate BeforeFork(m: MainPc) {
    m.FirstRecv? || m.RejectClose? || m.Dial? || m.Fork?
  }

  predicate Reading(m: MainPc) {
    m.Recv? || m.Send?
  }

  predicate MainLeft(m: MainPc) {
    match m
    case FirstRecv => false
    case Dial(_) => false
    case Fork(_) => false
    case SendFirst(_) => false
    case Recv => false
    case Send(_) => false
    case _ => true
  }

  predicate RelayLeft(r: RelayPc) {
    r.CloseClient? || r.Push? || r.Over?
  }

  /** Which close, channel and adapter operations have happened is a function of the two counters. */
  predicate Shape(s: State) {
    && s.buffer > 0
    && (BeforeFork(s.main) ==> s.relay.Unborn?)
    && (s.relay.Unborn? ==> BeforeFork(s.main) || s.main.Returned?)
    && (s.dialled <==> s.main.Fork? || !s.relay.Unborn?)
    && (!s.dialled ==> s.backend.got == [])
    && (s.entry <==> s.dialled && !s.main.Returned?)
    && (s.backend.closed <==>
        s.main.FailPop? || s.main.FailCloseClient? || s.main.FailCleanup? || s.main.Pop? || s.main.Cleanup?
        || (s.main.Returned? && s.dialled))
    && (s.client.closed <==> s.relay.Push? || s.relay.Over? || s.main.FailCleanup? || s.main.Returned?)
    && s.pushes == (if s.relay.Over? then 1 else 0)
    && s.done <= s.pushes
    && (s.main.Cleanup? ==> s.relay.Over? && s.done == 0)
    && (!s.main.FailCloseClient? && !s.main.FailCleanup? && !s.main.Cleanup? && !s.main.Returned? ==> s.done == s.pushes)
  }

  /** An orderly end means that nothing was lost: the other side has the whole stream. */
  predicate EofOk(s: State) {
    && (s.clientEof ==> s.client.ended && MainLeft(s.main) && s.backend.got == s.client.sent)
    && (s.backendEof ==> s.backend.ended && RelayLeft(s.relay) && s.client.got == s.backend.sent)
  }

  predicate Inv(s: State) {
    UpstreamOk(s) && DownstreamOk(s) && Shape(s) && EofOk(s)
  }

  /** Reading more, and delivering what is in hand, both keep the copy exact. */
  lemma ReadKeepsInStep(from: Socket, to: Socket, n: nat)
    requires InStep(from, [], to) && n <= from.Pending()
    ensures InStep(from.(read := from.read + n), Received(from, n), to)
  {
    assert from.sent[..from.read] + Received(from, n) == from.sent[..from.read + n];
  }

  lemma SendKeepsInStep(from: Socket, held: seq<Byte>, to: Socket, ok: bool, n: nat)
    requires InStep(from, held, to) && SendEnabled(to, held, ok, n)
    ensures Prefix(from, Deliver(to, held, ok, n))
    ensures ok ==> InStep(from, [], Deliver(to, held, ok, n))
  {
    if !ok {
      assert to.got + held[..n] <= to.got + held;
    }
  }

  lemma OpeningKeepsInv(s: State, ok: bool, n: nat)
    requires Inv(s) && MainEnabled(s, ok, n) && (BeforeFork(s.main) || s.main.SendFirst?)
    ensures Inv(MainStep(s, ok, n))
  {
    match s.main
    case FirstRecv => if ok { ReadKeepsInStep(s.client, s.backend, n); }
    case SendFirst(held) => SendKeepsInStep(s.client, held, s.backend, ok, n);
    case _ =>
  }

  lemma FailingKeepsInv(s: State, ok: bool, n: nat)
    requires Inv(s) && MainEnabled(s, ok, n)
    requires s.main.FailClose? || s.main.FailPop? || s.main.FailCloseClient? || s.main.FailCleanup?
    ensures Inv(MainStep(s, ok, n))
  {
  }

  lemma ForwardingKeepsInv(s: State, ok: bool, n: nat)
    requires Inv(s) && MainEnabled(s, ok, n) && Reading(s.main)
    ensures Inv(MainStep(s, ok, n))
  {
    match s.main
    case Recv => if ok { ReadKeepsInStep(s.client, s.backend, n); }
    case Send(held) => SendKeepsInStep(s.client, held, s.backend, ok, n);
  }

  lemma ClosingKeepsInv(s: State, ok: bool, n: nat)
    requires Inv(s) && MainEnabled(s, ok, n) && (s.main.CloseBackend? || s.main.Pop? || s.main.Cleanup?)
    ensures Inv(MainStep(s, ok, n))
  {
  }

  lemma RelayForwardingKeepsInv(s: State, ok: bool, n: nat)
    requires Inv(s) && RelayEnabled(s, ok, n) && (s.relay.RelayRecv? || s.relay.RelaySend?)
    ensures Inv(RelayStep(s, ok, n))
  {
    match s.relay
    case RelayRecv => if ok { ReadKeepsInStep(s.backend, s.client, n); }
    case RelaySend(held) => SendKeepsInStep(s.backend, held, s.client, ok, n);
  }

  lemma RelayClosingKeepsInv(s: State, ok: bool, n: nat)
    requires Inv(s) && RelayEnabled(s, ok, n) && (s.relay.CloseClient? || s.relay.Push?)
    ensures Inv(RelayStep(s, ok, n))
  {
  }

  lemma PeersKeepInv(s: State, a: Action)
    requires Inv(s) && Enabled(s, a) && !a.Step?
    ensures Inv(Next(s, a))
  {
  }

  lemma NextKeepsInv(s: State, a: Action)
    requires Inv(s) && Enabled(s, a)
    ensures Inv(Next(s, a))
  {
    match a
    case Step(Main, ok, n) =>
      if BeforeFork(s.main) || s.main.SendFirst? {
        OpeningKeepsInv(s, ok, n);
      } else if Reading(s.main) {
        ForwardingKeepsInv(s, ok, n);
      } else if s.main.CloseBackend? || s.main.Pop? || s.main.Cleanup? {
        ClosingKeepsInv(s, ok, n);
      } else {
        FailingKeepsInv(s, ok, n);
      }
    case Step(Relay, ok, n) =>
      if s.relay.RelayRecv? || s.relay.RelaySend? {
        RelayForwardingKeepsInv(s, ok, n);
      } else {
        RelayClosingKeepsInv(s, ok, n);
      }
    case _ => PeersKeepInv(s, a);
  }

  // ---------------------------------------------------------------- behaviours

  /**
    A behaviour is an infinite sequence of states; `Idle` lets a finite run continue.
    Every reachable state is some `run(i)`.
   */
  ghost predicate Behaviour(run: nat -> State, acts: nat -> Action) {
    && Init(run(0))
    && forall i: nat {:trigger acts(i)} :: Enabled(run(i), acts(i)) && run(i + 1) == Next(run(i), acts(i))
  }

  lemma {:induction false} BehaviourKeepsInv(run: nat -> State, acts: nat -> Action, i: nat)
    requires Behaviour(run, acts)
    ensures Inv(run(i))
  {
    if i > 0 {
      BehaviourKeepsInv(run, acts, i - 1);
      NextKeepsInv(run(i - 1), acts(i - 1));
    }
  }

  /**
    At every point each side has received a prefix of the other side's stream, and all of it
    once the reading loop of that direction has stopped on an orderly end.
   */
  lemma ByteOrder(run: nat -> State, acts: nat -> Action, i: nat)
    requires Behaviour(run, acts)
    ensures run(i).backend.got <= run(i).client.sent
    ensures run(i).client.got <= run(i).backend.sent
    ensures run(i).clientEof ==> run(i).backend.got == run(i).client.sent
    ensures run(i).backendEof ==> run(i).client.got == run(i).backend.sent
  {
    BehaviourKeepsInv(run, acts, i);
    var s := run(i);
    assert s.client.sent[..s.client.read] <= s.client.sent;
    assert s.backend.sent[..s.backend.read] <= s.backend.sent;
  }

  /** When the handler returns, the sockets are closed and the adapter entry is gone. */
  lemma Teardown(run: nat -> State, acts: nat -> Action, i: nat)
    requires Behaviour(run, acts)
    requires run(i).main.Returned?
    ensures run(i).client.closed && !run(i).entry
    ensures run(i).dialled ==> run(i).backend.closed
    ensures !run(i).dialled ==> run(i).relay.Unborn? && run(i).backend.got == [] && run(i).client.got == []
  {
    BehaviourKeepsInv(run, acts, i);
  }

  /** `done` is pushed at most once, so a push never waits for room. */
  lemma PushNeverBlocks(run: nat -> State, acts: nat -> Action, i: nat)
    requires Behaviour(run, acts)
    ensures run(i).pushes <= 1
    ensures run(i).relay.Push? ==> CanStep(run(i), Relay)
  {
    BehaviourKeepsInv(run, acts, i);
    if run(i).relay.Push? {
      assert Enabled(run(i), Step(Relay, true, 0));
    }
  }

  // ---------------------------------------------------------------- progress

  /** One direction is over: a peer ended, or a coroutine left its loop. */
  predicate Ending(s: State) {
    s.client.ended || s.backend.ended || RelayLeft(s.relay) || MainLeft(s.main)
  }

  predicate Finished(s: State) {
    s.main.Returned? && (s.relay.Unborn? || s.relay.Over?)
  }

  predicate ClientLive(s: State) {
    !s.client.ended && !s.client.closed
  }

  /** The coroutine whose next step brings the handler closer to its end. */
  function Helpful(s: State): Coroutine {
    match s.main
    case Recv => if ClientLive(s) then Relay else Main
    case Send(_) => if ClientLive(s) then Relay else Main
    case Pop => if s.done == 0 then Relay else Main
    case Returned => Relay
    case _ => Main
  }

  function Stage(s: State): nat {
    match s.main
    case FirstRecv => 15
    case Dial(_) => 14
    case Fork(_) => 13
    case SendFirst(_) => 12
    case Recv => if ClientLive(s) then 11 else 10
    case Send(_) => if ClientLive(s) then 11 else 10
    case CloseBackend => 9
    case Pop => if s.done == 0 then 8 else 7
    case Cleanup => 6
    case FailClose => 5
    case FailPop => 4
    case FailCloseClient => 3
    case FailCleanup => 2
    case RejectClose => 1
    case Returned => 0
  }

  /** Steps the reader of `x` can still take before it sees the end of `x`. */
  function ReadsLeft(x: Socket, sending: bool): int {
    (if x.closed then 0 else 2 * x.Pending()) + if sending then 1 else 0
  }

  function Amount(s: State): int {
    if Helpful(s).Main? then
      if Reading(s.main) then ReadsLeft(s.client, s.main.Send?) else 0
    else
      match s.relay
      case Unborn => 0
      case RelayRecv => 3 + ReadsLeft(s.backend, false)
      case RelaySend(_) => 3 + ReadsLeft(s.backend, true)
      case CloseClient => 2
      case Push => 1
      case Over => 0
  }

  predicate Below(t: State, s: State) {
    Stage(t) < Stage(s) || (Stage(t) == Stage(s) && Amount(t) < Amount(s))
  }

  lemma HelpfulCanStep(s: State)
    requires Inv(s) && Ending(s) && !Finished(s)
    ensures CanStep(s, Helpful(s))
  {
    if Helpful(s).Main? {
      assert Enabled(s, Step(Main, s.main.Pop?, 0));
    } else {
      assert Enabled(s, Step(Relay, false, 0));
    }
  }

  lemma MainDescends(s: State, ok: bool, n: nat)
    requires Inv(s) && Helpful(s).Main? && MainEnabled(s, ok, n)
    ensures Below(MainStep(s, ok, n), s)
  {
  }

  lemma RelayDescends(s: State, ok: bool, n: nat)
    requires Inv(s) && Helpful(s).Relay? && RelayEnabled(s, ok, n)
    ensures Below(RelayStep(s, ok, n), s)
  {
  }

  /** The measure and the helpful coroutine are as they were. */
  predicate Level(t: State, s: State) {
    Stage(t) == Stage(s) && Amount(t) == Amount(s) && Helpful(t) == Helpful(s)
  }

  lemma PeersDoNotHinder(s: State, a: Action)
    requires Inv(s) && Ending(s) && !Finished(s) && Enabled(s, a) && !a.Step?
    ensures Below(Next(s, a), s) || Level(Next(s, a), s)
  {
  }

  lemma MainDoesNotHinder(s: State, ok: bool, n: nat)
    requires Inv(s) && Ending(s) && !Finished(s) && Helpful(s).Relay? && MainEnabled(s, ok, n)
    ensures Below(MainStep(s, ok, n), s) || Level(MainStep(s, ok, n), s)
  {
  }

  lemma RelayDoesNotHinder(s: State, ok: bool, n: nat)
    requires Inv(s) && Ending(s) && !Finished(s) && Helpful(s).Main? && RelayEnabled(s, ok, n)
    ensures Below(RelayStep(s, ok, n), s) || Level(RelayStep(s, ok, n), s)
  {
  }

  lemma MainStaysLeft(s: State, ok: bool, n: nat)
    requires MainLeft(s.main) && MainEnabled(s, ok, n)
    ensures MainLeft(MainStep(s, ok, n).main)
  {
  }

  lemma EndingIsStable(s: State, a: Action)
    requires Shape(s) && Ending(s) && Enabled(s, a)
    ensures Ending(Next(s, a))
  {
    if a.Step? && a.who.Main? && MainLeft(s.main) {
      MainStaysLeft(s, a.ok, a.n);
    }
  }

  /** No step of anyone else undoes progress or takes the helpful step away. */
  lemma EveryStepKeepsProgress(s: State, a: Action)
    requires Inv(s) && Ending(s) && !Finished(s) && Enabled(s, a)
    ensures Ending(Next(s, a))
    ensures Below(Next(s, a), s) || (Level(Next(s, a), s) && !(a.Step? && a.who == Helpful(s)))
  {
    EndingIsStable(s, a);
    match a
    case Step(who, ok, n) =>
      if who.Main? {
        if Helpful(s).Main? { MainDescends(s, ok, n); } else { MainDoesNotHinder(s, ok, n); }
      } else {
        if Helpful(s).Main? { RelayDoesNotHinder(s, ok, n); } else { RelayDescends(s, ok, n); }
      }
    case _ => PeersDoNotHinder(s, a);
  }

  ghost predicate HasTurn(run: nat -> State, acts: nat -> Action, who: Coroutine, j: nat) {
    !CanStep(run(j), who) || (acts(j).Step? && acts(j).who == who)
  }

  /** Weak fairness: a coroutine that stays able to run does run, sooner or later. */
  ghost predicate Fair(run: nat -> State, acts: nat -> Action) {
    forall i: nat, who: Coroutine :: HasTurnFrom(run, acts, who, i)
  }

  ghost predicate HasTurnFrom(run: nat -> State, acts: nat -> Action, who: Coroutine, i: nat) {
    exists j: nat :: i <= j && HasTurn(run, acts, who, j)
  }

  lemma LevelIsUnfinished(t: State, s: State)
    requires Inv(s) && Level(t, s) && !Finished(s)
    ensures !Finished(t)
  {
  }

  /** Up to any later point, either the measure has dropped at some point or nothing has changed. */
  lemma {:induction false} DropsOrWaits(run: nat -> State, acts: nat -> Action, i: nat, j: nat) returns (k: nat)
    requires Behaviour(run, acts) && i <= j && Ending(run(i)) && !Finished(run(i))
    ensures i <= k && Ending(run(k))
    ensures Below(run(k), run(i)) || (k == j && Level(run(k), run(i)))
  {
    BehaviourKeepsInv(run, acts, i);
    k := i;
    while k < j && !Below(run(k), run(i))
      invariant i <= k <= j && Ending(run(k))
      invariant Below(run(k), run(i)) || Level(run(k), run(i))
    {
      BehaviourKeepsInv(run, acts, k);
      LevelIsUnfinished(run(k), run(i));
      EveryStepKeepsProgress(run(k), acts(k));
      k := k + 1;
    }
  }

  /** From every unfinished ending state a fair behaviour comes to a smaller one. */
  lemma FairStepDown(run: nat -> State, acts: nat -> Action, i: nat) returns (m: nat)
    requires Behaviour(run, acts) && Fair(run, acts) && Ending(run(i)) && !Finished(run(i))
    ensures i <= m && Ending(run(m)) && Below(run(m), run(i))
  {
    var who := Helpful(run(i));
    assert HasTurnFrom(run, acts, who, i);
    var j: nat :| i <= j && HasTurn(run, acts, who, j);
    m := DropsOrWaits(run, acts, i, j);
    if !Below(run(m), run(i)) {
      BehaviourKeepsInv(run, acts, i);
      BehaviourKeepsInv(run, acts, m);
      LevelIsUnfinished(run(m), run(i));
      HelpfulCanStep(run(m));
      EveryStepKeepsProgress(run(m), acts(m));
      m := m + 1;
    }
  }

  lemma AmountIsNat(s: State)
    requires Inv(s)
    ensures Amount(s) >= 0
  {
  }

  /**
    Once either direction is over, every fair behaviour reaches a state where both coroutines
    have finished, however the steps interleave and whatever the peers keep sending.
   */
  lemma {:induction false} HandlerFinishes(run: nat -> State, acts: nat -> Action, i: nat) returns (k: nat)
    requires Behaviour(run, acts) && Fair(run, acts) && Ending(run(i))
    ensures i <= k && Finished(run(k))
    decreases Stage(run(i)), Amount(run(i))
  {
    k := i;
    if !Finished(run(i)) {
      var m := FairStepDown(run, acts, i);
      assert Amount(run(i)) >= 0 by {
        BehaviourKeepsInv(run, acts, i);
        AmountIsNat(run(i));
      }
      k := HandlerFinishes(run, acts, m);
    }
  }
}
