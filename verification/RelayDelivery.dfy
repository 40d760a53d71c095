/**
  What the two-coroutine relay delivers: in every fair behaviour each byte a side has sent
  reaches the other side in the end, unless the loop of that direction has left.
 */
module RelayDelivery {
  import opened Bytes
  import opened Relay

  datatype Direction = Up | Down    // client to backend, backend to client

  function Source(s: State, d: Direction): Socket {
    if d.Up? then s.client else s.backend
  }

  function Sink(s: State, d: Direction): Socket {
    if d.Up? then s.backend else s.client
  }

  /** The loop that copies this direction has been left, or will not be entered. */
  predicate Left(s: State, d: Direction) {
    if d.Up? then MainLeft(s.main) else RelayLeft(s.relay)
  }

  /** Fewer than `n` bytes have been delivered so far, and the loop has not been left. */
  predicate Owes(s: State, d: Direction, n: nat) {
    !Left(s, d) && |Sink(s, d).got| < n <= |Source(s, d).sent| && (d.Down? ==> s.dialled)
  }

  /** The coroutine that copies this direction, or that has to start it. */
  function Worker(s: State, d: Direction): Coroutine {
    if d.Up? || s.relay.Unborn? then Main else Relay
  }

  /** Steps before the loop of this direction is entered. */
  function Before(s: State, d: Direction): nat {
    if d.Down? then (if s.relay.Unborn? then 1 else 0)
    else
      match s.main
      case FirstRecv => 4
      case Dial(_) => 3
      case Fork(_) => 2
      case SendFirst(_) => 1
      case _ => 0
  }

  predicate Holding(s: State, d: Direction) {
    if d.Up? then s.main.Send? else s.relay.RelaySend?
  }

  /** Half-turns of the loop before `n` bytes are delivered, each bringing one byte at least. */
  function Turns(s: State, d: Direction, n: nat): int {
    2 * (n - |Sink(s, d).got|) + if Holding(s, d) then 0 else 1
  }

  predicate Nearer(t: State, s: State, d: Direction, n: nat) {
    Before(t, d) < Before(s, d) || (Before(t, d) == Before(s, d) && Turns(t, d, n) < Turns(s, d, n))
  }

  predicate AsFar(t: State, s: State, d: Direction, n: nat) {
    Before(t, d) == Before(s, d) && Turns(t, d, n) == Turns(s, d, n) && Worker(t, d) == Worker(s, d)
  }

  /** What is in hand is not empty. */
  predicate HandsFull(s: State) {
    && (s.main.Send? ==> s.main.held != [])
    && (s.relay.RelaySend? ==> s.relay.held != [])
    && (!s.dialled ==> s.backend.sent == [])
  }

  lemma NextKeepsHands(s: State, a: Action)
    requires Inv(s) && HandsFull(s) && Enabled(s, a)
    ensures HandsFull(Next(s, a))
  {
  }

  lemma {:induction false} HandsStayFull(run: nat -> State, acts: nat -> Action, i: nat)
    requires Behaviour(run, acts)
    ensures HandsFull(run(i))
  {
    if i > 0 {
      HandsStayFull(run, acts, i - 1);
      BehaviourKeepsInv(run, acts, i - 1);
      NextKeepsHands(run(i - 1), acts(i - 1));
    }
  }

  lemma WorkerCanStep(s: State, d: Direction, n: nat)
    requires Inv(s) && Owes(s, d, n)
    ensures CanStep(s, Worker(s, d))
  {
    var x := Source(s, d);
    var reading := if d.Up? then s.main.Recv? else s.relay.RelayRecv?;
    assert reading ==> x.Pending() > 0;
    assert Enabled(s, Step(Worker(s, d), reading && !x.closed, if reading && !x.closed then 1 else 0));
  }

  lemma MainWorks(s: State, d: Direction, n: nat, ok: bool, k: nat)
    requires Inv(s) && HandsFull(s) && Owes(s, d, n) && Worker(s, d).Main? && MainEnabled(s, ok, k)
    ensures !Owes(MainStep(s, ok, k), d, n) || Nearer(MainStep(s, ok, k), s, d, n)
  {
  }

  lemma RelayWorks(s: State, n: nat, ok: bool, k: nat)
    requires Inv(s) && HandsFull(s) && Owes(s, Down, n) && Worker(s, Down).Relay? && RelayEnabled(s, ok, k)
    ensures !Owes(RelayStep(s, ok, k), Down, n) || Nearer(RelayStep(s, ok, k), s, Down, n)
  {
  }

  /** The other coroutine and the peers neither help nor hinder. */
  lemma OthersDoNotMatter(s: State, a: Action, d: Direction, n: nat)
    requires Inv(s) && Owes(s, d, n) && Enabled(s, a) && !(a.Step? && a.who == Worker(s, d))
    ensures !Owes(Next(s, a), d, n) || AsFar(Next(s, a), s, d, n)
  {
  }

  lemma EveryStepCounts(s: State, a: Action, d: Direction, n: nat)
    requires Inv(s) && HandsFull(s) && Owes(s, d, n) && Enabled(s, a)
    ensures var t := Next(s, a);
            || !Owes(t, d, n) || Nearer(t, s, d, n)
            || (AsFar(t, s, d, n) && !(a.Step? && a.who == Worker(s, d)))
  {
    if a.Step? && a.who == Worker(s, d) {
      if a.who.Main? {
        MainWorks(s, d, n, a.ok, a.n);
      } else {
        RelayWorks(s, n, a.ok, a.n);
      }
    } else {
      OthersDoNotMatter(s, a, d, n);
    }
  }

  /** Up to any later point, either there has been progress at some point or nothing has changed. */
  lemma {:induction false} MovesOrWaits(run: nat -> State, acts: nat -> Action, d: Direction, n: nat, i: nat, j: nat)
    returns (k: nat)
    requires Behaviour(run, acts) && i <= j && Owes(run(i), d, n)
    ensures i <= k && (|| !Owes(run(k), d, n) || Nearer(run(k), run(i), d, n)
                       || (k == j && AsFar(run(k), run(i), d, n)))
  {
    k := i;
    while k < j && Owes(run(k), d, n) && !Nearer(run(k), run(i), d, n)
      invariant i <= k <= j
      invariant !Owes(run(k), d, n) || Nearer(run(k), run(i), d, n) || AsFar(run(k), run(i), d, n)
    {
      BehaviourKeepsInv(run, acts, k);
      HandsStayFull(run, acts, k);
      EveryStepCounts(run(k), acts(k), d, n);
      k := k + 1;
    }
  }

  lemma FairProgress(run: nat -> State, acts: nat -> Action, d: Direction, n: nat, i: nat) returns (k: nat)
    requires Behaviour(run, acts) && Fair(run, acts) && Owes(run(i), d, n)
    ensures i <= k && (!Owes(run(k), d, n) || Nearer(run(k), run(i), d, n))
  {
    var who := Worker(run(i), d);
    assert HasTurnFrom(run, acts, who, i);
    var j: nat :| i <= j && HasTurn(run, acts, who, j);
    k := MovesOrWaits(run, acts, d, n, i, j);
    if Owes(run(k), d, n) && !Nearer(run(k), run(i), d, n) {
      BehaviourKeepsInv(run, acts, k);
      HandsStayFull(run, acts, k);
      WorkerCanStep(run(k), d, n);
      EveryStepCounts(run(k), acts(k), d, n);
      k := k + 1;
    }
  }

  lemma {:induction false} DebtIsPaid(run: nat -> State, acts: nat -> Action, d: Direction, n: nat, i: nat) returns (k: nat)
    requires Behaviour(run, acts) && Fair(run, acts)
    ensures i <= k && !Owes(run(k), d, n)
    decreases if Owes(run(i), d, n) then 1 else 0, Before(run(i), d), Turns(run(i), d, n)
  {
    k := i;
    if Owes(run(i), d, n) {
      var m := FairProgress(run, acts, d, n, i);
      k := DebtIsPaid(run, acts, d, n, m);
    }
  }

  lemma {:induction false} SentGrows(run: nat -> State, acts: nat -> Action, d: Direction, i: nat, k: nat)
    requires Behaviour(run, acts) && i <= k
    ensures Source(run(i), d).sent <= Source(run(k), d).sent
    ensures run(i).dialled ==> run(k).dialled
    decreases k - i
  {
    if i < k {
      SentGrows(run, acts, d, i, k - 1);
      assert Enabled(run(k - 1), acts(k - 1)) && run(k) == Next(run(k - 1), acts(k - 1));
    }
  }

  /**
    Everything a side has sent by some moment reaches the other side, complete and in order, or
    the loop of that direction has been left; in every fair behaviour, whatever else happens.
   */
  lemma EveryByteArrives(run: nat -> State, acts: nat -> Action, d: Direction, i: nat) returns (k: nat)
    requires Behaviour(run, acts) && Fair(run, acts)
    ensures i <= k && (Left(run(k), d) || Source(run(i), d).sent <= Sink(run(k), d).got)
  {
    var n := |Source(run(i), d).sent|;
    k := DebtIsPaid(run, acts, d, n, i);
    SentGrows(run, acts, d, i, k);
    ByteOrder(run, acts, k);
    HandsStayFull(run, acts, i);
    var sent, got := Source(run(k), d).sent, Sink(run(k), d).got;
    assert got <= sent && Source(run(i), d).sent == sent[..n];
    if !Left(run(k), d) {
      assert n <= |got|;
      assert got[..n] == sent[..n];
    }
  }

  // ---------------------------------------------------------------- whole streams

  /** In this direction the backend is there, no send fails, and a read fails only on an orderly end. */
  predicate SmoothStep(s: State, a: Action, d: Direction) {
    a.Step? && !a.ok ==>
      if d.Up? then
        a.who.Main? ==>
          match s.main
          case FirstRecv => OrderlyEnd(s.client)
          case Recv => OrderlyEnd(s.client)
          case Dial(_) => false
          case SendFirst(_) => false
          case Send(_) => false
          case _ => true
      else
        a.who.Relay? ==>
          match s.relay
          case RelayRecv => OrderlyEnd(s.backend)
          case RelaySend(_) => false
          case _ => true
  }

  ghost predicate Smooth(run: nat -> State, acts: nat -> Action, d: Direction) {
    forall i: nat {:trigger acts(i)} :: SmoothStep(run(i), acts(i), d)
  }

  /** A loop that has been left has copied everything. */
  predicate LeftComplete(s: State, d: Direction) {
    Left(s, d) ==> Source(s, d).ended && Sink(s, d).got == Source(s, d).sent
  }

  lemma MainLeavesComplete(s: State, ok: bool, n: nat)
    requires Inv(s) && LeftComplete(s, Up) && MainEnabled(s, ok, n) && SmoothStep(s, Step(Main, ok, n), Up)
    ensures LeftComplete(MainStep(s, ok, n), Up)
  {
  }

  lemma RelayLeavesComplete(s: State, ok: bool, n: nat)
    requires Inv(s) && LeftComplete(s, Down) && RelayEnabled(s, ok, n) && SmoothStep(s, Step(Relay, ok, n), Down)
    ensures LeftComplete(RelayStep(s, ok, n), Down)
  {
  }

  lemma NextLeavesComplete(s: State, a: Action, d: Direction)
    requires Inv(s) && LeftComplete(s, d) && Enabled(s, a) && SmoothStep(s, a, d)
    ensures LeftComplete(Next(s, a), d)
  {
    match a
    case Step(Main, ok, n) => if d.Up? { MainLeavesComplete(s, ok, n); }
    case Step(Relay, ok, n) => if d.Down? { RelayLeavesComplete(s, ok, n); }
    case _ =>
  }

  lemma {:induction false} SmoothLeavesComplete(run: nat -> State, acts: nat -> Action, d: Direction, i: nat)
    requires Behaviour(run, acts) && Smooth(run, acts, d)
    ensures LeftComplete(run(i), d)
  {
    if i > 0 {
      SmoothLeavesComplete(run, acts, d, i - 1);
      BehaviourKeepsInv(run, acts, i - 1);
      NextLeavesComplete(run(i - 1), acts(i - 1), d);
    }
  }

  /** A side that has ended sends nothing more. */
  lemma {:induction false} EndedIsFixed(run: nat -> State, acts: nat -> Action, d: Direction, i: nat, k: nat)
    requires Behaviour(run, acts) && i <= k && Source(run(i), d).ended
    ensures Source(run(k), d).ended && Source(run(k), d).sent == Source(run(i), d).sent
    decreases k - i
  {
    if i < k {
      EndedIsFixed(run, acts, d, i, k - 1);
      assert Enabled(run(k - 1), acts(k - 1)) && run(k) == Next(run(k - 1), acts(k - 1));
    }
  }

  /** Over a smooth direction, a side that ends has its whole stream delivered. */
  lemma WholeStreamArrives(run: nat -> State, acts: nat -> Action, d: Direction, i: nat) returns (k: nat)
    requires Behaviour(run, acts) && Fair(run, acts) && Smooth(run, acts, d) && Source(run(i), d).ended
    ensures i <= k && Sink(run(k), d).got == Source(run(k), d).sent == Source(run(i), d).sent
  {
    k := EveryByteArrives(run, acts, d, i);
    EndedIsFixed(run, acts, d, i, k);
    ByteOrder(run, acts, k);
    SmoothLeavesComplete(run, acts, d, k);
  }
}
