/**
  One acquire and one drop that nothing interrupts: what they do to the pool, and that each is a
  run of the concurrent system.
 */
module PoolAlone {
  import opened PoolSystem

  // ---------------------------------------------------------------- what happens to the pool

  /** A granted permit is taken and the front of the deque popped; without a client the permit goes back. */
  function Acquired(pool: Pool, granted: bool, reused: bool, dialled: bool): Pool
    requires granted ==> pool.free > 0
  {
    var taken := if granted then pool.TakePermit().PopFront() else pool;
    if granted && !reused && !dialled then taken.GivePermit() else taken
  }

  /** With a permit, a usable client goes to the back and the permit is freed. */
  function Released(pool: Pool, permit: bool, c: ConnId, usable: bool): Pool {
    if !permit then pool
    else if usable then pool.PushBack(c).GivePermit()
    else pool.GivePermit()
  }

  // ---------------------------------------------------------------- runs of one task

  function By(t: TaskId, actions: seq<Action>): (run: seq<Event>)
    ensures |run| == |actions| && forall i :: 0 <= i < |run| ==> run[i] == Event(t, actions[i])
  {
    seq(|actions|, i requires 0 <= i < |actions| => Event(t, actions[i]))
  }

  lemma Begins(s: System, t: TaskId, a: Action, rest: seq<Action>)
    requires Enabled(s, t, a) && Possible(Next(s, t, a), By(t, rest))
    ensures Possible(s, By(t, [a] + rest)) && After(s, By(t, [a] + rest)) == After(Next(s, t, a), By(t, rest))
  {
    assert By(t, [a] + rest)[1..] == By(t, rest);
  }

  lemma One(s: System, t: TaskId, a: Action)
    requires Enabled(s, t, a)
    ensures Possible(s, By(t, [a])) && After(s, By(t, [a])) == Next(s, t, a)
  {
    assert Possible(Next(s, t, a), By(t, [])) && After(Next(s, t, a), By(t, [])) == Next(s, t, a);
    Begins(s, t, a, []);
    assert [a] + [] == [a];
  }

  lemma Two(s: System, t: TaskId, a: Action, b: Action)
    requires Enabled(s, t, a) && Enabled(Next(s, t, a), t, b)
    ensures Possible(s, By(t, [a, b])) && After(s, By(t, [a, b])) == Next(Next(s, t, a), t, b)
  {
    One(Next(s, t, a), t, b);
    Begins(s, t, a, [b]);
    assert [a] + [b] == [a, b];
  }

  lemma {:induction false} Append(s: System, first: seq<Event>, second: seq<Event>)
    requires Possible(s, first) && Possible(After(s, first), second)
    ensures Possible(s, first + second) && After(s, first + second) == After(After(s, first), second)
    decreases |first|
  {
    if first == [] {
      assert first + second == second;
    } else {
      Append(Next(s, first[0].task, first[0].action), first[1..], second);
      assert (first + second)[1..] == first[1..] + second;
    }
  }

  // ---------------------------------------------------------------- acquire

  /** From the dial on. */
  function DialRun(permit: bool, dialled: bool): seq<Action> {
    if dialled then [DialOk] else if permit then [DialFail, FreePermit] else [DialFail]
  }

  lemma DialIsARun(s: System, t: TaskId, dialled: bool)
    requires t in s.tasks && s.tasks[t].Dialing? && s.tasks[t].pool < |s.pools|
    ensures var Dialing(endpoint, pool, permit) := s.tasks[t];
            && Possible(s, By(t, DialRun(permit, dialled)))
            && var s' := After(s, By(t, DialRun(permit, dialled)));
               && s'.pools == s.pools[pool := if permit && !dialled then s.pools[pool].GivePermit() else s.pools[pool]]
               && t in s'.tasks
               && s'.tasks[t] == if dialled then Holding(endpoint, pool, permit, |s.conns|, Ready) else Gone
  {
    if dialled {
      One(s, t, DialOk);
    } else if s.tasks[t].permit {
      Two(s, t, DialFail, FreePermit);
    } else {
      One(s, t, DialFail);
    }
  }

  /** Up to the point where the task has a client or dials one. */
  function EnterRun(granted: bool, ready: bool): seq<Action> {
    if granted then [Acquire, Pop(ready)] else [PermitTimeout]
  }

  predicate Reused(s: System, pool: Pool, granted: bool, ready: bool) {
    granted && pool.idle != [] && pool.idle[0] < |s.conns| && s.conns[pool.idle[0]].healthy && ready
  }

  /** The client at the front of the deque, if there is one, can be looked at. */
  predicate FrontOk(s: System, pool: Pool, ready: bool) {
    pool.idle != [] ==> pool.idle[0] < |s.conns| && ReadyAllowed(s.conns[pool.idle[0]], ready)
  }

  lemma PopEffect(s: System, t: TaskId, ready: bool)
    requires t in s.tasks && s.tasks[t].Permitted? && s.tasks[t].pool < |s.pools|
    requires FrontOk(s, s.pools[s.tasks[t].pool], ready)
    ensures Enabled(s, t, Pop(ready))
    ensures var Permitted(endpoint, p) := s.tasks[t];
            var pool, s' := s.pools[p], Next(s, t, Pop(ready));
            && s'.pools == s.pools[p := pool.PopFront()] && |s'.conns| == |s.conns| && t in s'.tasks
            && s'.tasks[t] == if Reused(s, pool, true, ready) then Holding(endpoint, p, true, pool.idle[0], Ready)
                              else Dialing(endpoint, p, true)
  {
  }

  lemma FrontIsOk(s: System, p: PoolId, ready: bool)
    requires Inv(s) && p < |s.pools|
    ensures FrontOk(s, s.pools[p], ready)
  {
    assert IdleQueue(s, p);
    assert s.pools[p].idle != [] ==> s.pools[p].idle[0] in s.pools[p].idle;
  }

  lemma EnterIsARun(s: System, t: TaskId, granted: bool, ready: bool)
    requires t in s.tasks && s.tasks[t].Waiting? && s.tasks[t].pool < |s.pools|
    requires granted ==> s.pools[s.tasks[t].pool].free > 0
    requires FrontOk(s, s.pools[s.tasks[t].pool], ready)
    ensures var Waiting(endpoint, p) := s.tasks[t];
            var pool := s.pools[p];
            && Possible(s, By(t, EnterRun(granted, ready)))
            && var s' := After(s, By(t, EnterRun(granted, ready)));
               && s'.pools == s.pools[p := if granted then pool.TakePermit().PopFront() else pool]
               && |s'.conns| == |s.conns| && t in s'.tasks
               && s'.tasks[t] == if Reused(s, pool, granted, ready) then Holding(endpoint, p, true, pool.idle[0], Ready)
                                 else Dialing(endpoint, p, granted)
  {
    if granted {
      PopEffect(Next(s, t, Acquire), t, ready);
      Two(s, t, Acquire, Pop(ready));
    } else {
      One(s, t, PermitTimeout);
    }
  }

  /** All steps of an acquire, in their order. */
  function AcquireRun(t: TaskId, granted: bool, ready: bool, reused: bool, dialled: bool): seq<Event> {
    if reused then By(t, EnterRun(granted, ready))
    else By(t, EnterRun(granted, ready)) + By(t, DialRun(granted, dialled))
  }

  /** An acquire that nothing interrupts is a run of the system, and changes the pool as `Acquired` says. */
  lemma AcquireIsARun(s: System, t: TaskId, granted: bool, ready: bool, dialled: bool)
    requires Inv(s) && t in s.tasks && s.tasks[t].Waiting? && s.tasks[t].pool < |s.pools|
    requires granted ==> s.pools[s.tasks[t].pool].free > 0
    ensures var Waiting(endpoint, p) := s.tasks[t];
            var pool := s.pools[p];
            var reused := Reused(s, pool, granted, ready);
            var run := AcquireRun(t, granted, ready, reused, dialled);
            && Possible(s, run)
            && var s' := After(s, run);
               && s'.pools == s.pools[p := Acquired(pool, granted, reused, dialled)]
               && t in s'.tasks
               && s'.tasks[t] == if reused then Holding(endpoint, p, true, pool.idle[0], Ready)
                                 else if dialled then Holding(endpoint, p, granted, |s.conns|, Ready)
                                 else Gone
  {
    FrontIsOk(s, s.tasks[t].pool, ready);
    EnterIsARun(s, t, granted, ready);
    var enter, dial := By(t, EnterRun(granted, ready)), By(t, DialRun(granted, dialled));
    if !Reused(s, s.pools[s.tasks[t].pool], granted, ready) {
      DialIsARun(After(s, enter), t, dialled);
      Append(s, enter, dial);
    }
  }

  // ---------------------------------------------------------------- drop

  function DropRun(t: TaskId, permit: bool, ready: bool): seq<Event> {
    By(t, if permit then [Drop(ready), FreePermit] else [Drop(ready)])
  }

  /** So is the drop of a guard, at any stage of the exchange. */
  lemma DropIsARun(s: System, t: TaskId, ready: bool)
    requires t in s.tasks && Holds(s, s.tasks[t]) && s.tasks[t].pool < |s.pools|
    requires ReadyAllowed(s.conns[s.tasks[t].conn], ready)
    ensures var ph := s.tasks[t];
            var run := DropRun(t, ph.permit, ready);
            && Possible(s, run)
            && var s' := After(s, run);
               && s'.pools == s.pools[ph.pool := Released(s.pools[ph.pool], ph.permit, ph.conn,
                                                          s.conns[ph.conn].healthy && ready)]
               && t in s'.tasks && s'.tasks[t].Gone?
  {
    if s.tasks[t].permit {
      Two(s, t, Drop(ready), FreePermit);
    } else {
      One(s, t, Drop(ready));
    }
  }
}
