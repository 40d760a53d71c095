/**
  What becomes of connections: which ones are recycled, in what order they are handed out again,
  and that a connection on which an exchange failed is never handed out again.
 */
module PoolRecycle {
  import opened PoolSystem

  // ---------------------------------------------------------------- one step

  /** A connection is put back exactly when it was dialled or taken under a permit and is usable. */
  predicate Recycles(s: System, t: TaskId, ready: bool)
    requires t in s.tasks && Holds(s, s.tasks[t])
  {
    s.tasks[t].permit && s.conns[s.tasks[t].conn].healthy && ready
  }

  /** Then it is the last of the deque; otherwise the deque is as it was. No other pool is touched. */
  lemma DropRecycles(s: System, t: TaskId, ready: bool, p: PoolId)
    requires Enabled(s, t, Drop(ready)) && p < |s.pools|
    ensures Next(s, t, Drop(ready)).pools[p].idle
            == if Recycles(s, t, ready) && s.tasks[t].pool == p then s.pools[p].idle + [s.tasks[t].conn]
               else s.pools[p].idle
  {
  }

  /** A pop takes the first of the deque: to be held if it is usable, to be dropped otherwise. */
  lemma PopTakesFirst(s: System, t: TaskId, ready: bool)
    requires Enabled(s, t, Pop(ready)) && s.pools[s.tasks[t].pool].idle != []
    ensures var p, s' := s.tasks[t].pool, Next(s, t, Pop(ready));
            var c := s.pools[p].idle[0];
            && s'.pools[p].idle == s.pools[p].idle[1..]
            && s'.tasks[t] == (if s.conns[c].healthy && ready then Holding(s.tasks[t].endpoint, p, true, c, Ready)
                               else Dialing(s.tasks[t].endpoint, p, true))
            && s'.conns[c].place == if s.conns[c].healthy && ready then HeldBy(t) else Dropped
  {
  }

  // ---------------------------------------------------------------- first in, first out

  /** What a step puts into the deque of pool `p`. */
  function Put(s: System, t: TaskId, a: Action, p: PoolId): seq<ConnId>
    requires Enabled(s, t, a)
  {
    if a.Drop? && s.tasks[t].pool == p && Recycles(s, t, a.ready) then [s.tasks[t].conn] else []
  }

  /** What it takes out. */
  function Taken(s: System, t: TaskId, a: Action, p: PoolId): seq<ConnId>
    requires Enabled(s, t, a)
  {
    if a.Pop? && s.tasks[t].pool == p && s.pools[p].idle != [] then [s.pools[p].idle[0]] else []
  }

  /** A deque that does not exist yet is empty. */
  function Deque(s: System, p: PoolId): seq<ConnId> {
    if p < |s.pools| then s.pools[p].idle else []
  }

  lemma StepMovesDeque(s: System, t: TaskId, a: Action, p: PoolId)
    requires Enabled(s, t, a)
    ensures Deque(s, p) + Put(s, t, a, p) == Taken(s, t, a, p) + Deque(Next(s, t, a), p)
  {
    if a.Drop? && p < |s.pools| {
      DropRecycles(s, t, a.ready, p);
    } else if a.Pop? && s.tasks[t].pool == p && s.pools[p].idle != [] {
      PopTakesFirst(s, t, a.ready);
      assert s.pools[p].idle == [s.pools[p].idle[0]] + s.pools[p].idle[1..];
    } else {
      assert Deque(Next(s, t, a), p) == Deque(s, p);
    }
  }

  function AllPut(s: System, run: seq<Event>, p: PoolId): seq<ConnId>
    requires Possible(s, run)
    decreases |run|
  {
    if run == [] then []
    else Put(s, run[0].task, run[0].action, p) + AllPut(Next(s, run[0].task, run[0].action), run[1..], p)
  }

  function AllTaken(s: System, run: seq<Event>, p: PoolId): seq<ConnId>
    requires Possible(s, run)
    decreases |run|
  {
    if run == [] then []
    else Taken(s, run[0].task, run[0].action, p) + AllTaken(Next(s, run[0].task, run[0].action), run[1..], p)
  }

  /**
    First in, first out: over every run, what was idle before, followed by everything that was
    recycled, is everything that was handed out, in that order, followed by what is idle now.
   */
  lemma {:induction false} FirstInFirstOut(s: System, run: seq<Event>, p: PoolId)
    requires Possible(s, run)
    ensures Deque(s, p) + AllPut(s, run, p) == AllTaken(s, run, p) + Deque(After(s, run), p)
    decreases |run|
  {
    if run != [] {
      var Event(t, a) := run[0];
      var s' := Next(s, t, a);
      StepMovesDeque(s, t, a, p);
      FirstInFirstOut(s', run[1..], p);
      Shuffle(Deque(s, p), Put(s, t, a, p), Taken(s, t, a, p), Deque(s', p),
              AllPut(s', run[1..], p), AllTaken(s', run[1..], p), Deque(After(s', run[1..]), p));
    }
  }

  lemma Shuffle(d: seq<ConnId>, put: seq<ConnId>, taken: seq<ConnId>, d': seq<ConnId>, puts: seq<ConnId>,
                takens: seq<ConnId>, d'': seq<ConnId>)
    requires d + put == taken + d' && d' + puts == takens + d''
    ensures d + (put + puts) == (taken + takens) + d''
  {
    assert d + (put + puts) == (d + put) + puts == taken + (d' + puts) == taken + (takens + d'');
  }

  /** From an empty deque: a recycled connection is what the next task that acquires and finds it usable holds. */
  lemma NextTaskReuses(s: System, t: TaskId, u: TaskId)
    requires Inv(s) && Enabled(s, t, Drop(true)) && Recycles(s, t, true) && s.pools[s.tasks[t].pool].idle == []
    requires u in s.tasks && u != t && s.tasks[u].Waiting? && s.tasks[u].pool == s.tasks[t].pool
    ensures var p, c := s.tasks[t].pool, s.tasks[t].conn;
            var run := [Event(t, Drop(true)), Event(t, FreePermit), Event(u, Acquire), Event(u, Pop(true))];
            && Possible(s, run) && u in After(s, run).tasks
            && After(s, run).tasks[u] == Holding(s.tasks[u].endpoint, p, true, c, Ready)
  {
    var p, c := s.tasks[t].pool, s.tasks[t].conn;
    var run := [Event(t, Drop(true)), Event(t, FreePermit), Event(u, Acquire), Event(u, Pop(true))];
    var s1 := Next(s, t, Drop(true));
    DropRecycles(s, t, true, p);
    NextKeepsInv(s, t, Drop(true));
    var s2 := Next(s1, t, FreePermit);
    NextKeepsInv(s1, t, FreePermit);
    Freed(s1, t, u, p);
    AcquireAndPop(s2, u, c);
    assert run[1..] == [run[1], run[2], run[3]] && run[1..][1..] == [run[2], run[3]];
    assert Possible(s1, [run[1], run[2], run[3]]) && After(s1, [run[1], run[2], run[3]]) == After(s2, [run[2], run[3]]);
  }

  lemma Freed(s: System, t: TaskId, u: TaskId, p: PoolId)
    requires Enabled(s, t, FreePermit) && s.tasks[t].pool == p && u in s.tasks && u != t
    ensures var s' := Next(s, t, FreePermit);
            && s'.pools[p].idle == s.pools[p].idle && s'.pools[p].free > 0
            && u in s'.tasks && s'.tasks[u] == s.tasks[u] && |s'.pools| == |s.pools|
  {
  }

  lemma AcquireAndPop(s: System, u: TaskId, c: ConnId)
    requires Inv(s) && u in s.tasks && s.tasks[u].Waiting? && s.tasks[u].pool < |s.pools|
    requires s.pools[s.tasks[u].pool].free > 0 && s.pools[s.tasks[u].pool].idle == [c]
    ensures var run := [Event(u, Acquire), Event(u, Pop(true))];
            && Possible(s, run) && u in After(s, run).tasks
            && After(s, run).tasks[u] == Holding(s.tasks[u].endpoint, s.tasks[u].pool, true, c, Ready)
  {
    var run := [Event(u, Acquire), Event(u, Pop(true))];
    assert IdleQueue(s, s.tasks[u].pool) && c in s.pools[s.tasks[u].pool].idle;
    var s1 := Next(s, u, Acquire);
    PopTakesFirst(s1, u, true);
    var s2 := Next(s1, u, Pop(true));
    assert run[1..] == [Event(u, Pop(true))] && run[1..][1..] == [];
    assert Possible(s2, []) && After(s2, []) == s2;
    assert Possible(s1, run[1..]) && After(s1, run[1..]) == s2;
  }

  // ---------------------------------------------------------------- broken connections

  /** An exchange on the connection failed: in the hand of its task, or thrown away. */
  predicate Broken(s: System, t: TaskId, c: ConnId) {
    c < |s.conns| && !s.conns[c].healthy && (s.conns[c].place == HeldBy(t) || s.conns[c].place == Dropped)
  }

  /** A failed send and a failed body both break it. */
  lemma FailureBreaks(s: System, t: TaskId, a: Action)
    requires Inv(s) && Enabled(s, t, a) && (a.SendFail? || a.BodyFail?)
    ensures Broken(Next(s, t, a), t, s.tasks[t].conn)
  {
  }

  lemma StaysBroken(s: System, t: TaskId, c: ConnId, u: TaskId, a: Action)
    requires Inv(s) && Broken(s, t, c) && Enabled(s, u, a)
    ensures Broken(Next(s, u, a), t, c)
  {
    if a.Pop? {
      assert IdleQueue(s, s.tasks[u].pool);
      if s.pools[s.tasks[u].pool].idle != [] {
        assert s.pools[s.tasks[u].pool].idle[0] in s.pools[s.tasks[u].pool].idle;
      }
    }
  }

  lemma {:induction false} BrokenForever(s: System, t: TaskId, c: ConnId, run: seq<Event>)
    requires Inv(s) && Broken(s, t, c) && Possible(s, run)
    ensures Inv(After(s, run)) && Broken(After(s, run), t, c)
    decreases |run|
  {
    if run != [] {
      NextKeepsInv(s, run[0].task, run[0].action);
      StaysBroken(s, t, c, run[0].task, run[0].action);
      BrokenForever(Next(s, run[0].task, run[0].action), t, c, run[1..]);
    }
  }

  /** A connection on which an exchange failed is never idle again, and never in another task's hands. */
  lemma BrokenIsNeverReused(s: System, t: TaskId, a: Action, run: seq<Event>, u: TaskId, p: PoolId)
    requires Inv(s) && Enabled(s, t, a) && (a.SendFail? || a.BodyFail?) && Possible(Next(s, t, a), run)
    ensures var s', c := After(Next(s, t, a), run), s.tasks[t].conn;
            && c !in Deque(s', p)
            && (u in s'.tasks && s'.tasks[u].Holding? && s'.tasks[u].conn == c ==> u == t)
  {
    var c := s.tasks[t].conn;
    NextKeepsInv(s, t, a);
    FailureBreaks(s, t, a);
    BrokenForever(Next(s, t, a), t, c, run);
    var s' := After(Next(s, t, a), run);
    if p < |s'.pools| {
      assert IdleQueue(s', p);
    }
  }

  // ---------------------------------------------------------------- a whole exchange

  /** A held connection carries an exchange to its end: the response reaches the task, and the connection is clean. */
  lemma ExchangeIsARun(s: System, t: TaskId)
    requires Inv(s) && t in s.tasks && s.tasks[t].Holding? && s.tasks[t].stage.Ready?
    ensures var run := [Event(t, Send), Event(t, Respond), Event(t, BodyEnd)];
            && Possible(s, run)
            && var s', ph := After(s, run), s.tasks[t];
               && s'.log == s.log + [Delivery(t, t, ph.endpoint, ph.endpoint)]
               && ph.conn < |s'.conns| && s'.conns[ph.conn].outstanding == []
               && s'.conns[ph.conn].healthy == s.conns[ph.conn].healthy
               && t in s'.tasks && s'.tasks[t] == ph.(stage := Complete)
  {
    var run := [Event(t, Send), Event(t, Respond), Event(t, BodyEnd)];
    assert Holds(s, s.tasks[t]) && HeldConn(s.conns[s.tasks[t].conn], t, s.tasks[t]);
    var s1 := Next(s, t, Send);
    var s2 := Next(s1, t, Respond);
    var s3 := Next(s2, t, BodyEnd);
    ExchangeStates(s, t, s1, s2, s3);
    assert run[1..] == [run[1], run[2]] && run[1..][1..] == [run[2]] && run[1..][1..][1..] == [];
    assert Possible(s3, []) && After(s3, []) == s3;
    assert Possible(s2, [run[2]]) && After(s2, [run[2]]) == s3;
    assert Possible(s1, [run[1], run[2]]) && After(s1, [run[1], run[2]]) == s3;
  }

  lemma ExchangeStates(s: System, t: TaskId, s1: System, s2: System, s3: System)
    requires t in s.tasks && Holds(s, s.tasks[t]) && s.tasks[t].stage.Ready?
    requires HeldConn(s.conns[s.tasks[t].conn], t, s.tasks[t])
    requires s1 == Next(s, t, Send) && Enabled(s1, t, Respond) && s2 == Next(s1, t, Respond)
    requires Enabled(s2, t, BodyEnd) && s3 == Next(s2, t, BodyEnd)
    ensures var ph := s.tasks[t];
            && s3.log == s.log + [Delivery(t, t, ph.endpoint, ph.endpoint)]
            && ph.conn < |s3.conns| && s3.conns[ph.conn].outstanding == []
            && s3.conns[ph.conn].healthy == s.conns[ph.conn].healthy
            && t in s3.tasks && s3.tasks[t] == ph.(stage := Complete)
  {
  }
}
