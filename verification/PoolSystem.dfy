/**
  The HTTP backend pools under concurrency.

  Each forwarded request is a task that walks through `Pools::get_or_create`,
  `Pool::acquire`, one exchange on the connection and the drop of its guard. A step is what
  a task does between two points where another task may run; time-outs, failures and
  cancellation may strike at every such point.
 */
module PoolSystem {

  type TaskId = nat
  type PoolId = nat
  type ConnId = nat
  type Endpoint = string

  /** Progress of the exchange on a connection a task holds. */
  datatype Stage = Ready | Sent | Head | Complete | Failed

  datatype Phase =
    | Lookup(endpoint: Endpoint)                                  // before `map.get`
    | Missed(endpoint: Endpoint)                                  // before `entry().or_insert_with`
    | Waiting(endpoint: Endpoint, pool: PoolId)                   // awaiting a permit
    | Permitted(endpoint: Endpoint, pool: PoolId)                 // permit in hand, before the pop
    | Dialing(endpoint: Endpoint, pool: PoolId, permit: bool)
    | Holding(endpoint: Endpoint, pool: PoolId, permit: bool, conn: ConnId, stage: Stage)
    | Releasing(endpoint: Endpoint, pool: PoolId)                 // guard dropped but for its permit
    | Gone

  /** Where a connection is; a dropped one is closed and never used again. */
  datatype Place = Idle(pool: PoolId) | HeldBy(task: TaskId) | Dropped

  /**
    `outstanding` lists the requests written to the connection whose responses have not been
    read off it to the end; the backend answers them in order.
   */
  datatype Conn = Conn(
    endpoint: Endpoint, healthy: bool, overflow: bool, outstanding: seq<TaskId>, place: Place)

  /** A pool: the free permits of its semaphore and the deque of idle connections. */
  datatype Pool = Pool(endpoint: Endpoint, free: nat, idle: seq<ConnId>)
  {
    function TakePermit(): Pool
      requires free > 0
    {
      this.(free := free - 1)
    }

    function GivePermit(): Pool {
      this.(free := free + 1)
    }

    function PopFront(): Pool {
      this.(idle := if idle == [] then [] else idle[1..])
    }

    function PushBack(c: ConnId): Pool {
      this.(idle := idle + [c])
    }
  }

  /** A response head that reached `task`: the request it answers and the connection's endpoint. */
  datatype Delivery = Delivery(task: TaskId, answers: TaskId, asked: Endpoint, from: Endpoint)

  datatype System = System(
    size: nat,
    registry: map<Endpoint, PoolId>,
    pools: seq<Pool>,
    conns: seq<Conn>,
    tasks: map<TaskId, Phase>,
    log: seq<Delivery>)

  datatype Action =
    | Arrive(endpoint: Endpoint)
    | Get | Insert | Acquire | PermitTimeout
    | Pop(ready: bool)
    | DialOk | DialFail
    | Send | SendFail | Respond | BodyEnd | BodyFail
    | Drop(ready: bool)
    | Cancel
    | FreePermit

  // ---------------------------------------------------------------- steps

  /** `is_ready` may say anything, except yes while an exchange is in flight. */
  predicate ReadyAllowed(c: Conn, ready: bool) {
    ready ==> c.outstanding == []
  }

  predicate Enabled(s: System, t: TaskId, a: Action) {
    if a.Arrive? then t !in s.tasks else
    t in s.tasks &&
    var ph := s.tasks[t];
    match a
    case Get => ph.Lookup?
    case Insert => ph.Missed?
    case Acquire => ph.Waiting? && ph.pool < |s.pools| && s.pools[ph.pool].free > 0
    case PermitTimeout => ph.Waiting?
    case Pop(ready) =>
      && ph.Permitted? && ph.pool < |s.pools|
      && (s.pools[ph.pool].idle != [] ==>
            && s.pools[ph.pool].idle[0] < |s.conns|
            && ReadyAllowed(s.conns[s.pools[ph.pool].idle[0]], ready))
    case DialOk => ph.Dialing? && ph.pool < |s.pools|
    case DialFail => ph.Dialing?
    case Send => Holds(s, ph) && ph.stage.Ready?
    case SendFail => Holds(s, ph) && ph.stage.Sent?
    case Respond => Holds(s, ph) && ph.stage.Sent? && s.conns[ph.conn].outstanding != []
    case BodyEnd => Holds(s, ph) && ph.stage.Head? && s.conns[ph.conn].outstanding != []
    case BodyFail => Holds(s, ph) && ph.stage.Head?
    case Drop(ready) => Holds(s, ph) && ph.pool < |s.pools| && ReadyAllowed(s.conns[ph.conn], ready)
    case Cancel => ph.Lookup? || ph.Missed? || ph.Waiting? || ph.Permitted? || ph.Dialing?
    case FreePermit => ph.Releasing? && ph.pool < |s.pools|
    case Arrive(_) => false
  }

  predicate Holds(s: System, ph: Phase) {
    ph.Holding? && ph.conn < |s.conns|
  }

  function At(s: System, t: TaskId, ph: Phase): System {
    s.(tasks := s.tasks[t := ph])
  }

  function SetConn(s: System, c: ConnId, conn: Conn): System
    requires c < |s.conns|
  {
    s.(conns := s.conns[c := conn])
  }

  function SetPool(s: System, p: PoolId, pool: Pool): System
    requires p < |s.pools|
  {
    s.(pools := s.pools[p := pool])
  }

  /** Giving up before a client is held drops the permit, if there is one. */
  function Abandon(ph: Phase): Phase {
    match ph
    case Permitted(endpoint, pool) => Releasing(endpoint, pool)
    case Dialing(endpoint, pool, permit) => if permit then Releasing(endpoint, pool) else Gone
    case _ => Gone
  }

  function PopStep(s: System, t: TaskId, ready: bool): System
    requires Enabled(s, t, Pop(ready))
  {
    var ph := s.tasks[t];
    var pool := s.pools[ph.pool];
    if pool.idle == [] then
      At(s, t, Dialing(ph.endpoint, ph.pool, true))
    else
      var c := pool.idle[0];
      var s' := SetPool(s, ph.pool, pool.PopFront());
      if s.conns[c].healthy && ready then
        At(SetConn(s', c, s.conns[c].(place := HeldBy(t))), t, Holding(ph.endpoint, ph.pool, true, c, Ready))
      else
        At(SetConn(s', c, s.conns[c].(place := Dropped)), t, Dialing(ph.endpoint, ph.pool, true))
  }

  /** `Drop for PooledClient`, up to the point where the permit goes; also every early exit while holding. */
  function DropStep(s: System, t: TaskId, ready: bool): System
    requires Enabled(s, t, Drop(ready))
  {
    var ph := s.tasks[t];
    var conn := s.conns[ph.conn];
    var after := if ph.permit then Releasing(ph.endpoint, ph.pool) else Gone;
    if ph.permit && conn.healthy && ready then
      At(SetPool(SetConn(s, ph.conn, conn.(place := Idle(ph.pool))), ph.pool, s.pools[ph.pool].PushBack(ph.conn)),
         t, after)
    else
      At(SetConn(s, ph.conn, conn.(place := Dropped)), t, after)
  }

  function Next(s: System, t: TaskId, a: Action): System
    requires Enabled(s, t, a)
  {
    if a.Arrive? then At(s, t, Lookup(a.endpoint)) else
    var ph := s.tasks[t];
    match a
    case Get =>
      At(s, t, if ph.endpoint in s.registry then Waiting(ph.endpoint, s.registry[ph.endpoint]) else Missed(ph.endpoint))
    case Insert =>
      if ph.endpoint in s.registry then At(s, t, Waiting(ph.endpoint, s.registry[ph.endpoint]))
      else
        var p := |s.pools|;
        At(s.(registry := s.registry[ph.endpoint := p], pools := s.pools + [Pool(ph.endpoint, s.size, [])]),
           t, Waiting(ph.endpoint, p))
    case Acquire =>
      At(SetPool(s, ph.pool, s.pools[ph.pool].TakePermit()), t, Permitted(ph.endpoint, ph.pool))
    case PermitTimeout => At(s, t, Dialing(ph.endpoint, ph.pool, false))
    case Pop(ready) => PopStep(s, t, ready)
    case DialOk =>
      var c := |s.conns|;
      At(s.(conns := s.conns + [Conn(s.pools[ph.pool].endpoint, true, !ph.permit, [], HeldBy(t))]),
         t, Holding(ph.endpoint, ph.pool, ph.permit, c, Ready))
    case DialFail => At(s, t, Abandon(ph))
    case Send =>
      var conn := s.conns[ph.conn];
      At(SetConn(s, ph.conn, conn.(outstanding := conn.outstanding + [t])), t, ph.(stage := Sent))
    case SendFail => At(SetConn(s, ph.conn, s.conns[ph.conn].(healthy := false)), t, ph.(stage := Failed))
    case Respond =>
      var conn := s.conns[ph.conn];
      At(s.(log := s.log + [Delivery(t, conn.outstanding[0], ph.endpoint, conn.endpoint)]), t, ph.(stage := Head))
    case BodyEnd =>
      var conn := s.conns[ph.conn];
      At(SetConn(s, ph.conn, conn.(outstanding := conn.outstanding[1..])), t, ph.(stage := Complete))
    case BodyFail => At(SetConn(s, ph.conn, s.conns[ph.conn].(healthy := false)), t, ph.(stage := Failed))
    case Drop(ready) => DropStep(s, t, ready)
    case Cancel => At(s, t, Abandon(ph))
    case FreePermit =>
      At(SetPool(s, ph.pool, s.pools[ph.pool].GivePermit()), t, Gone)
    case Arrive(_) => s
  }

  // ---------------------------------------------------------------- counting tasks

  datatype Tally = PermitOf(pool: PoolId) | ClientOf(pool: PoolId)

  predicate HasPool(ph: Phase) {
    !ph.Lookup? && !ph.Missed? && !ph.Gone?
  }

  /** Does a task in phase `ph` own a permit of the pool, or (past the pop) a slot for a pooled client? */
  predicate Counts(ph: Phase, tally: Tally) {
    && HasPool(ph) && ph.pool == tally.pool
    && match ph
       case Permitted(_, _) => tally.PermitOf?
       case Releasing(_, _) => tally.PermitOf?
       case Dialing(_, _, permit) => permit
       case Holding(_, _, permit, _, _) => permit
       case _ => false
  }

  function Counted(tasks: map<TaskId, Phase>, tally: Tally): set<TaskId> {
    set t | t in tasks && Counts(tasks[t], tally)
  }

  function Count(tasks: map<TaskId, Phase>, tally: Tally): nat {
    |Counted(tasks, tally)|
  }

  lemma CountUpdate(tasks: map<TaskId, Phase>, t: TaskId, ph: Phase, tally: Tally)
    ensures Count(tasks[t := ph], tally)
            == Count(tasks, tally) - (if t in tasks && Counts(tasks[t], tally) then 1 else 0)
               + (if Counts(ph, tally) then 1 else 0)
  {
    var before, after := Counted(tasks, tally), Counted(tasks[t := ph], tally);
    assert after - {t} == before - {t};
    assert |before| == |before - {t}| + if t in before then 1 else 0;
    assert |after| == |after - {t}| + if t in after then 1 else 0;
  }

  /** A client slot is only ever taken together with a permit. */
  lemma ClientsWithinPermits(tasks: map<TaskId, Phase>, p: PoolId)
    ensures Count(tasks, ClientOf(p)) <= Count(tasks, PermitOf(p))
    ensures forall t :: t in tasks && tasks[t].Permitted? && tasks[t].pool == p ==>
                          Count(tasks, ClientOf(p)) < Count(tasks, PermitOf(p))
  {
    var clients, permits := Counted(tasks, ClientOf(p)), Counted(tasks, PermitOf(p));
    Subset(clients, permits);
    forall t | t in tasks && tasks[t].Permitted? && tasks[t].pool == p
      ensures |clients| < |permits|
    {
      Subset(clients, permits - {t});
    }
  }

  lemma Subset<T>(a: set<T>, b: set<T>)
    requires a <= b
    ensures |a| <= |b|
  {
    assert b == a + (b - a);
  }

  // ---------------------------------------------------------------- invariant

  predicate RegistryOk(s: System) {
    && (forall e :: e in s.registry ==> s.registry[e] < |s.pools| && s.pools[s.registry[e]].endpoint == e)
    && (forall t :: t in s.tasks && HasPool(s.tasks[t]) ==>
          s.tasks[t].endpoint in s.registry && s.registry[s.tasks[t].endpoint] == s.tasks[t].pool)
  }

  predicate PermitsOk(s: System) {
    forall p :: 0 <= p < |s.pools| ==> s.pools[p].free + Count(s.tasks, PermitOf(p)) == s.size
  }

  predicate BoundOk(s: System) {
    forall p :: 0 <= p < |s.pools| ==> |s.pools[p].idle| + Count(s.tasks, ClientOf(p)) <= s.size
  }

  predicate Distinct(q: seq<ConnId>) {
    forall i, j :: 0 <= i < j < |q| ==> q[i] != q[j]
  }

  /** Idle connections are healthy, at an exchange boundary, of this endpoint, and nobody else's. */
  predicate IdleOk(s: System) {
    forall p :: 0 <= p < |s.pools| ==> IdleQueue(s, p)
  }

  predicate IdleQueue(s: System, p: PoolId)
    requires p < |s.pools|
  {
    && Distinct(s.pools[p].idle)
    && forall c :: c in s.pools[p].idle ==> c < |s.conns| && IdleConn(s.conns[c], p, s.pools[p].endpoint)
  }

  predicate IdleConn(conn: Conn, p: PoolId, endpoint: Endpoint) {
    conn.place == Idle(p) && conn.endpoint == endpoint && conn.healthy && !conn.overflow && conn.outstanding == []
  }

  predicate HoldingOk(s: System) {
    forall t :: t in s.tasks && s.tasks[t].Holding? ==> Holds(s, s.tasks[t]) && HeldConn(s.conns[s.tasks[t].conn], t, s.tasks[t])
  }

  predicate HeldConn(conn: Conn, t: TaskId, ph: Phase)
    requires ph.Holding?
  {
    && conn.place == HeldBy(t) && conn.endpoint == ph.endpoint && conn.overflow == !ph.permit
    && match ph.stage
       case Ready => conn.outstanding == []
       case Sent => conn.outstanding == [t]
       case Head => conn.outstanding == [t]
       case Complete => conn.outstanding == []
       case Failed => !conn.healthy
  }

  predicate LogOk(s: System) {
    forall i :: 0 <= i < |s.log| ==> s.log[i].answers == s.log[i].task && s.log[i].from == s.log[i].asked
  }

  predicate Inv(s: System) {
    RegistryOk(s) && PermitsOk(s) && BoundOk(s) && IdleOk(s) && HoldingOk(s) && LogOk(s)
  }

  function Init(size: nat): System {
    System(size, map[], [], [], map[], [])
  }

  // ---------------------------------------------------------------- preservation

  /** A step changes one task, and at most adds one pool, for an endpoint that had none. */
  lemma Footprint(s: System, t: TaskId, a: Action)
    requires Enabled(s, t, a)
    ensures var s' := Next(s, t, a);
            && t in s'.tasks && s'.tasks == s.tasks[t := s'.tasks[t]]
            && |s.pools| <= |s'.pools|
            && (forall p :: 0 <= p < |s.pools| ==> s'.pools[p].endpoint == s.pools[p].endpoint)
            && (|s'.pools| == |s.pools| ==> s'.registry == s.registry)
            && (|s'.pools| > |s.pools| ==>
                  && |s'.pools| == |s.pools| + 1 && s'.pools[|s.pools|] == Pool(s.tasks[t].endpoint, s.size, [])
                  && s.tasks[t].endpoint !in s.registry
                  && s'.registry == s.registry[s.tasks[t].endpoint := |s.pools|])
  {
  }

  lemma TaskKeepsRegistry(s: System, t: TaskId, a: Action)
    requires RegistryOk(s) && Enabled(s, t, a)
    ensures var s' := Next(s, t, a);
            HasPool(s'.tasks[t]) ==>
              s'.tasks[t].endpoint in s'.registry && s'.registry[s'.tasks[t].endpoint] == s'.tasks[t].pool
  {
  }

  lemma KeepsRegistry(s: System, t: TaskId, a: Action)
    requires RegistryOk(s) && Enabled(s, t, a)
    ensures RegistryOk(Next(s, t, a))
  {
    Footprint(s, t, a);
    TaskKeepsRegistry(s, t, a);
  }

  function Bit(b: bool): nat {
    if b then 1 else 0
  }

  /** A task that gains a permit takes it from the semaphore, and one that loses it gives it back. */
  lemma PermitMoves(s: System, t: TaskId, a: Action, p: PoolId)
    requires Enabled(s, t, a) && p < |s.pools|
    ensures var s' := Next(s, t, a);
            s'.pools[p].free + Bit(Counts(s'.tasks[t], PermitOf(p)))
            == s.pools[p].free + Bit(t in s.tasks && Counts(s.tasks[t], PermitOf(p)))
  {
    if a.Pop? {
      assert Next(s, t, a).pools[p].free == s.pools[p].free;
    } else if a.Drop? {
      assert Next(s, t, a).pools[p].free == s.pools[p].free;
    }
  }

  lemma KeepsPermits(s: System, t: TaskId, a: Action)
    requires RegistryOk(s) && PermitsOk(s) && Enabled(s, t, a)
    ensures PermitsOk(Next(s, t, a))
  {
    var s' := Next(s, t, a);
    Footprint(s, t, a);
    forall p | 0 <= p < |s'.pools|
      ensures s'.pools[p].free + Count(s'.tasks, PermitOf(p)) == s'.size
    {
      CountUpdate(s.tasks, t, s'.tasks[t], PermitOf(p));
      if p == |s.pools| {
        NobodyYet(s, p);
      } else {
        PermitMoves(s, t, a, p);
      }
    }
  }

  /** No task knows a pool that has not been created. */
  lemma NobodyYet(s: System, p: PoolId)
    requires RegistryOk(s) && p >= |s.pools|
    ensures Count(s.tasks, PermitOf(p)) == 0 && Count(s.tasks, ClientOf(p)) == 0
  {
    assert Counted(s.tasks, PermitOf(p)) == {};
    assert Counted(s.tasks, ClientOf(p)) == {};
  }

  /** A task past the pop has a slot that came from the deque, or the deque was empty. */
  lemma SlotMoves(s: System, t: TaskId, a: Action, p: PoolId)
    requires Enabled(s, t, a) && p < |s.pools|
    ensures var s' := Next(s, t, a);
            var was := Bit(t in s.tasks && Counts(s.tasks[t], ClientOf(p)));
            || |s'.pools[p].idle| + Bit(Counts(s'.tasks[t], ClientOf(p))) <= |s.pools[p].idle| + was
            || (t in s.tasks && s.tasks[t].Permitted? && s.tasks[t].pool == p && s'.pools[p].idle == [])
  {
  }

  lemma KeepsBound(s: System, t: TaskId, a: Action)
    requires RegistryOk(s) && PermitsOk(s) && BoundOk(s) && Enabled(s, t, a)
    ensures BoundOk(Next(s, t, a))
  {
    var s' := Next(s, t, a);
    Footprint(s, t, a);
    forall p | 0 <= p < |s'.pools|
      ensures |s'.pools[p].idle| + Count(s'.tasks, ClientOf(p)) <= s'.size
    {
      CountUpdate(s.tasks, t, s'.tasks[t], ClientOf(p));
      if p == |s.pools| {
        NobodyYet(s, p);
      } else {
        ClientsWithinPermits(s.tasks, p);
        SlotMoves(s, t, a, p);
      }
    }
  }

  lemma KeepsIdleQueue(s: System, t: TaskId, a: Action, p: PoolId)
    requires RegistryOk(s) && IdleOk(s) && HoldingOk(s) && Enabled(s, t, a) && p < |s.pools|
    ensures IdleQueue(Next(s, t, a), p)
  {
    var s' := Next(s, t, a);
    assert IdleQueue(s, p);
    if a.Pop? {
      assert IdleQueue(s, s.tasks[t].pool);
      if s.tasks[t].pool == p && s.pools[p].idle != [] {
        DistinctTail(s.pools[p].idle);
      }
    }
    forall c | c in s'.pools[p].idle
      ensures c < |s'.conns| && IdleConn(s'.conns[c], p, s'.pools[p].endpoint)
    {
      assert c in s.pools[p].idle || (a.Drop? && c == s.tasks[t].conn);
    }
  }

  lemma KeepsIdle(s: System, t: TaskId, a: Action)
    requires RegistryOk(s) && IdleOk(s) && HoldingOk(s) && Enabled(s, t, a)
    ensures IdleOk(Next(s, t, a))
  {
    Footprint(s, t, a);
    forall p | 0 <= p < |Next(s, t, a).pools|
      ensures IdleQueue(Next(s, t, a), p)
    {
      if p < |s.pools| {
        KeepsIdleQueue(s, t, a, p);
      }
    }
  }

  lemma DistinctTail(q: seq<ConnId>)
    requires Distinct(q) && q != []
    ensures Distinct(q[1..]) && q[0] !in q[1..]
  {
  }

  lemma KeepsHolding(s: System, t: TaskId, a: Action)
    requires RegistryOk(s) && IdleOk(s) && HoldingOk(s) && Enabled(s, t, a)
    ensures HoldingOk(Next(s, t, a))
  {
    var s' := Next(s, t, a);
    if a.Pop? {
      assert IdleQueue(s, s.tasks[t].pool);
    }
    forall u | u in s'.tasks && s'.tasks[u].Holding?
      ensures Holds(s', s'.tasks[u]) && HeldConn(s'.conns[s'.tasks[u].conn], u, s'.tasks[u])
    {
      if u != t {
        assert Holds(s, s.tasks[u]) && HeldConn(s.conns[s.tasks[u].conn], u, s.tasks[u]);
      }
    }
  }

  lemma KeepsLog(s: System, t: TaskId, a: Action)
    requires HoldingOk(s) && LogOk(s) && Enabled(s, t, a)
    ensures LogOk(Next(s, t, a))
  {
  }

  // ---------------------------------------------------------------- whole runs

  datatype Event = Event(task: TaskId, action: Action)

  predicate Possible(s: System, run: seq<Event>)
    decreases |run|
  {
    run == [] || (Enabled(s, run[0].task, run[0].action) && Possible(Next(s, run[0].task, run[0].action), run[1..]))
  }

  function After(s: System, run: seq<Event>): System
    requires Possible(s, run)
    decreases |run|
  {
    if run == [] then s else After(Next(s, run[0].task, run[0].action), run[1..])
  }

  lemma NextKeepsInv(s: System, t: TaskId, a: Action)
    requires Inv(s) && Enabled(s, t, a)
    ensures Inv(Next(s, t, a))
  {
    KeepsRegistry(s, t, a);
    KeepsPermits(s, t, a);
    KeepsBound(s, t, a);
    KeepsIdle(s, t, a);
    KeepsHolding(s, t, a);
    KeepsLog(s, t, a);
  }

  lemma {:induction false} RunKeepsInv(s: System, run: seq<Event>)
    requires Inv(s) && Possible(s, run)
    ensures Inv(After(s, run)) && After(s, run).size == s.size
    decreases |run|
  {
    if run != [] {
      NextKeepsInv(s, run[0].task, run[0].action);
      RunKeepsInv(Next(s, run[0].task, run[0].action), run[1..]);
    }
  }

  /**
    In every reachable state and for every pool: permits are conserved, idle clients and
    clients in use or being dialled under a permit stay within `size`, and no client dialled
    without a permit is ever idle.
   */
  lemma PoolBound(size: nat, run: seq<Event>, p: PoolId)
    requires Possible(Init(size), run) && p < |After(Init(size), run).pools|
    ensures var s := After(Init(size), run);
            && s.pools[p].free + Count(s.tasks, PermitOf(p)) == size
            && |s.pools[p].idle| + Count(s.tasks, ClientOf(p)) <= size
            && forall c :: c in s.pools[p].idle ==> c < |s.conns| && !s.conns[c].overflow
  {
    RunKeepsInv(Init(size), run);
    assert IdleQueue(After(Init(size), run), p);
  }

  /**
    Over every run, each response that reached a task answers that task's own request and
    came over a connection dialled to the endpoint the task asked for; and every idle
    connection is at an exchange boundary.
   */
  lemma NoCrossTalk(size: nat, run: seq<Event>)
    requires Possible(Init(size), run)
    ensures var s := After(Init(size), run);
            && (forall i :: 0 <= i < |s.log| ==> s.log[i].answers == s.log[i].task && s.log[i].from == s.log[i].asked)
            && (forall p :: 0 <= p < |s.pools| ==> AtBoundary(s, p))
  {
    RunKeepsInv(Init(size), run);
    var s := After(Init(size), run);
    forall p | 0 <= p < |s.pools|
      ensures AtBoundary(s, p)
    {
      assert IdleQueue(s, p);
    }
  }

  predicate AtBoundary(s: System, p: PoolId)
    requires p < |s.pools|
  {
    forall c :: c in s.pools[p].idle ==>
      c < |s.conns| && s.conns[c].outstanding == [] && s.conns[c].endpoint == s.pools[p].endpoint
  }

  /** No connection is in two hands: not held twice, not held while idle, not idle twice. */
  lemma SoleCustody(size: nat, run: seq<Event>, t: TaskId, u: TaskId)
    requires Possible(Init(size), run)
    requires var s := After(Init(size), run);
             t in s.tasks && u in s.tasks && s.tasks[t].Holding? && s.tasks[u].Holding?
    ensures var s := After(Init(size), run);
            && (s.tasks[t].conn == s.tasks[u].conn ==> t == u)
            && (forall p :: 0 <= p < |s.pools| ==> s.tasks[t].conn !in s.pools[p].idle)
  {
    RunKeepsInv(Init(size), run);
    var s := After(Init(size), run);
    forall p | 0 <= p < |s.pools|
      ensures s.tasks[t].conn !in s.pools[p].idle
    {
      assert IdleQueue(s, p);
    }
  }

  /** Two tasks that asked for the same endpoint, however they raced, use the same pool. */
  lemma OnePoolPerEndpoint(size: nat, run: seq<Event>, t: TaskId, u: TaskId)
    requires Possible(Init(size), run)
    requires var s := After(Init(size), run);
             t in s.tasks && u in s.tasks && HasPool(s.tasks[t]) && HasPool(s.tasks[u])
    ensures var s := After(Init(size), run);
            s.tasks[t].pool == s.tasks[u].pool <==> s.tasks[t].endpoint == s.tasks[u].endpoint
  {
    RunKeepsInv(Init(size), run);
  }

  /** When every task is gone, all permits are back. */
  lemma {:induction false} PermitsComeBack(size: nat, run: seq<Event>, p: PoolId)
    requires Possible(Init(size), run)
    requires var s := After(Init(size), run);
             p < |s.pools| && forall t :: t in s.tasks ==> s.tasks[t].Gone?
    ensures After(Init(size), run).pools[p].free == size
  {
    RunKeepsInv(Init(size), run);
    var s := After(Init(size), run);
    assert Counted(s.tasks, PermitOf(p)) == {};
  }
}
