/**
  Routing with the TTL cache, under concurrency: many `route` calls run at once, the cache may
  evict at any time, the settings may change between any two steps, and time passes.
 */
module Routing {
  import opened Bytes
  import opened Wrappers
  import opened Address
  import opened Endpoint

  type Data = seq<Byte>
  type TaskId = nat

  datatype Entry = Entry(endpoint: string, insertedAt: nat)

  type Cache = map<Data, Entry>

  datatype Answer = Routed(endpoint: string, cached: bool) | Failed

  datatype Phase =
    | Begun(data: Data, ttl: nat)                     // the TTL has been read
    | Missed(data: Data, ttl: nat)                    // no usable cache entry
    | Resolved(data: Data, ttl: nat, endpoint: string)
    | Checked(data: Data, ttl: nat, endpoint: string)
    | Done(data: Data, answer: Answer)

  /** An uncached route that completed, and a cache hit, with their times. */
  datatype Completion = Completion(data: Data, endpoint: string, at: nat)
  datatype Hit = Hit(data: Data, endpoint: string, at: nat, ttl: nat)

  datatype Router = Router(
    lib: V6Text,
    now: nat,
    ttl: nat,
    skip: bool,
    cache: Cache,
    tasks: map<TaskId, Phase>,
    completions: seq<Completion>,
    hits: seq<Hit>)

  datatype Action =
    | Tick(d: nat)
    | SetTtl(seconds: nat)
    | SetSkip(skip: bool)
    | Evict(data: Data)
    | Begin(task: TaskId, data: Data)
    | Look(task: TaskId)
    | Resolve(task: TaskId, answer: Option<string>)   // the callback's or the resolver's answer
    | Check(task: TaskId, lookup: Lookup)             // with what DNS says at the moment
    | Store(task: TaskId)

  // ---------------------------------------------------------------- steps

  /** A usable entry: the cache is on and the entry is younger than the TTL. */
  function Fresh(cache: Cache, data: Data, ttl: nat, now: nat): Option<string> {
    if ttl > 0 && data in cache && now - cache[data].insertedAt < ttl then Some(cache[data].endpoint) else None
  }

  /** An empty endpoint counts as not found. */
  function Usable(answer: Option<string>): Option<string> {
    if answer == Some("") then None else answer
  }

  function Vet(endpoint: string, skip: bool, lookup: Lookup, lib: V6Text): Option<string> {
    if skip then Some(endpoint)
    else
      match Validate(endpoint, lookup, lib)
      case Ok(out) => Some(out)
      case Err(_) => None
  }

  function Stored(cache: Cache, data: Data, ttl: nat, endpoint: string, now: nat): Cache {
    if ttl > 0 then cache[data := Entry(endpoint, now)] else cache
  }

  predicate Enabled(s: Router, a: Action) {
    match a
    case Begin(t, _) => t !in s.tasks
    case Look(t) => t in s.tasks && s.tasks[t].Begun?
    case Resolve(t, _) => t in s.tasks && s.tasks[t].Missed?
    case Check(t, _) => t in s.tasks && s.tasks[t].Resolved?
    case Store(t) => t in s.tasks && s.tasks[t].Checked?
    case _ => true
  }

  function At(s: Router, t: TaskId, ph: Phase): Router {
    s.(tasks := s.tasks[t := ph])
  }

  function Next(s: Router, a: Action): Router
    requires Enabled(s, a)
  {
    match a
    case Tick(d) => s.(now := s.now + d)
    case SetTtl(seconds) => s.(ttl := seconds)
    case SetSkip(skip) => s.(skip := skip)
    case Evict(data) => s.(cache := s.cache - {data})
    case Begin(t, data) => At(s, t, Begun(data, s.ttl))
    case Look(t) =>
      var Begun(data, ttl) := s.tasks[t];
      (match Fresh(s.cache, data, ttl, s.now)
       case Some(endpoint) => At(s, t, Done(data, Routed(endpoint, true))).(hits := s.hits + [Hit(data, endpoint, s.now, ttl)])
       case None => At(s, t, Missed(data, ttl)))
    case Resolve(t, answer) =>
      var Missed(data, ttl) := s.tasks[t];
      (match Usable(answer)
       case Some(endpoint) => At(s, t, Resolved(data, ttl, endpoint))
       case None => At(s, t, Done(data, Failed)))
    case Check(t, lookup) =>
      var Resolved(data, ttl, endpoint) := s.tasks[t];
      (match Vet(endpoint, s.skip, lookup, s.lib)
       case Some(out) => At(s, t, Checked(data, ttl, out))
       case None => At(s, t, Done(data, Failed)))
    case Store(t) =>
      var Checked(data, ttl, endpoint) := s.tasks[t];
      At(s, t, Done(data, Routed(endpoint, false)))
        .(cache := Stored(s.cache, data, ttl, endpoint, s.now),
          completions := s.completions + [Completion(data, endpoint, s.now)])
  }

  predicate Init(s: Router) {
    s.cache == map[] && s.tasks == map[] && s.completions == [] && s.hits == []
  }

  predicate Possible(s: Router, run: seq<Action>)
    decreases |run|
  {
    run == [] || (Enabled(s, run[0]) && Possible(Next(s, run[0]), run[1..]))
  }

  function After(s: Router, run: seq<Action>): Router
    requires Possible(s, run)
    decreases |run|
  {
    if run == [] then s else After(Next(s, run[0]), run[1..])
  }

  lemma RunStep(s: Router, a: Action, rest: seq<Action>)
    requires Enabled(s, a) && Possible(Next(s, a), rest)
    ensures Possible(s, [a] + rest) && After(s, [a] + rest) == After(Next(s, a), rest)
  {
    assert ([a] + rest)[1..] == rest;
  }

  // ---------------------------------------------------------------- freshness

  predicate Completed(s: Router, data: Data, endpoint: string, at: nat) {
    at <= s.now && Completion(data, endpoint, at) in s.completions
  }

  /** A completion of the same route, at most one TTL before the hit. */
  predicate Backed(s: Router, h: Hit) {
    exists at: nat :: Completed(s, h.data, h.endpoint, at) && at <= h.at < at + h.ttl
  }

  predicate FreshnessOk(s: Router) {
    && (forall data :: data in s.cache ==> Completed(s, data, s.cache[data].endpoint, s.cache[data].insertedAt))
    && (forall i :: 0 <= i < |s.hits| ==> Backed(s, s.hits[i]))
  }

  lemma BackedStays(s: Router, s': Router, h: Hit)
    requires Backed(s, h) && s.now <= s'.now && s.completions <= s'.completions
    ensures Backed(s', h)
  {
    var at: nat :| Completed(s, h.data, h.endpoint, at) && at <= h.at < at + h.ttl;
    assert Completed(s', h.data, h.endpoint, at);
  }

  lemma NextKeepsFreshness(s: Router, a: Action)
    requires FreshnessOk(s) && Enabled(s, a)
    ensures FreshnessOk(Next(s, a))
  {
    var s' := Next(s, a);
    forall i | 0 <= i < |s'.hits|
      ensures Backed(s', s'.hits[i])
    {
      if i < |s.hits| {
        BackedStays(s, s', s.hits[i]);
      } else {
        var h := s'.hits[i];
        assert Completed(s', h.data, h.endpoint, s.cache[h.data].insertedAt);
      }
    }
  }

  lemma {:induction false} RunKeepsFreshness(s: Router, run: seq<Action>)
    requires FreshnessOk(s) && Possible(s, run)
    ensures FreshnessOk(After(s, run))
    decreases |run|
  {
    if run != [] {
      NextKeepsFreshness(s, run[0]);
      RunKeepsFreshness(Next(s, run[0]), run[1..]);
    }
  }

  /**
    Every cache hit, over every run, returned an endpoint with which an uncached route of the
    same data had completed less than one TTL before.
   */
  lemma HitsAreFresh(s: Router, run: seq<Action>, i: nat) returns (at: nat)
    requires Init(s) && Possible(s, run) && i < |After(s, run).hits|
    ensures var h := After(s, run).hits[i];
            Completion(h.data, h.endpoint, at) in After(s, run).completions && at <= h.at < at + h.ttl
  {
    RunKeepsFreshness(s, run);
    var h := After(s, run).hits[i];
    assert Backed(After(s, run), h);
    at :| Completed(After(s, run), h.data, h.endpoint, at) && at <= h.at < at + h.ttl;
  }

  /** Only a route that completes, and an eviction, change the cache: a failing route does not. */
  lemma OnlyCompletionsStore(s: Router, a: Action)
    requires Enabled(s, a) && Next(s, a).cache != s.cache
    ensures a.Evict? || a.Store?
    ensures a.Store? ==> Next(s, a).tasks[a.task].answer == Routed(s.tasks[a.task].endpoint, false)
  {
  }

  // ---------------------------------------------------------------- safety

  /** The text of an address outside the blocked ranges, with a port in 1..65535 if any. */
  ghost predicate IsSafe(endpoint: string, lib: V6Text) {
    exists t: Target :: Safe(t) && endpoint == Format(t, lib)
  }

  ghost predicate PhaseSafe(ph: Phase, lib: V6Text) {
    && (ph.Checked? ==> IsSafe(ph.endpoint, lib))
    && (ph.Done? && ph.answer.Routed? ==> IsSafe(ph.answer.endpoint, lib))
  }

  /** Validation is on, and nothing unsafe is held, except for the answers of the finished tasks `past`. */
  ghost predicate AllSafe(s: Router, past: set<TaskId>) {
    && !s.skip
    && (forall t :: t in past ==> t in s.tasks && s.tasks[t].Done?)
    && (forall data :: data in s.cache ==> IsSafe(s.cache[data].endpoint, s.lib))
    && (forall t :: t in s.tasks && t !in past ==> PhaseSafe(s.tasks[t], s.lib))
  }

  lemma VetIsSafe(endpoint: string, lookup: Lookup, lib: V6Text)
    requires Vet(endpoint, false, lookup, lib).Some?
    ensures IsSafe(Vet(endpoint, false, lookup, lib).value, lib)
  {
    var t := Endpoint.Check(endpoint, lookup, lib).value;
    assert Safe(t) && Validate(endpoint, lookup, lib).value == Format(t, lib);
  }

  /** A step of a route. */
  predicate Acts(a: Action) {
    a.Begin? || a.Look? || a.Resolve? || a.Check? || a.Store?
  }

  lemma StepIsSafe(s: Router, a: Action, past: set<TaskId>)
    requires AllSafe(s, past) && Enabled(s, a) && Acts(a)
    ensures PhaseSafe(Next(s, a).tasks[a.task], s.lib)
  {
    match a
    case Store(t) => assert PhaseSafe(s.tasks[t], s.lib);
    case Check(t, lookup) =>
      if Vet(s.tasks[t].endpoint, false, lookup, s.lib).Some? {
        VetIsSafe(s.tasks[t].endpoint, lookup, s.lib);
      }
    case _ =>
  }

  lemma NextKeepsSafe(s: Router, a: Action, past: set<TaskId>)
    requires AllSafe(s, past) && Enabled(s, a) && a != SetSkip(true)
    ensures AllSafe(Next(s, a), past) && Next(s, a).lib == s.lib
  {
    var s' := Next(s, a);
    if Acts(a) {
      StepIsSafe(s, a, past);
    }
    forall t | t in s'.tasks && t !in past
      ensures PhaseSafe(s'.tasks[t], s.lib)
    {
      assert (Acts(a) && t == a.task) || (t in s.tasks && s'.tasks[t] == s.tasks[t]);
    }
    forall data | data in s'.cache
      ensures IsSafe(s'.cache[data].endpoint, s.lib)
    {
      if a.Store? && data == s.tasks[a.task].data {
        assert PhaseSafe(s.tasks[a.task], s.lib);
      }
    }
  }

  lemma {:induction false} RunKeepsSafe(s: Router, run: seq<Action>, past: set<TaskId>)
    requires AllSafe(s, past) && Possible(s, run) && SetSkip(true) !in run
    ensures AllSafe(After(s, run), past) && After(s, run).lib == s.lib
    decreases |run|
  {
    if run != [] {
      NextKeepsSafe(s, run[0], past);
      RunKeepsSafe(Next(s, run[0]), run[1..], past);
    }
  }

  /**
    As long as validation is never switched off, everything `route` answers with, fresh or
    cached, under any interleaving and evictions, is an address outside the blocked ranges.
   */
  lemma RoutesAreSafe(s: Router, run: seq<Action>, t: TaskId) returns (target: Target)
    requires Init(s) && !s.skip && Possible(s, run) && SetSkip(true) !in run
    requires t in After(s, run).tasks && After(s, run).tasks[t].Done? && After(s, run).tasks[t].answer.Routed?
    ensures After(s, run).tasks[t].answer.endpoint == Format(target, s.lib)
    ensures Safe(target)
  {
    RunKeepsSafe(s, run, {});
    assert PhaseSafe(After(s, run).tasks[t], s.lib);
    target :| Safe(target) && After(s, run).tasks[t].answer.endpoint == Format(target, s.lib);
  }

  /** As long as validation is never switched off, an answer is dialled at the checked address and port. */
  lemma DialledIsSafe(s: Router, run: seq<Action>, t: TaskId, defaultPort: nat) returns (target: Target)
    requires Init(s) && !s.skip && Possible(s, run) && SetSkip(true) !in run
    requires t in After(s, run).tasks && After(s, run).tasks[t].Done? && After(s, run).tasks[t].answer.Routed?
    ensures var endpoint := After(s, run).tasks[t].answer.endpoint;
            && Safe(target) && endpoint == Format(target, s.lib)
            && (target.ip.IpV4? ==>
                  var (host, port) := ParseEndpoint(endpoint, defaultPort);
                  && ParseV4(host) == Some(target.ip.v4) && !IsBlockedV4(target.ip.v4)
                  && port == PortOr(target.port, defaultPort))
  {
    target := RoutesAreSafe(s, run, t);
    if target.ip.IpV4? {
      ParseFormatted(target.ip.v4, target.port, defaultPort, s.lib);
      ParsePrintV4(target.ip.v4);
    }
  }

  // ---------------------------------------------------------------- the cache refines the resolver

  /** A resolver, DNS and setting that do not change: what `route` would answer without a cache. */
  datatype World = World(resolver: Data -> Option<string>, lookup: Lookup, lib: V6Text, skip: bool)

  function Uncached(w: World, data: Data): Option<string> {
    match Usable(w.resolver(data))
    case None => None
    case Some(endpoint) => Vet(endpoint, w.skip, w.lookup, w.lib)
  }

  ghost predicate Stationary(w: World, s: Router, a: Action) {
    match a
    case SetSkip(skip) => skip == w.skip
    case Resolve(t, answer) => t in s.tasks && answer == w.resolver(s.tasks[t].data)
    case Check(_, lookup) => lookup == w.lookup
    case _ => true
  }

  ghost predicate StationaryRun(w: World, s: Router, run: seq<Action>)
    requires Possible(s, run)
    decreases |run|
  {
    run == [] || (Stationary(w, s, run[0]) && StationaryRun(w, Next(s, run[0]), run[1..]))
  }

  predicate PhaseAgrees(w: World, ph: Phase) {
    match ph
    case Resolved(data, _, endpoint) => Usable(w.resolver(data)) == Some(endpoint)
    case Checked(data, _, endpoint) => Uncached(w, data) == Some(endpoint)
    case Done(data, Routed(endpoint, _)) => Uncached(w, data) == Some(endpoint)
    case Done(data, Failed) => Uncached(w, data) == None
    case _ => true
  }

  ghost predicate Agrees(w: World, s: Router) {
    && s.skip == w.skip && s.lib == w.lib
    && (forall data :: data in s.cache ==> Uncached(w, data) == Some(s.cache[data].endpoint))
    && (forall t :: t in s.tasks ==> PhaseAgrees(w, s.tasks[t]))
  }

  /** The phase a task reaches agrees with the world, given that the cache and its old phase do. */
  lemma StepAgrees(w: World, s: Router, a: Action)
    requires Agrees(w, s) && Enabled(s, a) && Stationary(w, s, a)
    requires Acts(a)
    ensures PhaseAgrees(w, Next(s, a).tasks[a.task])
  {
    match a
    case Look(t) => assert PhaseAgrees(w, s.tasks[t]);
    case Check(t, lookup) =>
      assert PhaseAgrees(w, s.tasks[t]);
      assert Uncached(w, s.tasks[t].data) == Vet(s.tasks[t].endpoint, s.skip, lookup, s.lib);
    case _ =>
  }

  lemma NextKeepsAgreement(w: World, s: Router, a: Action)
    requires Agrees(w, s) && Enabled(s, a) && Stationary(w, s, a)
    ensures Agrees(w, Next(s, a))
  {
    var s' := Next(s, a);
    if Acts(a) {
      StepAgrees(w, s, a);
    }
    forall t | t in s'.tasks
      ensures PhaseAgrees(w, s'.tasks[t])
    {
      assert (Acts(a) && t == a.task) || (t in s.tasks && s'.tasks[t] == s.tasks[t]);
    }
    forall data | data in s'.cache
      ensures Uncached(w, data) == Some(s'.cache[data].endpoint)
    {
      assert (data in s.cache && s'.cache[data] == s.cache[data]) || (a.Store? && data == s.tasks[a.task].data);
    }
  }

  lemma {:induction false} RunKeepsAgreement(w: World, s: Router, run: seq<Action>)
    requires Agrees(w, s) && Possible(s, run) && StationaryRun(w, s, run)
    ensures Agrees(w, After(s, run))
    decreases |run|
  {
    if run != [] {
      NextKeepsAgreement(w, s, run[0]);
      RunKeepsAgreement(w, Next(s, run[0]), run[1..]);
    }
  }

  /** Against an unchanging resolver, every finished route, cached or not, has the uncached answer. */
  lemma CacheRefinesResolver(w: World, s: Router, run: seq<Action>, t: TaskId)
    requires Init(s) && w.lib == s.lib && w.skip == s.skip && Possible(s, run) && StationaryRun(w, s, run)
    requires t in After(s, run).tasks && After(s, run).tasks[t].Done?
    ensures var Done(data, answer) := After(s, run).tasks[t];
            Uncached(w, data) == if answer.Routed? then Some(answer.endpoint) else None
  {
    RunKeepsAgreement(w, s, run);
    assert PhaseAgrees(w, After(s, run).tasks[t]);
  }
}
