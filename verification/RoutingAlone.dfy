/** One route that nothing interrupts: its outcome, and that it is a run of the concurrent router. */
module RoutingAlone {
  import opened Wrappers
  import opened Endpoint
  import opened Routing

  /** What a route leaves behind when nothing else runs meanwhile. */
  datatype Outcome = Outcome(answer: Answer, cache: Cache)

  /** What a route that has to ask the resolver leaves behind. */
  function DirectOutcome(cache: Cache, data: Data, ttl: nat, direct: Option<string>, end: nat): Outcome {
    if direct.None? then Outcome(Failed, cache)
    else Outcome(Routed(direct.value, false), Stored(cache, data, ttl, direct.value, end))
  }

  /** A route that reads the cache at `start`, has the answer `direct` without it, and writes it at `end`. */
  function RouteAlone(cache: Cache, data: Data, ttl: nat, direct: Option<string>, start: nat, end: nat): Outcome {
    var hit := Fresh(cache, data, ttl, start);
    if hit.Some? then Outcome(Routed(hit.value, true), cache) else DirectOutcome(cache, data, ttl, direct, end)
  }

  predicate Own(t: TaskId, a: Action) {
    a.Tick? || (Acts(a) && a.task == t)
  }

  /** Every action of the run is a step of this task, or the passing of time. */
  predicate OnlyTask(t: TaskId, run: seq<Action>) {
    forall i :: 0 <= i < |run| ==> Own(t, run[i])
  }

  predicate Finished(s: Router, t: TaskId, data: Data, o: Outcome) {
    t in s.tasks && s.tasks[t] == Done(data, o.answer) && s.cache == o.cache
  }

  /** A run together with the states it passes through. */
  datatype Track = Track(states: seq<Router>, run: seq<Action>)

  ghost predicate Follows(states: seq<Router>, run: seq<Action>, i: nat)
    requires i < |run| && |states| == |run| + 1
  {
    Enabled(states[i], run[i]) && states[i + 1] == Next(states[i], run[i])
  }

  /** The states follow from each other, by steps of this task and the passing of time. */
  ghost predicate Good(k: Track, t: TaskId) {
    && |k.states| == |k.run| + 1 && OnlyTask(t, k.run)
    && forall i :: 0 <= i < |k.run| ==> Follows(k.states, k.run, i)
  }

  ghost predicate From(k: Track, s: Router, t: TaskId, cur: Router) {
    Good(k, t) && k.states[0] == s && k.states[|k.run|] == cur
  }

  lemma FollowsStays(states: seq<Router>, run: seq<Action>, next: Router, a: Action, i: nat)
    requires i < |run| && |states| == |run| + 1 && Follows(states, run, i)
    ensures Follows(states + [next], run + [a], i)
  {
    assert (states + [next])[i] == states[i] && (states + [next])[i + 1] == states[i + 1] && (run + [a])[i] == run[i];
  }

  lemma Advance(k: Track, s: Router, t: TaskId, cur: Router, a: Action) returns (k': Track)
    requires From(k, s, t, cur) && Enabled(cur, a) && Own(t, a)
    ensures From(k', s, t, Next(cur, a))
  {
    var next := Next(cur, a);
    k' := Track(k.states + [next], k.run + [a]);
    forall i | 0 <= i < |k'.run|
      ensures Follows(k'.states, k'.run, i)
    {
      if i < |k.run| {
        FollowsStays(k.states, k.run, next, a, i);
      } else {
        assert k'.states[i] == cur && k'.states[i + 1] == next && k'.run[i] == a;
      }
    }
  }

  /** Following a track is a run of the router. */
  lemma {:induction false} TrackIsARun(k: Track, s: Router, t: TaskId, cur: Router)
    requires From(k, s, t, cur)
    ensures Possible(s, k.run) && After(s, k.run) == cur
    decreases |k.run|
  {
    if k.run != [] {
      var rest := Track(k.states[1..], k.run[1..]);
      assert Follows(k.states, k.run, 0);
      forall i | 0 <= i < |rest.run|
        ensures Follows(rest.states, rest.run, i)
      {
        assert Follows(k.states, k.run, i + 1);
      }
      TrackIsARun(rest, k.states[1], t, cur);
    }
  }

  lemma StoreFinishes(k: Track, s: Router, t: TaskId, cur: Router, d: nat) returns (k': Track, end: Router)
    requires From(k, s, t, cur) && t in cur.tasks && cur.tasks[t].Checked?
    ensures From(k', s, t, end)
    ensures var Checked(data, ttl, endpoint) := cur.tasks[t];
            Finished(end, t, data, DirectOutcome(cur.cache, data, ttl, Some(endpoint), cur.now + d))
  {
    var later := Next(cur, Tick(d));
    k' := Advance(k, s, t, cur, Tick(d));
    k' := Advance(k', s, t, later, Store(t));
    end := Next(later, Store(t));
  }

  /** Where the check leaves the task. */
  function AfterCheck(s: Router, t: TaskId, data: Data, ttl: nat, vetted: Option<string>): Router {
    At(s, t, if vetted.None? then Done(data, Failed) else Checked(data, ttl, vetted.value))
  }

  /** `check` is what validation says, with this setting and these DNS answers. */
  ghost predicate Checks(check: string -> Option<string>, skip: bool, lookup: Lookup, lib: V6Text) {
    forall e {:trigger Vet(e, skip, lookup, lib)} :: Vet(e, skip, lookup, lib) == check(e)
  }

  function Decided(usable: Option<string>, check: string -> Option<string>): Option<string> {
    if usable.None? then None else check(usable.value)
  }

  lemma CheckAdvances(k: Track, s: Router, t: TaskId, cur: Router, lookup: Lookup, check: string -> Option<string>)
    returns (k': Track)
    requires From(k, s, t, cur) && t in cur.tasks && cur.tasks[t].Resolved?
    requires Checks(check, cur.skip, lookup, cur.lib)
    ensures From(k', s, t, AfterCheck(cur, t, cur.tasks[t].data, cur.tasks[t].ttl, check(cur.tasks[t].endpoint)))
  {
    k' := Advance(k, s, t, cur, Check(t, lookup));
    CheckStep(cur, t, lookup, check);
  }

  lemma CheckStep(cur: Router, t: TaskId, lookup: Lookup, check: string -> Option<string>)
    requires t in cur.tasks && cur.tasks[t].Resolved? && Checks(check, cur.skip, lookup, cur.lib)
    ensures Next(cur, Check(t, lookup))
            == AfterCheck(cur, t, cur.tasks[t].data, cur.tasks[t].ttl, check(cur.tasks[t].endpoint))
  {
  }

  lemma CheckedFinishes(k: Track, s: Router, t: TaskId, was: Router, cur: Router, data: Data, ttl: nat,
                        vetted: Option<string>, d: nat)
    returns (k': Track, end: Router)
    requires cur == AfterCheck(was, t, data, ttl, vetted) && From(k, s, t, cur)
    ensures From(k', s, t, end) && Finished(end, t, data, DirectOutcome(was.cache, data, ttl, vetted, was.now + d))
  {
    k', end := k, cur;
    if vetted.Some? {
      k', end := StoreFinishes(k, s, t, cur, d);
    }
  }

  /** Where the resolver's answer leaves the task. */
  function AfterResolve(s: Router, t: TaskId, data: Data, ttl: nat, usable: Option<string>): Router {
    At(s, t, if usable.None? then Done(data, Failed) else Resolved(data, ttl, usable.value))
  }

  lemma ResolveAdvances(k: Track, s: Router, t: TaskId, cur: Router, answer: Option<string>) returns (k': Track)
    requires From(k, s, t, cur) && t in cur.tasks && cur.tasks[t].Missed?
    ensures From(k', s, t, AfterResolve(cur, t, cur.tasks[t].data, cur.tasks[t].ttl, Usable(answer)))
  {
    k' := Advance(k, s, t, cur, Resolve(t, answer));
  }

  lemma ResolvedFinishes(k: Track, s: Router, t: TaskId, was: Router, cur: Router, data: Data, ttl: nat,
                         usable: Option<string>, lookup: Lookup, check: string -> Option<string>, d: nat)
    returns (k': Track, end: Router)
    requires cur == AfterResolve(was, t, data, ttl, usable) && From(k, s, t, cur)
    requires Checks(check, was.skip, lookup, was.lib)
    ensures From(k', s, t, end)
    ensures Finished(end, t, data, DirectOutcome(was.cache, data, ttl, Decided(usable, check), was.now + d))
  {
    k', end := k, cur;
    if usable.Some? {
      var vetted := check(usable.value);
      k' := CheckAdvances(k, s, t, cur, lookup, check);
      k', end := CheckedFinishes(k', s, t, cur, AfterCheck(cur, t, data, ttl, vetted), data, ttl, vetted, d);
    }
  }

  /** Where a look into the cache leaves the task, and what it records. */
  function AfterLook(s: Router, t: TaskId, data: Data, ttl: nat, hit: Option<string>): Router {
    if hit.None? then At(s, t, Missed(data, ttl))
    else At(s, t, Done(data, Routed(hit.value, true))).(hits := s.hits + [Hit(data, hit.value, s.now, ttl)])
  }

  lemma LookAdvances(k: Track, s: Router, t: TaskId, cur: Router) returns (k': Track)
    requires From(k, s, t, cur) && t in cur.tasks && cur.tasks[t].Begun?
    ensures var Begun(data, ttl) := cur.tasks[t];
            From(k', s, t, AfterLook(cur, t, data, ttl, Fresh(cur.cache, data, ttl, cur.now)))
  {
    k' := Advance(k, s, t, cur, Look(t));
  }

  lemma LookedFinishes(k: Track, s: Router, t: TaskId, was: Router, cur: Router, data: Data, ttl: nat,
                       answer: Option<string>, lookup: Lookup, check: string -> Option<string>, d: nat)
    returns (k': Track, end: Router)
    requires cur == AfterLook(was, t, data, ttl, Fresh(was.cache, data, ttl, was.now)) && From(k, s, t, cur)
    requires Checks(check, was.skip, lookup, was.lib)
    ensures From(k', s, t, end)
    ensures Finished(end, t, data,
                     RouteAlone(was.cache, data, ttl, Decided(Usable(answer), check), was.now, was.now + d))
  {
    k', end := k, cur;
    if Fresh(was.cache, data, ttl, was.now).None? {
      var next := AfterResolve(cur, t, data, ttl, Usable(answer));
      k' := ResolveAdvances(k, s, t, cur, answer);
      k', end := ResolvedFinishes(k', s, t, cur, next, data, ttl, Usable(answer), lookup, check, d);
    }
  }

  lemma SoloRoute(s: Router, t: TaskId, data: Data, answer: Option<string>, lookup: Lookup,
                  check: string -> Option<string>, d: nat)
    returns (k: Track, end: Router)
    requires t !in s.tasks && Checks(check, s.skip, lookup, s.lib)
    ensures From(k, s, t, end)
    ensures Finished(end, t, data, RouteAlone(s.cache, data, s.ttl, Decided(Usable(answer), check), s.now, s.now + d))
  {
    var begun := At(s, t, Begun(data, s.ttl));
    var looked := AfterLook(begun, t, data, s.ttl, Fresh(s.cache, data, s.ttl, s.now));
    k := Advance(Track([s], []), s, t, s, Begin(t, data));
    k := LookAdvances(k, s, t, begun);
    k, end := LookedFinishes(k, s, t, begun, looked, data, s.ttl, answer, lookup, check, d);
  }

  /** A route that nothing interrupts is a run of the concurrent router, with the outcome of `RouteAlone`. */
  lemma RouteIsARun(s: Router, t: TaskId, data: Data, w: World, d: nat) returns (run: seq<Action>)
    requires t !in s.tasks && w.skip == s.skip && w.lib == s.lib
    ensures Possible(s, run) && OnlyTask(t, run)
    ensures Finished(After(s, run), t, data, RouteAlone(s.cache, data, s.ttl, Uncached(w, data), s.now, s.now + d))
  {
    var check := e => Vet(e, w.skip, w.lookup, w.lib);
    assert Uncached(w, data) == Decided(Usable(w.resolver(data)), check);
    var k, end := SoloRoute(s, t, data, w.resolver(data), w.lookup, check, d);
    TrackIsARun(k, s, t, end);
    run := k.run;
  }
}
