/**
  Switching validation off and on: when the answers of a router are safe again, and what is
  served when they are not.
 */
module RoutingSwitch {
  import opened Wrappers
  import opened Address
  import opened Endpoint
  import opened Routing

  /** Every answer given between the two states is safe; what had been answered before is not looked at. */
  ghost predicate NewAnswersSafe(s: Router, s': Router) {
    forall t :: t in s'.tasks && s'.tasks[t].Done? && s'.tasks[t].answer.Routed? && !Finished(s, t) ==>
      IsSafe(s'.tasks[t].answer.endpoint, s.lib)
  }

  predicate Finished(s: Router, t: TaskId) {
    t in s.tasks && s.tasks[t].Done?
  }

  /** Whatever happens next, short of switching validation off, only safe endpoints are answered. */
  ghost predicate SafeFromHere(s: Router) {
    forall run :: Possible(s, run) && SetSkip(true) !in run ==> NewAnswersSafe(s, After(s, run))
  }

  /** The cache, and the routes under way, hold nothing unsafe. */
  ghost predicate HoldsNothingUnsafe(s: Router) {
    && (forall data :: data in s.cache ==> IsSafe(s.cache[data].endpoint, s.lib))
    && (forall t :: t in s.tasks && !s.tasks[t].Done? ==> PhaseSafe(s.tasks[t], s.lib))
  }

  /** A task that has passed the check answers with its endpoint. */
  lemma CheckedIsAnswered(s: Router, t: TaskId)
    requires SafeFromHere(s) && t in s.tasks && s.tasks[t].Checked?
    ensures IsSafe(s.tasks[t].endpoint, s.lib)
  {
    var run := [Store(t)];
    assert Possible(Next(s, run[0]), run[1..]);
    assert Possible(s, run) && After(s, run) == Next(s, Store(t));
    assert NewAnswersSafe(s, After(s, run));
    assert After(s, run).tasks[t] == Done(s.tasks[t].data, Routed(s.tasks[t].endpoint, false));
  }

  /** A TTL under which the entry is still usable. */
  function LongTtl(s: Router, data: Data): nat
    requires data in s.cache
  {
    if s.cache[data].insertedAt <= s.now then s.now - s.cache[data].insertedAt + 1 else 1
  }

  /** An entry of the cache can be served, whatever its age. */
  lemma EntryIsAnswered(s: Router, data: Data)
    requires SafeFromHere(s) && data in s.cache
    ensures IsSafe(s.cache[data].endpoint, s.lib)
  {
    var u := Unused(s.tasks);
    var run := [SetTtl(LongTtl(s, data)), Begin(u, data), Look(u)];
    var s1 := Next(s, run[0]);
    var s2 := Next(s1, run[1]);
    var s3 := Next(s2, run[2]);
    assert Possible(s3, []) && After(s3, []) == s3;
    RunStep(s2, run[2], []);
    RunStep(s1, run[1], [run[2]] + []);
    RunStep(s, run[0], [run[1]] + ([run[2]] + []));
    assert run == [run[0]] + ([run[1]] + ([run[2]] + []));
    assert After(s, run) == s3;
    assert NewAnswersSafe(s, s3) && !Finished(s, u);
    assert s3.tasks[u] == Done(data, Routed(s.cache[data].endpoint, true));
  }

  lemma StaysSafe(s: Router, run: seq<Action>)
    requires !s.skip && HoldsNothingUnsafe(s) && Possible(s, run) && SetSkip(true) !in run
    ensures NewAnswersSafe(s, After(s, run))
  {
    var past := set t | t in s.tasks && s.tasks[t].Done?;
    RunKeepsSafe(s, run, past);
    var s' := After(s, run);
    forall t | t in s'.tasks && s'.tasks[t].Done? && s'.tasks[t].answer.Routed? && !Finished(s, t)
      ensures IsSafe(s'.tasks[t].answer.endpoint, s.lib)
    {
      assert PhaseSafe(s'.tasks[t], s'.lib);
    }
  }

  /**
    With validation on, everything answered from here on is safe if and only if the cache and
    the routes under way hold nothing unsafe. What was answered before does not matter.
   */
  lemma SafeExactly(s: Router)
    requires !s.skip
    ensures SafeFromHere(s) <==> HoldsNothingUnsafe(s)
  {
    if HoldsNothingUnsafe(s) {
      forall run | Possible(s, run) && SetSkip(true) !in run
        ensures NewAnswersSafe(s, After(s, run))
      {
        StaysSafe(s, run);
      }
    }
    if SafeFromHere(s) {
      forall data | data in s.cache
        ensures IsSafe(s.cache[data].endpoint, s.lib)
      {
        EntryIsAnswered(s, data);
      }
      forall t | t in s.tasks && !s.tasks[t].Done?
        ensures PhaseSafe(s.tasks[t], s.lib)
      {
        if s.tasks[t].Checked? {
          CheckedIsAnswered(s, t);
        }
      }
    }
  }

  /** The text of every IPv6 address has a colon, as the standard library's does. */
  ghost predicate ColonText(lib: V6Text) {
    forall v6 :: ':' in lib.render(v6)
  }

  lemma BlockedTextIsUnsafe(v4: V4, lib: V6Text)
    requires IsBlockedV4(v4) && ColonText(lib)
    ensures !IsSafe(PrintV4(v4), lib)
  {
    var nothing: Lookup := name => None;
    QuadHasNoColon(v4);
    CheckFormatted(v4, None, nothing, lib);
    forall t: Target | Safe(t)
      ensures PrintV4(v4) != Format(t, lib)
    {
      if t.ip.IpV4? {
        CheckFormatted(t.ip.v4, t.port, nothing, lib);
      } else {
        assert ':' in lib.render(t.ip.v6);
      }
    }
  }

  /** A router as it is created, with its cache on. */
  function NewRouter(lib: V6Text, ttl: nat): Router {
    Router(lib, 0, ttl, false, map[], map[], [], [])
  }

  /** Route `data` to `endpoint` with validation off, switch it on, and route `data` again. */
  function OffAndOn(data: Data, endpoint: string, lookup: Lookup): seq<Action> {
    StoreOff(data, endpoint, lookup) + ServeOn(data)
  }

  function StoreOff(data: Data, endpoint: string, lookup: Lookup): seq<Action> {
    [SetSkip(true), Begin(0, data), Look(0), Resolve(0, Some(endpoint)), Check(0, lookup), Store(0)]
  }

  function ServeOn(data: Data): seq<Action> {
    [SetSkip(false), Begin(1, data), Look(1)]
  }

  /** After storing with validation off: one entry, and one finished task. */
  function StoredOff(lib: V6Text, ttl: nat, data: Data, endpoint: string): Router {
    Router(lib, 0, ttl, true, map[data := Entry(endpoint, 0)], map[0 := Done(data, Routed(endpoint, false))],
           [Completion(data, endpoint, 0)], [])
  }

  /** Half way: the cache has been found empty. */
  function MissedOff(lib: V6Text, ttl: nat, data: Data): Router {
    Router(lib, 0, ttl, true, map[], map[0 := Missed(data, ttl)], [], [])
  }

  lemma MissedOffRun(lib: V6Text, ttl: nat, data: Data, rest: seq<Action>)
    requires Possible(MissedOff(lib, ttl, data), rest)
    ensures var s, run := NewRouter(lib, ttl), [SetSkip(true)] + ([Begin(0, data)] + ([Look(0)] + rest));
            Possible(s, run) && After(s, run) == After(MissedOff(lib, ttl, data), rest)
  {
    var s0 := NewRouter(lib, ttl);
    var s1 := Next(s0, SetSkip(true));
    var s2 := Next(s1, Begin(0, data));
    assert Next(s2, Look(0)) == MissedOff(lib, ttl, data);
    RunStep(s2, Look(0), rest);
    RunStep(s1, Begin(0, data), [Look(0)] + rest);
    RunStep(s0, SetSkip(true), [Begin(0, data)] + ([Look(0)] + rest));
  }

  lemma StoredOffRun(lib: V6Text, ttl: nat, data: Data, endpoint: string, lookup: Lookup, rest: seq<Action>)
    requires ttl > 0 && endpoint != "" && Possible(StoredOff(lib, ttl, data, endpoint), rest)
    ensures var s, run := MissedOff(lib, ttl, data), [Resolve(0, Some(endpoint))] + ([Check(0, lookup)] + ([Store(0)] + rest));
            Possible(s, run) && After(s, run) == After(StoredOff(lib, ttl, data, endpoint), rest)
  {
    var s0 := MissedOff(lib, ttl, data);
    var s1 := Next(s0, Resolve(0, Some(endpoint)));
    var s2 := Next(s1, Check(0, lookup));
    assert Next(s2, Store(0)) == StoredOff(lib, ttl, data, endpoint);
    RunStep(s2, Store(0), rest);
    RunStep(s1, Check(0, lookup), [Store(0)] + rest);
    RunStep(s0, Resolve(0, Some(endpoint)), [Check(0, lookup)] + ([Store(0)] + rest));
  }

  lemma StoreOffRun(lib: V6Text, ttl: nat, data: Data, endpoint: string, lookup: Lookup, rest: seq<Action>)
    requires ttl > 0 && endpoint != "" && Possible(StoredOff(lib, ttl, data, endpoint), rest)
    ensures var s, run := NewRouter(lib, ttl), StoreOff(data, endpoint, lookup) + rest;
            Possible(s, run) && After(s, run) == After(StoredOff(lib, ttl, data, endpoint), rest)
  {
    var second := [Resolve(0, Some(endpoint))] + ([Check(0, lookup)] + ([Store(0)] + rest));
    StoredOffRun(lib, ttl, data, endpoint, lookup, rest);
    MissedOffRun(lib, ttl, data, second);
    assert StoreOff(data, endpoint, lookup) + rest == [SetSkip(true)] + ([Begin(0, data)] + ([Look(0)] + second));
  }

  lemma ServeOnRun(s: Router, data: Data)
    requires s.ttl > 0 && 1 !in s.tasks && data in s.cache && s.cache[data].insertedAt == s.now
    ensures Possible(s, ServeOn(data))
    ensures var s' := After(s, ServeOn(data));
            !s'.skip && 1 in s'.tasks && s'.tasks[1] == Done(data, Routed(s.cache[data].endpoint, true)) && s'.lib == s.lib
  {
    var run := ServeOn(data);
    var s1 := Next(s, run[0]);
    var s2 := Next(s1, run[1]);
    assert Possible(Next(s2, run[2]), []);
    RunStep(s2, run[2], []);
    RunStep(s1, run[1], [run[2]] + []);
    RunStep(s, run[0], [run[1]] + ([run[2]] + []));
    assert run == [run[0]] + ([run[1]] + ([run[2]] + []));
  }

  /**
    Switching validation on again does not clear the cache. From a new router, whatever the
    resolver names while validation is off is stored, and served afterwards to a route that
    begins and ends with validation on.
   */
  lemma SkippedEntryLingers(lib: V6Text, ttl: nat, data: Data, endpoint: string, lookup: Lookup)
    requires ttl > 0 && endpoint != ""
    ensures var s, run := NewRouter(lib, ttl), OffAndOn(data, endpoint, lookup);
            && Init(s) && !s.skip && Possible(s, run)
            && var s' := After(s, run);
               !s'.skip && s'.lib == lib && 1 in s'.tasks && s'.tasks[1] == Done(data, Routed(endpoint, true))
  {
    ServeOnRun(StoredOff(lib, ttl, data, endpoint), data);
    StoreOffRun(lib, ttl, data, endpoint, lookup, ServeOn(data));
  }

  /** In particular every blocked address, which is not a safe answer. */
  lemma BlockedIsServed(lib: V6Text, ttl: nat, data: Data, v4: V4, lookup: Lookup)
    requires ttl > 0 && IsBlockedV4(v4) && ColonText(lib)
    ensures var run := OffAndOn(data, PrintV4(v4), lookup);
            && Possible(NewRouter(lib, ttl), run)
            && var s' := After(NewRouter(lib, ttl), run);
               && !s'.skip && 1 in s'.tasks && s'.tasks[1] == Done(data, Routed(PrintV4(v4), true))
               && !IsSafe(PrintV4(v4), s'.lib)
  {
    QuadHasNoColon(v4);
    SkippedEntryLingers(lib, ttl, data, PrintV4(v4), lookup);
    BlockedTextIsUnsafe(v4, lib);
  }

  /** And once the entry is evicted, such a router is safe again, though it has answered with that address. */
  lemma EvictedIsSafeAgain(lib: V6Text, ttl: nat, data: Data, endpoint: string, lookup: Lookup)
    requires ttl > 0 && endpoint != ""
    ensures var run := StoreOff(data, endpoint, lookup) + ([SetSkip(false)] + ([Evict(data)] + []));
            && Possible(NewRouter(lib, ttl), run)
            && var s' := After(NewRouter(lib, ttl), run);
               && 0 in s'.tasks && s'.tasks[0] == Done(data, Routed(endpoint, false)) && SafeFromHere(s')
  {
    var stored := StoredOff(lib, ttl, data, endpoint);
    var on := Next(stored, SetSkip(false));
    var evicted := Next(on, Evict(data));
    assert Possible(evicted, []) && After(evicted, []) == evicted;
    RunStep(on, Evict(data), []);
    RunStep(stored, SetSkip(false), [Evict(data)] + []);
    StoreOffRun(lib, ttl, data, endpoint, lookup, [SetSkip(false)] + ([Evict(data)] + []));
    SafeExactly(evicted);
  }
}
