/**
  What a route answers, told by the cache entry, the resolver's text and its validation: when the
  cache answers, what an uncached route answers, and what is stored.
 */
module RoutingAnswers {
  import opened Wrappers
  import opened Address
  import opened Endpoint
  import opened Routing
  import opened RoutingAlone

  // ---------------------------------------------------------------- step by step

  /** The entry for this data is younger than the TTL, which is not zero. */
  predicate Young(cache: Cache, data: Data, ttl: nat, now: nat) {
    ttl != 0 && data in cache && now < cache[data].insertedAt + ttl
  }

  /** The cache answers if and only if it has a young entry, and with that entry's endpoint. */
  lemma LookExactly(s: Router, t: TaskId)
    requires Enabled(s, Look(t))
    ensures var Begun(data, ttl) := s.tasks[t];
            Next(s, Look(t)).tasks[t]
            == if Young(s.cache, data, ttl, s.now) then Done(data, Routed(s.cache[data].endpoint, true)) else Missed(data, ttl)
  {
  }

  /** With validation on, a route goes on with `out` if and only if validation of the resolver's text gives it. */
  lemma CheckExactly(s: Router, t: TaskId, lookup: Lookup, out: string)
    requires Enabled(s, Check(t, lookup)) && !s.skip
    ensures var Resolved(data, ttl, endpoint) := s.tasks[t];
            var ph := Next(s, Check(t, lookup)).tasks[t];
            && (ph == Checked(data, ttl, out) <==> Validate(endpoint, lookup, s.lib) == Ok(out))
            && (ph == Done(data, Failed) <==> Validate(endpoint, lookup, s.lib).Err?)
  {
  }

  /** With it off, the resolver's text itself. */
  lemma SkipExactly(s: Router, t: TaskId, lookup: Lookup)
    requires Enabled(s, Check(t, lookup)) && s.skip
    ensures var Resolved(data, ttl, endpoint) := s.tasks[t];
            Next(s, Check(t, lookup)).tasks[t] == Checked(data, ttl, endpoint)
  {
  }

  /** A completed route answers with what was checked; the entry is replaced unless the TTL is zero, and no other. */
  lemma StoreExactly(s: Router, t: TaskId, other: Data)
    requires Enabled(s, Store(t)) && other != s.tasks[t].data
    ensures var Checked(data, ttl, endpoint) := s.tasks[t];
            var s' := Next(s, Store(t));
            && s'.tasks[t] == Done(data, Routed(endpoint, false))
            && (ttl == 0 ==> s'.cache == s.cache)
            && (ttl > 0 ==> data in s'.cache && s'.cache[data] == Entry(endpoint, s.now))
            && (other in s'.cache <==> other in s.cache) && (other in s.cache ==> s'.cache[other] == s.cache[other])
  {
  }

  // ---------------------------------------------------------------- a whole route

  /** What the resolver names is this endpoint, and it is not empty. */
  predicate Names(answer: Option<string>, endpoint: string) {
    answer == Some(endpoint) && endpoint != ""
  }

  /** Without the cache: the answer is the validated text of what the resolver names, or that text itself. */
  lemma UncachedExactly(w: World, data: Data, out: string)
    ensures !w.skip ==> (Uncached(w, data) == Some(out) <==>
                         exists e :: Names(w.resolver(data), e) && Validate(e, w.lookup, w.lib) == Ok(out))
    ensures w.skip ==> (Uncached(w, data) == Some(out) <==> Names(w.resolver(data), out))
  {
    if !w.skip && Uncached(w, data) == Some(out) {
      assert Names(w.resolver(data), w.resolver(data).value);
    }
  }

  /**
    Over every run with an unchanging resolver and validation on: a finished route, cached or
    not, was answered with `out` exactly when validation of what the resolver names gives it.
   */
  lemma AnswersAreValidated(w: World, s: Router, run: seq<Action>, t: TaskId, out: string)
    requires Init(s) && w.lib == s.lib && w.skip == s.skip && !s.skip && Possible(s, run) && StationaryRun(w, s, run)
    requires t in After(s, run).tasks && After(s, run).tasks[t].Done?
    ensures var Done(data, answer) := After(s, run).tasks[t];
            (answer.Routed? && answer.endpoint == out) <==>
            exists e :: Names(w.resolver(data), e) && Validate(e, w.lookup, w.lib) == Ok(out)
  {
    CacheRefinesResolver(w, s, run, t);
    UncachedExactly(w, After(s, run).tasks[t].data, out);
  }

  /** The text of an unblocked IPv4 target, with or without a port, is routed to exactly that text. */
  lemma LiteralIsRouted(cache: Cache, data: Data, ttl: nat, w: World, v4: V4, port: Option<nat>, start: nat, end: nat)
    requires !w.skip && !IsBlockedV4(v4) && (port.Some? ==> 1 <= port.value <= 65535) && !Young(cache, data, ttl, start)
    requires w.resolver(data) == Some(Format(Target(IpV4(v4), port), w.lib))
    ensures RouteAlone(cache, data, ttl, Uncached(w, data), start, end).answer
            == Routed(Format(Target(IpV4(v4), port), w.lib), false)
  {
    var text := Format(Target(IpV4(v4), port), w.lib);
    QuadHasNoColon(v4);
    CheckFormatted(v4, port, w.lookup, w.lib);
    assert Names(w.resolver(data), text) && Validate(text, w.lookup, w.lib) == Ok(text);
    UncachedExactly(w, data, text);
  }
}
