/** The routing adapter as an object: settings and cache are fields that `route` and the setters update. */
module RoutingAdapter {
  import opened Wrappers
  import opened Endpoint
  import opened Routing
  import opened RoutingAlone

  class Adapter {
    const lib: V6Text
    var cache: Cache
    var cacheTtl: nat
    var skipValidation: bool

    constructor (lib: V6Text)
      ensures this.lib == lib && cache == map[] && cacheTtl == 0 && !skipValidation
    {
      this.lib := lib;
      cache, cacheTtl, skipValidation := map[], 0, false;
    }

    method SetCacheTtl(seconds: nat)
      modifies this`cacheTtl
      ensures cacheTtl == seconds
    {
      cacheTtl := seconds;
    }

    method SetSkipValidation(skip: bool)
      modifies this`skipValidation
      ensures skipValidation == skip
    {
      skipValidation := skip;
    }

    /**
      One route without interruption. `resolved` is what the callback or the resolver answers,
      `lookup` what DNS answers; the cache is read at `start` and written at `end`. It is one
      run of the concurrent router (`RoutingAlone.RouteIsARun`).
     */
    method Route(data: Data, resolved: Option<string>, lookup: Lookup, start: nat, end: nat) returns (answer: Answer)
      modifies this`cache
      ensures
        if cacheTtl != 0 && data in old(cache) && start < old(cache)[data].insertedAt + cacheTtl then
          answer == Routed(old(cache)[data].endpoint, true) && cache == old(cache)
        else if resolved.None? || resolved.value == "" then answer == Failed && cache == old(cache)
        else if skipValidation then answer == Routed(resolved.value, false)
        else
          match Validate(resolved.value, lookup, lib)
          case Err(_) => answer == Failed && cache == old(cache)
          case Ok(out) => answer == Routed(out, false)
      ensures answer.Routed? && !answer.cached ==>
                cache == if cacheTtl == 0 then old(cache) else old(cache)[data := Entry(answer.endpoint, end)]
      ensures Outcome(answer, cache)
              == RouteAlone(old(cache), data, cacheTtl,
                            Uncached(World(_ => resolved, lookup, lib, skipValidation), data), start, end)
    {
      if cacheTtl > 0 {
        if data in cache {
          if start - cache[data].insertedAt < cacheTtl {
            return Routed(cache[data].endpoint, true);
          }
        }
      }
      if resolved.None? {
        return Failed;
      }
      if resolved.value == "" {
        return Failed;
      }
      var endpoint := resolved.value;
      if !skipValidation {
        var r := Validate(resolved.value, lookup, lib);
        if r.Err? {
          return Failed;
        }
        endpoint := r.value;
      }
      if cacheTtl > 0 {
        cache := cache[data := Entry(endpoint, end)];
      }
      return Routed(endpoint, false);
    }
  }
}
