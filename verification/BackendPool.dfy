/**
  One backend pool and its guard, as objects that change in place.

  The methods are the operations a task performs on the shared pool; what they do to the
  semaphore and the deque is stated through the pool values of `PoolSystem`. Each is one run
  of that concurrent system (`PoolAlone.AcquireIsARun`, `PoolAlone.DropIsARun`), whose
  interleavings carry the results.
 */
module BackendPool {
  import opened Wrappers
  import PoolSystem
  import opened PoolAlone

  class Client {
    const id: PoolSystem.ConnId
    var healthy: bool

    constructor (id: PoolSystem.ConnId)
      ensures this.id == id && healthy
    {
      this.id := id;
      healthy := true;
    }
  }

  class Pool {
    const endpoint: string
    var free: nat
    var idle: seq<Client>

    constructor (endpoint: string, size: nat)
      ensures View() == PoolSystem.Pool(endpoint, size, [])
    {
      this.endpoint := endpoint;
      free := size;
      idle := [];
    }

    ghost function View(): PoolSystem.Pool
      reads this
    {
      PoolSystem.Pool(endpoint, free, seq(|idle|, i requires 0 <= i < |idle| reads this => idle[i].id))
    }

    /**
      Acquire without interruption: `granted` says whether a permit came within the pool
      time-out (one can only come when one is free), `ready` what `is_ready` answers for the
      client at the front, and `dialled` what connecting would give.
     */
    method Acquire(granted: bool, ready: bool, dialled: Option<Client>) returns (guard: Option<PooledClient>)
      requires granted ==> free > 0
      modifies this
      ensures fresh(if guard.Some? then {guard.value} else {})
      ensures
        var reused := granted && old(idle) != [] && old(idle[0].healthy) && ready;
        && View() == Acquired(old(View()), granted, reused, dialled.Some?)
        && if reused then guard.Some? && guard.value.Is(this, granted, old(idle)[0])
           else if dialled.Some? then guard.Some? && guard.value.Is(this, granted, dialled.value)
           else guard.None?
      ensures idle == (if granted && old(idle) != [] then old(idle)[1..] else old(idle))
      ensures free == old(free) - (if granted && guard.Some? then 1 else 0)
    {
      guard := None;
      if granted {
        free := free - 1;
        if idle != [] {
          var client := idle[0];
          idle := idle[1..];
          if client.healthy && ready {
            var g := new PooledClient(this, true, client);
            return Some(g);
          }
        }
      }
      if dialled.None? {
        if granted {
          free := free + 1;
        }
        return None;
      }
      var g := new PooledClient(this, granted, dialled.value);
      guard := Some(g);
    }

    /** Recycle a client unless it is broken. */
    method Release(client: Client, ready: bool)
      modifies this
      ensures View() == if client.healthy && ready then old(View()).PushBack(client.id) else old(View())
      ensures idle == (if client.healthy && ready then old(idle) + [client] else old(idle)) && free == old(free)
    {
      if client.healthy && ready {
        idle := idle + [client];
      }
    }
  }

  /** The guard: it refers to the pool exactly when it carries a permit. */
  class PooledClient {
    var pool: Option<Pool>
    var permit: bool
    var client: Option<Client>

    ghost predicate Is(p: Pool, granted: bool, c: Client)
      reads this
    {
      pool == (if granted then Some(p) else None) && permit == granted && client == Some(c)
    }

    constructor (p: Pool, granted: bool, c: Client)
      ensures Is(p, granted, c)
    {
      pool := if granted then Some(p) else None;
      permit := granted;
      client := Some(c);
    }

    method Invalidate()
      modifies if client.Some? then {client.value} else {}
      ensures client.Some? ==> !client.value.healthy
    {
      if client.Some? {
        client.value.healthy := false;
      }
    }

    /**
      Drop: the client goes back first, the permit after it. A guard without a permit
      leaves the pool alone.
     */
    method Drop(ghost p: Pool, ghost c: Client, ready: bool)
      requires Is(p, permit, c)
      modifies this, p
      ensures pool.None? && client.None? && !permit
      ensures p.idle == if old(permit) && c.healthy && ready then old(p.idle) + [c] else old(p.idle)
      ensures p.free == old(p.free) + if old(permit) then 1 else 0
      ensures p.View() == Released(old(p.View()), old(permit), c.id, c.healthy && ready)
    {
      if pool.Some? && client.Some? {
        var owner := pool.value;
        owner.Release(client.value, ready);
        if permit {
          owner.free := owner.free + 1;
        }
      }
      pool, client, permit := None, None, false;
    }
  }
}
