/**
  The sockmap loader and the TCP adapter as objects that update their tables in place. What
  each method does is stated through the table values of `PairTable`, over whose runs the
  invariants are proved.
 */
module SockmapLoader {
  import opened Wrappers
  import opened TupleKey
  import PairTable

  type Fd = PairTable.Fd

  class Sockmap {
    var available: bool
    var peers: map<Key, Fd>            // the kernel map
    var pairs: map<Fd, (Key, Key)>

    constructor ()
      ensures View() == PairTable.Loader(true, map[], map[])
    {
      available, peers, pairs := true, map[], map[];
    }

    ghost function View(): PairTable.Loader
      reads this
    {
      PairTable.Loader(available, peers, pairs)
    }

    /** `first` and `second` say whether the kernel accepts the two map updates. */
    method InsertPair(accept: Fd, backend: Fd, a: Option<Socket>, b: Option<Socket>, first: bool, second: bool)
      returns (ok: bool)
      modifies this
      ensures PairTable.Inserted(View(), ok)
              == PairTable.InsertPair(old(View()), accept, backend, RustKey(a), RustKey(b), first, second)
    {
      if !available {
        return false;
      }
      var selfKey, peerKey := RustKey(a), RustKey(b);
      if selfKey.None? || peerKey.None? {
        return false;
      }
      if !first {
        return false;
      }
      peers := peers[selfKey.value := backend];
      if !second {
        peers := peers - {selfKey.value};
        return false;
      }
      peers := peers[peerKey.value := accept];
      pairs := pairs[accept := (selfKey.value, peerKey.value)];
      return true;
    }

    method RemovePair(accept: Fd)
      modifies this
      ensures View() == PairTable.RemovePair(old(View()), accept)
    {
      if accept !in pairs {
        return;
      }
      var keys := pairs[accept];
      pairs := pairs - {accept};
      peers := peers - {keys.0};
      peers := peers - {keys.1};
      assert old(peers) - {keys.0} - {keys.1} == old(peers) - {keys.0, keys.1};
    }

    /** Dropping the loader: every recorded pair is removed, in whatever order the table lists its descriptors. */
    method Close(accepts: seq<Fd>)
      requires forall fd :: fd in pairs ==> fd in accepts
      modifies this
      ensures View() == PairTable.Close(old(View()))
    {
      ghost var goal := PairTable.Close(View());
      for i := 0 to |accepts|
        invariant forall fd :: fd in pairs ==> fd in accepts[i..]
        invariant PairTable.Close(View()) == goal
      {
        RemoveThenClose(View(), accepts[i]);
        RemovePair(accepts[i]);
      }
      CloseEmpty(View());
      available, pairs := false, map[];
    }
  }

  /** Once no descriptor is recorded, there is nothing more to remove. */
  lemma CloseEmpty(l: PairTable.Loader)
    requires forall fd :: fd in l.pairs ==> fd in []
    ensures PairTable.Close(l).peers == l.peers
  {
    assert forall k :: k !in PairTable.RecordedKeys(l.pairs);
  }

  /** Removing one pair first changes nothing about what is left once all are removed. */
  lemma RemoveThenClose(l: PairTable.Loader, fd: Fd)
    ensures PairTable.Close(PairTable.RemovePair(l, fd)) == PairTable.Close(l)
  {
    if fd in l.pairs {
      var rest, keys := l.pairs - {fd}, l.pairs[fd];
      KeysWithout(l.pairs, fd);
      assert l.peers - {keys.0, keys.1} - PairTable.RecordedKeys(rest) == l.peers - PairTable.RecordedKeys(l.pairs);
    }
  }

  lemma KeysWithout(pairs: map<Fd, (Key, Key)>, fd: Fd)
    requires fd in pairs
    ensures PairTable.RecordedKeys(pairs) == PairTable.RecordedKeys(pairs - {fd}) + {pairs[fd].0, pairs[fd].1}
  {
    var rest := pairs - {fd};
    forall k | k in PairTable.RecordedKeys(pairs)
      ensures k in PairTable.RecordedKeys(rest) + {pairs[fd].0, pairs[fd].1}
    {
      var c :| c in pairs && (pairs[c].0 == k || pairs[c].1 == k);
      assert c == fd || c in rest;
    }
    forall k | k in PairTable.RecordedKeys(rest)
      ensures k in PairTable.RecordedKeys(pairs)
    {
      var c :| c in rest && (rest[c].0 == k || rest[c].1 == k);
      assert c in pairs;
    }
  }

  /** The part of the TCP adapter that keeps connections and hands pairs to the kernel. */
  class TcpAdapter {
    const sockmap: Sockmap
    var connections: map<Fd, Fd>
    var active: map<Fd, Fd>

    constructor (sockmap: Sockmap)
      ensures this.sockmap == sockmap && connections == map[] && active == map[]
    {
      this.sockmap := sockmap;
      connections, active := map[], map[];
    }

    /** The tables, given the open sockets. */
    ghost function View(sockets: map<Fd, Socket>): PairTable.Net
      reads this, sockmap
    {
      PairTable.Net(sockets, connections, active, sockmap.View())
    }

    /** A cached connection is returned as it is; otherwise the freshly dialled backend is recorded. */
    method GetConnection(client: Fd, dialled: Option<Fd>) returns (backend: Option<Fd>)
      modifies this
      ensures client in old(connections) ==> backend == Some(old(connections)[client]) && connections == old(connections)
      ensures client !in old(connections) ==> backend == dialled
      ensures client !in old(connections) ==>
                connections == if dialled.Some? then old(connections)[client := dialled.value] else old(connections)
      ensures active == old(active)
    {
      if client in connections {
        return Some(connections[client]);
      }
      if dialled.None? {
        return None;
      }
      connections := connections[client := dialled.value];
      return dialled;
    }

    method ActivateSockmap(client: Fd, ghost sockets: map<Fd, Socket>, a: Option<Socket>, b: Option<Socket>,
                           first: bool, second: bool)
      returns (ok: bool)
      requires a == PairTable.SocketOf(View(sockets), client)
      requires client in connections ==> b == PairTable.SocketOf(View(sockets), connections[client])
      modifies this, sockmap
      ensures View(sockets) == PairTable.ActivateSockmap(old(View(sockets)), client, first, second)
      ensures ok == PairTable.Activates(old(View(sockets)), client, first, second)
    {
      if !sockmap.available {
        return false;
      }
      if client !in connections {
        return false;
      }
      var backend := connections[client];
      if backend <= 0 {
        return false;
      }
      var inserted := sockmap.InsertPair(client, backend, a, b, first, second);
      if !inserted {
        return false;
      }
      active := active[client := backend];
      return true;
    }

    method CloseConnection(client: Fd, ghost sockets: map<Fd, Socket>)
      modifies this, sockmap
      ensures View(PairTable.CloseConn(old(View(sockets)), client).sockets)
              == PairTable.CloseConn(old(View(sockets)), client)
    {
      if client in active {
        active := active - {client};
        sockmap.RemovePair(client);
      } else {
        assert active - {client} == active;
      }
      connections := connections - {client};
    }
  }
}
