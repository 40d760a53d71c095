/**
  Activations that write a key the kernel map still has. The key leaves out the local address,
  and the entry of a client outlives its stream until `close_connection` runs, so a client that
  comes back from the same address and port in between has its predecessor's key. It is safe
  until it is activated.
 */
module StaleKeys {
  import opened Wrappers
  import opened TupleKey
  import opened PairTable

  // ---------------------------------------------------------------- which keys are stale

  /** A recorded client whose stream is closed, and which has not been forgotten yet. */
  predicate Leftover(n: Net, c: Fd, k: Key) {
    c in n.loader.pairs && c !in n.sockets && n.loader.pairs[c].0 == k
  }

  /** The map has the key of a socket outside every active pair exactly when such a client had it. */
  lemma StaleIsLeftover(n: Net, f: Fd)
    requires Inv(n) && f in n.sockets && Partnerless(n, f)
    ensures KeyOf(n.sockets[f]) in n.loader.peers <==> exists c :: Leftover(n, c, KeyOf(n.sockets[f]))
  {
    var k := KeyOf(n.sockets[f]);
    if k in n.loader.peers {
      var c :| c in n.loader.pairs && (n.loader.pairs[c].0 == k || n.loader.pairs[c].1 == k);
      assert PairOk(n, c);
      assert Leftover(n, c, k);
    }
    forall c | Leftover(n, c, k)
      ensures k in n.loader.peers
    {
      assert PairOk(n, c);
    }
  }

  // ---------------------------------------------------------------- the exact condition

  lemma InvIsolates(n: Net)
    requires Inv(n)
    ensures Isolated(n)
  {
    if n.loader.available {
      forall f | f in n.sockets
        ensures ToPartner(n, f)
      {
        RedirectsToPartner(n, f);
        if Redirect(n, f).Userspace? {
          NoPartner(n, f);
        }
      }
    }
  }

  lemma NoPartner(n: Net, f: Fd)
    requires forall g :: !Partners(n, f, g)
    ensures Partnerless(n, f)
  {
    forall c | c in n.active
      ensures c != f && n.active[c] != f
    {
      assert !Partners(n, f, n.active[c]) && !Partners(n, f, c);
    }
  }

  /** A refused activation that undoes a stale first update takes a recorded key out of the map. */
  lemma RefusedUpdateLosesKey(n: Net, client: Fd)
    requires Inv(n) && Enabled(n, Activate(client, true, false)) && StaleUpdate(n, Activate(client, true, false))
    ensures !Agreed(ActivateSockmap(n, client, true, false))
  {
    var m := ActivateSockmap(n, client, true, false);
    var k := KeyOf(n.sockets[client]);
    var c :| c in n.loader.pairs && (n.loader.pairs[c].0 == k || n.loader.pairs[c].1 == k);
    assert m.loader.pairs == n.loader.pairs && k in RecordedKeys(m.loader.pairs) && k !in m.loader.peers;
  }

  /** The pair that owns a stale key is a leftover, and its backend is stored under that key alone. */
  lemma OwnerOfStaleKey(n: Net, client: Fd, f: Fd) returns (c: Fd)
    requires Inv(n) && client in n.connections && client !in n.active && n.loader.available
    requires f in n.sockets && (f == client || f == n.connections[client]) && KeyOf(n.sockets[f]) in n.loader.peers
    ensures Leftover(n, c, KeyOf(n.sockets[f])) && c != client && c in n.active
  {
    assert Partnerless(n, f);
    StaleIsLeftover(n, f);
    c :| Leftover(n, c, KeyOf(n.sockets[f]));
    assert PairOk(n, c);
  }

  lemma StoredUnderOneKey(n: Net, c: Fd, k: Key)
    requires Inv(n) && c in n.loader.pairs && k in n.loader.peers && n.loader.peers[k] == n.connections[c]
    ensures k == n.loader.pairs[c].0
  {
    var d :| d in n.loader.pairs && (n.loader.pairs[d].0 == k || n.loader.pairs[d].1 == k);
    assert PairOk(n, d) && PairOk(n, c);
  }

  /** An accepted one puts the backend of the leftover out of the map, though its pair is still active. */
  lemma AcceptedUpdateUnmaps(n: Net, client: Fd, c: Fd, f: Fd)
    requires Inv(n) && n.loader.available && client in n.sockets && client in n.connections && client !in n.active
    requires f in n.sockets && (f == client || f == n.connections[client])
    requires Leftover(n, c, KeyOf(n.sockets[f])) && c != client && c in n.active
    ensures !InMap(Activated(n, client).loader, n.connections[c])
  {
    var m := Activated(n, client);
    assert PairOk(n, c);
    TwoKeys(n, client);
    forall k | k in m.loader.peers
      ensures m.loader.peers[k] != n.connections[c]
    {
      if k in n.loader.peers && n.loader.peers[k] == n.connections[c] {
        StoredUnderOneKey(n, c, k);
      }
    }
  }

  lemma AcceptedUpdateBreaksIsolation(n: Net, client: Fd)
    requires Inv(n) && Enabled(n, Activate(client, true, true)) && StaleUpdate(n, Activate(client, true, true))
    ensures !Isolated(ActivateSockmap(n, client, true, true))
  {
    var f := if KeyOf(n.sockets[client]) in n.loader.peers then client else n.connections[client];
    var c := OwnerOfStaleKey(n, client, f);
    AcceptedUpdateUnmaps(n, client, c, f);
    var m := Activated(n, client);
    assert m == ActivateSockmap(n, client, true, true);
    assert PairOk(n, c);
    var backend := n.connections[c];
    assert c in m.active && m.active[c] == backend && backend in m.sockets && !ToPartner(m, backend);
  }

  lemma StaleUpdateBreaks(n: Net, a: Action)
    requires Inv(n) && Enabled(n, a) && StaleUpdate(n, a)
    ensures !(Agreed(Next(n, a)) && Isolated(Next(n, a)))
  {
    if a.second {
      AcceptedUpdateBreaksIsolation(n, a.client);
    } else {
      RefusedUpdateLosesKey(n, a.client);
    }
  }

  /** The tables agree and every socket is isolated at every point of the run. */
  predicate AlwaysInOrder(n: Net, run: seq<Action>)
    requires Possible(n, run)
    decreases |run|
  {
    Agreed(n) && Isolated(n) && (run == [] || AlwaysInOrder(Next(n, run[0]), run[1..]))
  }

  lemma NotInOrder(n: Net, run: seq<Action>)
    requires Possible(n, run) && !(Agreed(n) && Isolated(n))
    ensures !AlwaysInOrder(n, run)
  {
  }

  lemma {:induction false} CleanFrom(n: Net, run: seq<Action>)
    requires Inv(n) && Possible(n, run)
    ensures AlwaysInOrder(n, run) <==> Clean(n, run)
    decreases |run|
  {
    InvAgrees(n);
    InvIsolates(n);
    if run != [] {
      var next := Next(n, run[0]);
      if StaleUpdate(n, run[0]) {
        StaleUpdateBreaks(n, run[0]);
        NotInOrder(next, run[1..]);
      } else {
        NextKeepsInv(n, run[0]);
        CleanFrom(next, run[1..]);
      }
    }
  }

  /**
    Over every run: isolation and agreement of the tables hold throughout if and only if no
    activation writes a key that is still in the map.
   */
  lemma InOrderExactly(n: Net, run: seq<Action>)
    requires Init(n) && Possible(n, run)
    ensures AlwaysInOrder(n, run) <==> Clean(n, run)
  {
    CleanFrom(n, run);
  }

  // ---------------------------------------------------------------- a failing run

  lemma RunStep(n: Net, a: Action, rest: seq<Action>)
    requires Enabled(n, a) && Possible(Next(n, a), rest)
    ensures Possible(n, [a] + rest) && After(n, [a] + rest) == After(Next(n, a), rest)
  {
    assert ([a] + rest)[1..] == rest;
  }

  const START := Net(map[], map[], map[], Loader(true, map[], map[]))

  /** Client 1 with backend 2 is handed to the kernel. */
  function PairUp(a: Socket, b: Socket): seq<Action> {
    [Accept(1, a)] + ([Connect(1, 2, b)] + ([Activate(1, true, true)] + []))
  }

  function Paired(a: Socket, b: Socket): Net {
    Net(map[1 := a, 2 := b], map[1 := 2], map[1 := 2],
        Loader(true, map[KeyOf(a) := 2, KeyOf(b) := 1], map[1 := (KeyOf(a), KeyOf(b))]))
  }

  lemma DistinctKeys(a: Socket, b: Socket)
    requires a != b
    ensures KeyOf(a) != KeyOf(b)
  {
    if KeyOf(a) == KeyOf(b) {
      KeysAreInjective(a, b);
    }
  }

  lemma PairUpRun(a: Socket, b: Socket)
    requires a != b && a.localPort != 0 && b.localPort != 0
    ensures Possible(START, PairUp(a, b)) && After(START, PairUp(a, b)) == Paired(a, b)
  {
    DistinctKeys(a, b);
    var n1 := Next(START, Accept(1, a));
    var n2 := Next(n1, Connect(1, 2, b));
    assert Next(n2, Activate(1, true, true)) == Paired(a, b);
    assert Possible(Paired(a, b), []) && After(Paired(a, b), []) == Paired(a, b);
    RunStep(n2, Activate(1, true, true), []);
    RunStep(n1, Connect(1, 2, b), [Activate(1, true, true)] + []);
    RunStep(START, Accept(1, a), [Connect(1, 2, b)] + ([Activate(1, true, true)] + []));
  }

  /** The client's stream closes, and a new client arrives from the same address and port. */
  function ComeBack(a: Socket): seq<Action> {
    [CloseStream(1)] + ([Accept(3, a)] + [])
  }

  function CameBack(a: Socket, b: Socket): Net {
    Paired(a, b).(sockets := map[2 := b, 3 := a])
  }

  lemma ComeBackRun(a: Socket, b: Socket)
    requires a != b
    ensures Possible(Paired(a, b), ComeBack(a)) && After(Paired(a, b), ComeBack(a)) == CameBack(a, b)
  {
    DistinctKeys(a, b);
    var n0 := Paired(a, b);
    assert 1 !in n0.connections.Values;
    var n1 := Next(n0, CloseStream(1));
    assert n1.sockets == map[2 := b];
    assert Next(n1, Accept(3, a)) == CameBack(a, b);
    assert Possible(CameBack(a, b), []) && After(CameBack(a, b), []) == CameBack(a, b);
    RunStep(n1, Accept(3, a), []);
    RunStep(n0, CloseStream(1), [Accept(3, a)] + []);
  }

  /** The new client is handed over too, and then the old one is forgotten. */
  function TakeOver(c: Socket): seq<Action> {
    [Connect(3, 4, c)] + ([Activate(3, true, true)] + ([CloseConnection(1)] + []))
  }

  function TakenOver(a: Socket, b: Socket, c: Socket): Net {
    Net(map[2 := b, 3 := a, 4 := c], map[1 := 2, 3 := 4], map[1 := 2, 3 := 4],
        Loader(true, map[KeyOf(a) := 4, KeyOf(b) := 1, KeyOf(c) := 3],
               map[1 := (KeyOf(a), KeyOf(b)), 3 := (KeyOf(a), KeyOf(c))]))
  }

  function Forgotten(a: Socket, c: Socket): Net {
    Net(map[3 := a, 4 := c], map[3 := 4], map[3 := 4],
        Loader(true, map[KeyOf(c) := 3], map[3 := (KeyOf(a), KeyOf(c))]))
  }

  lemma ForgetLoader(a: Socket, b: Socket, c: Socket)
    requires KeyOf(a) != KeyOf(c) && KeyOf(b) != KeyOf(c)
    ensures RemovePair(TakenOver(a, b, c).loader, 1) == Forgotten(a, c).loader
  {
    var l := TakenOver(a, b, c).loader;
    assert l.pairs - {1} == map[3 := (KeyOf(a), KeyOf(c))];
    assert l.peers - {KeyOf(a), KeyOf(b)} == map[KeyOf(c) := 3];
  }

  lemma ForgetStep(a: Socket, b: Socket, c: Socket)
    requires a != b && a != c && b != c
    ensures CloseConn(TakenOver(a, b, c), 1) == Forgotten(a, c)
  {
    DistinctKeys(a, c);
    DistinctKeys(b, c);
    ForgetLoader(a, b, c);
    var n := TakenOver(a, b, c);
    assert n.sockets - {2} == map[3 := a, 4 := c];
    assert n.connections - {1} == map[3 := 4] && n.active - {1} == map[3 := 4];
  }

  /** The new client has a backend of its own. */
  function Joined(a: Socket, b: Socket, c: Socket): Net {
    CameBack(a, b).(sockets := map[2 := b, 3 := a, 4 := c], connections := map[1 := 2, 3 := 4])
  }

  lemma JoinStep(a: Socket, b: Socket, c: Socket)
    requires a != c && b != c
    ensures Enabled(CameBack(a, b), Connect(3, 4, c)) && Next(CameBack(a, b), Connect(3, 4, c)) == Joined(a, b, c)
  {
    DistinctKeys(a, c);
    DistinctKeys(b, c);
    assert 3 !in CameBack(a, b).connections.Values;
  }

  lemma TakeStep(a: Socket, b: Socket, c: Socket)
    requires a != b && a != c && b != c && a.localPort != 0 && c.localPort != 0
    ensures Enabled(Joined(a, b, c), Activate(3, true, true))
    ensures Next(Joined(a, b, c), Activate(3, true, true)) == TakenOver(a, b, c)
  {
    DistinctKeys(a, b);
    DistinctKeys(a, c);
    DistinctKeys(b, c);
  }

  lemma TakeOverRun(a: Socket, b: Socket, c: Socket)
    requires a != b && a != c && b != c && a.localPort != 0 && c.localPort != 0
    ensures Possible(CameBack(a, b), TakeOver(c)) && After(CameBack(a, b), TakeOver(c)) == Forgotten(a, c)
  {
    JoinStep(a, b, c);
    TakeStep(a, b, c);
    ForgetStep(a, b, c);
    assert Possible(Forgotten(a, c), []) && After(Forgotten(a, c), []) == Forgotten(a, c);
    RunStep(TakenOver(a, b, c), CloseConnection(1), []);
    RunStep(Joined(a, b, c), Activate(3, true, true), [CloseConnection(1)] + []);
    RunStep(CameBack(a, b), Connect(3, 4, c), [Activate(3, true, true)] + ([CloseConnection(1)] + []));
  }

  lemma {:induction false} RunAppend(n: Net, first: seq<Action>, second: seq<Action>)
    requires Possible(n, first) && Possible(After(n, first), second)
    ensures Possible(n, first + second) && After(n, first + second) == After(After(n, first), second)
    decreases |first|
  {
    if first == [] {
      assert first + second == second;
    } else {
      RunAppend(Next(n, first[0]), first[1..], second);
      assert (first + second)[1..] == first[1..] + second;
    }
  }

  /**
    A client that comes back before its predecessor is forgotten has the predecessor's key, and
    is left to userspace all the same: the map has its key but not the socket.
   */
  lemma ReturnIsNotRedirected(a: Socket, b: Socket)
    requires a != b && a.localPort != 0 && b.localPort != 0
    ensures var run := PairUp(a, b) + ComeBack(a);
            && Possible(START, run)
            && var n := After(START, run);
               && 3 in n.sockets && KeyOf(n.sockets[3]) in n.loader.peers
               && Redirect(n, 3) == Userspace && Agreed(n) && Isolated(n)
  {
    PairUpRun(a, b);
    ComeBackRun(a, b);
    RunAppend(START, PairUp(a, b), ComeBack(a));
    DistinctKeys(a, b);
    var n := CameBack(a, b);
    assert Inv(n) by {
      assert PairOk(n, 1);
    }
    InvAgrees(n);
    InvIsolates(n);
  }

  /**
    Once it is activated, forgetting the predecessor deletes its key while its pair stays
    recorded and its socket stays in the map: what it sends is dropped.
   */
  lemma KeyIsLost(a: Socket, b: Socket, c: Socket)
    requires a != b && a != c && b != c && a.localPort != 0 && b.localPort != 0 && c.localPort != 0
    ensures var run := PairUp(a, b) + ComeBack(a) + TakeOver(c);
            && Possible(START, run)
            && var n := After(START, run);
               && 3 in n.active && 3 in n.loader.pairs && 3 in n.sockets && Redirect(n, 3) == Dropped && !Agreed(n)
  {
    PairUpRun(a, b);
    ComeBackRun(a, b);
    RunAppend(START, PairUp(a, b), ComeBack(a));
    TakeOverRun(a, b, c);
    RunAppend(START, PairUp(a, b) + ComeBack(a), TakeOver(c));
    DistinctKeys(a, c);
    BpfAgrees(a);
    var n := Forgotten(a, c);
    assert KeyOf(c) in n.loader.peers && n.loader.peers[KeyOf(c)] == 3;
    assert n.loader.pairs[3].0 == KeyOf(a) && KeyOf(a) in RecordedKeys(n.loader.pairs) && KeyOf(a) !in n.loader.peers;
  }
}
