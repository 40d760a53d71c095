/**
  The sockmap pair table: the kernel map `peers`, the loader's record of pairs, and the
  adapter's tables, over every run of accepts, dials, activations, closes and shutdown.

  The adapters of all listening ports share one loader; since client descriptors are unique
  in the process, their tables are kept here as one.
 */
module PairTable {
  import opened Wrappers
  import opened TupleKey

  type Fd = int

  /** The loader: the kernel map it maintains, and the keys it recorded per client descriptor. */
  datatype Loader = Loader(available: bool, peers: map<Key, Fd>, pairs: map<Fd, (Key, Key)>)

  // ---------------------------------------------------------------- loader operations

  datatype Inserted = Inserted(loader: Loader, ok: bool)

  /** `insert_pair`: two updates, either of which the kernel may refuse; the first is undone when the second fails. */
  function InsertPair(l: Loader, accept: Fd, backend: Fd, selfKey: Option<Key>, peerKey: Option<Key>,
                      first: bool, second: bool): Inserted
  {
    if !l.available || selfKey.None? || peerKey.None? || !first then Inserted(l, false)
    else
      var one := l.peers[selfKey.value := backend];
      if !second then Inserted(l.(peers := one - {selfKey.value}), false)
      else
        Inserted(l.(peers := one[peerKey.value := accept],
                    pairs := l.pairs[accept := (selfKey.value, peerKey.value)]), true)
  }

  function RemovePair(l: Loader, accept: Fd): Loader {
    if accept !in l.pairs then l
    else l.(pairs := l.pairs - {accept}, peers := l.peers - {l.pairs[accept].0, l.pairs[accept].1})
  }

  function RecordedKeys(pairs: map<Fd, (Key, Key)>): set<Key> {
    (set c | c in pairs :: pairs[c].0) + (set c | c in pairs :: pairs[c].1)
  }

  /** Dropping the loader removes every recorded pair. */
  function Close(l: Loader): Loader {
    Loader(false, l.peers - RecordedKeys(l.pairs), map[])
  }

  /**
    A refused insert leaves everything as it was, if and only if it did not get as far as
    undoing a first update on a key that was already in the map.
   */
  lemma RollbackIsExact(l: Loader, accept: Fd, backend: Fd, selfKey: Option<Key>, peerKey: Option<Key>,
                        first: bool, second: bool)
    requires !InsertPair(l, accept, backend, selfKey, peerKey, first, second).ok
    ensures InsertPair(l, accept, backend, selfKey, peerKey, first, second).loader == l <==>
            !(l.available && selfKey.Some? && peerKey.Some? && first && selfKey.value in l.peers)
  {
    if l.available && selfKey.Some? && peerKey.Some? && first {
      var k := selfKey.value;
      if k !in l.peers {
        assert l.peers[k := backend] - {k} == l.peers;
      } else {
        assert k !in l.peers[k := backend] - {k};
      }
    }
  }

  /** The failing side: undoing takes an entry away that was there before, and nothing else. */
  lemma RollbackLosesEntry(l: Loader, accept: Fd, backend: Fd, selfKey: Key, peerKey: Key)
    requires l.available && selfKey in l.peers
    ensures var r := InsertPair(l, accept, backend, Some(selfKey), Some(peerKey), true, false);
            !r.ok && r.loader == l.(peers := l.peers - {selfKey}) && r.loader != l
  {
    assert l.peers[selfKey := backend] - {selfKey} == l.peers - {selfKey};
    assert selfKey !in l.peers - {selfKey};
  }

  /** `insertPair` in PHP, where key 0 means failure. */
  function PhpInsertPair(l: Loader, accept: Fd, backend: Fd, selfKey: Key, peerKey: Key,
                         first: bool, second: bool): Inserted
  {
    if !l.available then Inserted(l, false)
    else if selfKey == Key(0) || peerKey == Key(0) then Inserted(l, false)
    else if !first then Inserted(l, false)
    else
      var one := l.peers[selfKey := backend];
      if !second then Inserted(l.(peers := one - {selfKey}), false)
      else Inserted(l.(peers := one[peerKey := accept], pairs := l.pairs[accept := (selfKey, peerKey)]), true)
  }

  /** Both loaders take the same decisions and leave the same tables, whatever the two sockets are. */
  lemma LoadersAgree(l: Loader, accept: Fd, backend: Fd, a: Option<Socket>, b: Option<Socket>, first: bool, second: bool)
    ensures PhpInsertPair(l, accept, backend, PhpKey(a), PhpKey(b), first, second)
            == InsertPair(l, accept, backend, RustKey(a), RustKey(b), first, second)
  {
    SentinelIsSafe(a);
    SentinelIsSafe(b);
  }

  // ---------------------------------------------------------------- the system

  datatype Net = Net(
    sockets: map<Fd, Socket>,     // open sockets, client and backend side
    connections: map<Fd, Fd>,     // adapter: client descriptor to backend descriptor
    active: map<Fd, Fd>,          // adapter: the pairs handed to the kernel
    loader: Loader)

  datatype Action =
    | Accept(fd: Fd, socket: Socket)
    | Connect(client: Fd, backend: Fd, socket: Socket)
    | Activate(client: Fd, first: bool, second: bool)
    | CloseStream(client: Fd)
    | CloseConnection(client: Fd)
    | Shutdown

  /** A new socket has a key no open socket has and, as long as a closed client is not forgotten, a new descriptor. */
  predicate NewSocket(n: Net, fd: Fd, socket: Socket) {
    && fd > 0 && fd !in n.sockets && fd !in n.connections
    && forall f :: f in n.sockets ==> KeyOf(n.sockets[f]) != KeyOf(socket)
  }

  predicate Enabled(n: Net, a: Action) {
    match a
    case Accept(fd, socket) => NewSocket(n, fd, socket)
    case Connect(client, backend, socket) =>
      client in n.sockets && client !in n.connections && client !in n.connections.Values && NewSocket(n, backend, socket)
    case Activate(client, _, _) => client in n.sockets && client !in n.active
    case CloseStream(client) => client in n.sockets && client !in n.connections.Values
    case CloseConnection(client) => client !in n.sockets
    case Shutdown => true
  }

  function SocketOf(n: Net, fd: Fd): Option<Socket> {
    if fd in n.sockets then Some(n.sockets[fd]) else None
  }

  /** There is a connection whose pair can be handed to the kernel. */
  predicate Attempts(n: Net, client: Fd) {
    n.loader.available && client in n.connections && n.connections[client] > 0
  }

  function InsertFor(n: Net, client: Fd, first: bool, second: bool): Inserted
    requires client in n.connections
  {
    var backend := n.connections[client];
    InsertPair(n.loader, client, backend, RustKey(SocketOf(n, client)), RustKey(SocketOf(n, backend)), first, second)
  }

  /** The insert is attempted and the kernel takes both updates: userspace stops forwarding. */
  predicate Activates(n: Net, client: Fd, first: bool, second: bool) {
    Attempts(n, client) && InsertFor(n, client, first, second).ok
  }

  /** `activate_sockmap` */
  function ActivateSockmap(n: Net, client: Fd, first: bool, second: bool): Net {
    if !Attempts(n, client) then n
    else
      n.(loader := InsertFor(n, client, first, second).loader,
         active := if Activates(n, client, first, second) then n.active[client := n.connections[client]] else n.active)
  }

  /** `close_connection`: the pair goes first, then the connection, whose backend socket closes with it. */
  function CloseConn(n: Net, client: Fd): Net {
    var loader := if client in n.active then RemovePair(n.loader, client) else n.loader;
    var sockets := if client in n.connections then n.sockets - {n.connections[client]} else n.sockets;
    n.(loader := loader, active := n.active - {client}, connections := n.connections - {client}, sockets := sockets)
  }

  function Next(n: Net, a: Action): Net
    requires Enabled(n, a)
  {
    match a
    case Accept(fd, socket) => n.(sockets := n.sockets[fd := socket])
    case Connect(client, backend, socket) =>
      n.(sockets := n.sockets[backend := socket], connections := n.connections[client := backend])
    case Activate(client, first, second) => ActivateSockmap(n, client, first, second)
    case CloseStream(client) => n.(sockets := n.sockets - {client})
    case CloseConnection(client) => CloseConn(n, client)
    case Shutdown => n.(loader := Close(n.loader))
  }

  // ---------------------------------------------------------------- invariant

  predicate ConnectionsOk(n: Net) {
    && (forall f :: f in n.sockets ==> f > 0)
    && (forall c :: c in n.connections ==>
          n.connections[c] in n.sockets && n.connections[c] !in n.connections)
    && (forall c, d :: c in n.connections && d in n.connections && n.connections[c] == n.connections[d] ==> c == d)
    && (forall f, g :: f in n.sockets && g in n.sockets && KeyOf(n.sockets[f]) == KeyOf(n.sockets[g]) ==> f == g)
  }

  /** The pair recorded for client `c` is in the kernel map in both directions, under both sockets' keys. */
  predicate PairOk(n: Net, c: Fd)
    requires c in n.loader.pairs
  {
    var (selfKey, peerKey) := n.loader.pairs[c];
    && c in n.active && c in n.connections && n.active[c] == n.connections[c]
    && n.connections[c] in n.sockets && peerKey == KeyOf(n.sockets[n.connections[c]])
    && (c in n.sockets ==> selfKey == KeyOf(n.sockets[c]))
    && selfKey != peerKey
    && selfKey in n.loader.peers && n.loader.peers[selfKey] == n.connections[c]
    && peerKey in n.loader.peers && n.loader.peers[peerKey] == c
  }

  predicate Recorded(pairs: map<Fd, (Key, Key)>, k: Key) {
    exists c :: c in pairs && (pairs[c].0 == k || pairs[c].1 == k)
  }

  predicate TableOk(n: Net) {
    && (forall c :: c in n.loader.pairs ==> PairOk(n, c))
    && (forall k :: k in n.loader.peers ==> Recorded(n.loader.pairs, k))
  }

  predicate AdapterOk(n: Net) {
    && (forall c :: c in n.active ==> c in n.connections && n.active[c] == n.connections[c])
    && (n.loader.available ==> n.active.Keys == n.loader.pairs.Keys)
    && (!n.loader.available ==> n.loader.pairs == map[])
  }

  predicate Inv(n: Net) {
    ConnectionsOk(n) && TableOk(n) && AdapterOk(n)
  }

  /**
    The step writes a key that the kernel map still has: an activation gets as far as the first
    update and that key, or also the second and the other one, is in the map.
   */
  predicate StaleUpdate(n: Net, a: Action) {
    && a.Activate? && Attempts(n, a.client) && a.first
    && var self, peer := RustKey(SocketOf(n, a.client)), RustKey(SocketOf(n, n.connections[a.client]));
       && self.Some? && peer.Some?
       && (self.value in n.loader.peers || (a.second && peer.value in n.loader.peers))
  }

  predicate Init(n: Net) {
    n.sockets == map[] && n.connections == map[] && n.active == map[] && n.loader.peers == map[] && n.loader.pairs == map[]
  }

  lemma AcceptKeepsInv(n: Net, fd: Fd, socket: Socket)
    requires Inv(n) && NewSocket(n, fd, socket)
    ensures Inv(n.(sockets := n.sockets[fd := socket]))
  {
    var n' := n.(sockets := n.sockets[fd := socket]);
    forall c | c in n.loader.pairs
      ensures PairOk(n', c)
    {
      assert PairOk(n, c);
    }
  }

  lemma LinkKeepsInv(n: Net, client: Fd, backend: Fd)
    requires Inv(n) && client !in n.connections && client !in n.connections.Values && client != backend
    requires backend in n.sockets && backend !in n.connections && backend !in n.connections.Values
    ensures Inv(n.(connections := n.connections[client := backend]))
  {
    var n' := n.(connections := n.connections[client := backend]);
    forall c | c in n.connections
      ensures n.connections[c] != backend && n.connections[c] != client
    {
      assert n.connections[c] in n.connections.Values;
    }
    forall c | c in n.loader.pairs
      ensures PairOk(n', c)
    {
      assert PairOk(n, c);
    }
  }

  lemma ConnectKeepsInv(n: Net, client: Fd, backend: Fd, socket: Socket)
    requires Inv(n) && Enabled(n, Connect(client, backend, socket))
    ensures Inv(Next(n, Connect(client, backend, socket)))
  {
    AcceptKeepsInv(n, backend, socket);
    assert forall c :: c in n.connections ==> n.connections[c] in n.sockets;
    LinkKeepsInv(n.(sockets := n.sockets[backend := socket]), client, backend);
  }

  /** A client and its backend have different keys. */
  lemma TwoKeys(n: Net, client: Fd)
    requires ConnectionsOk(n) && client in n.sockets && client in n.connections
    ensures KeyOf(n.sockets[client]) != KeyOf(n.sockets[n.connections[client]])
  {
    assert client != n.connections[client];
  }

  /** The tables after a client and its backend have been handed over. */
  function Activated(n: Net, client: Fd): Net
    requires client in n.sockets && client in n.connections && n.connections[client] in n.sockets
  {
    var backend := n.connections[client];
    var selfKey, peerKey := KeyOf(n.sockets[client]), KeyOf(n.sockets[backend]);
    n.(active := n.active[client := backend],
       loader := n.loader.(peers := n.loader.peers[selfKey := backend][peerKey := client],
                           pairs := n.loader.pairs[client := (selfKey, peerKey)]))
  }

  /** Neither the client's key nor its backend's is in the map. */
  predicate CanActivate(n: Net, client: Fd) {
    && client in n.sockets && client !in n.active && client in n.connections && n.loader.available
    && n.connections[client] in n.sockets
    && KeyOf(n.sockets[client]) !in n.loader.peers && KeyOf(n.sockets[n.connections[client]]) !in n.loader.peers
  }

  lemma InsertedPairOk(n: Net, client: Fd, c: Fd)
    requires Inv(n) && CanActivate(n, client) && (c in n.loader.pairs || c == client)
    ensures PairOk(Activated(n, client), c)
  {
    TwoKeys(n, client);
    var n' := Activated(n, client);
    if c != client {
      assert PairOk(n, c);
      var (k0, k1) := n.loader.pairs[c];
      assert n'.loader.peers[k0] == n.loader.peers[k0] && n'.loader.peers[k1] == n.loader.peers[k1];
    }
  }

  lemma InsertedIsRecorded(n: Net, client: Fd, k: Key)
    requires Inv(n) && CanActivate(n, client) && k in Activated(n, client).loader.peers
    ensures Recorded(Activated(n, client).loader.pairs, k)
  {
    var n' := Activated(n, client);
    if k in n.loader.peers {
      var c :| c in n.loader.pairs && (n.loader.pairs[c].0 == k || n.loader.pairs[c].1 == k);
      assert c in n'.loader.pairs && n'.loader.pairs[c] == n.loader.pairs[c];
    } else {
      assert client in n'.loader.pairs;
    }
  }

  lemma InsertedKeepsTable(n: Net, client: Fd)
    requires Inv(n) && CanActivate(n, client)
    ensures TableOk(Activated(n, client))
  {
    var n' := Activated(n, client);
    forall c | c in n'.loader.pairs
      ensures PairOk(n', c)
    {
      InsertedPairOk(n, client, c);
    }
    forall k | k in n'.loader.peers
      ensures Recorded(n'.loader.pairs, k)
    {
      InsertedIsRecorded(n, client, k);
    }
  }

  lemma ActivateKeepsInv(n: Net, client: Fd, first: bool, second: bool)
    requires Inv(n) && Enabled(n, Activate(client, first, second)) && !StaleUpdate(n, Activate(client, first, second))
    ensures Inv(ActivateSockmap(n, client, first, second))
  {
    if Attempts(n, client) {
      var backend := n.connections[client];
      var a, b := RustKey(SocketOf(n, client)), RustKey(SocketOf(n, backend));
      if InsertPair(n.loader, client, backend, a, b, first, second).ok {
        InsertedKeepsTable(n, client);
      } else {
        RollbackIsExact(n.loader, client, backend, a, b, first, second);
      }
    }
  }

  lemma CloseStreamKeepsInv(n: Net, client: Fd)
    requires Inv(n) && Enabled(n, CloseStream(client))
    ensures Inv(n.(sockets := n.sockets - {client}))
  {
  }

  /** No two recorded pairs share a key. */
  lemma PairsAreDisjoint(n: Net, c: Fd, d: Fd)
    requires Inv(n) && c in n.loader.pairs && d in n.loader.pairs && c != d
    ensures {n.loader.pairs[c].0, n.loader.pairs[c].1} !! {n.loader.pairs[d].0, n.loader.pairs[d].1}
  {
    assert PairOk(n, c) && PairOk(n, d);
  }

  lemma OtherPairStays(n: Net, client: Fd, c: Fd)
    requires Inv(n) && client !in n.sockets && client in n.loader.pairs && c in n.loader.pairs && c != client
    ensures PairOk(CloseConn(n, client), c)
  {
    assert PairOk(n, client) && PairOk(n, c);
    PairsAreDisjoint(n, c, client);
    var n' := CloseConn(n, client);
    var (k0, k1) := n.loader.pairs[c];
    assert n'.loader.peers[k0] == n.loader.peers[k0] && n'.loader.peers[k1] == n.loader.peers[k1];
  }

  lemma CloseConnKeepsTable(n: Net, client: Fd)
    requires Inv(n) && client !in n.sockets && client in n.loader.pairs
    ensures TableOk(CloseConn(n, client))
  {
    var n' := CloseConn(n, client);
    assert PairOk(n, client);
    forall c | c in n'.loader.pairs
      ensures PairOk(n', c)
    {
      OtherPairStays(n, client, c);
    }
    forall k | k in n'.loader.peers
      ensures Recorded(n'.loader.pairs, k)
    {
      var c :| c in n.loader.pairs && (n.loader.pairs[c].0 == k || n.loader.pairs[c].1 == k);
      assert c in n'.loader.pairs;
    }
  }

  lemma CloseConnKeepsInv(n: Net, client: Fd)
    requires Inv(n) && client !in n.sockets
    ensures Inv(CloseConn(n, client))
  {
    if client in n.loader.pairs {
      assert PairOk(n, client);
      CloseConnKeepsTable(n, client);
    } else {
      forall c | c in n.loader.pairs
        ensures PairOk(CloseConn(n, client), c)
      {
        assert PairOk(n, c);
      }
    }
  }

  lemma ShutdownEmptiesPeers(l: Loader)
    requires forall k :: k in l.peers ==> Recorded(l.pairs, k)
    ensures Close(l).peers == map[]
  {
    forall k | k in l.peers
      ensures k in RecordedKeys(l.pairs)
    {
      var c :| c in l.pairs && (l.pairs[c].0 == k || l.pairs[c].1 == k);
    }
  }

  lemma NextKeepsInv(n: Net, a: Action)
    requires Inv(n) && Enabled(n, a) && !StaleUpdate(n, a)
    ensures Inv(Next(n, a))
  {
    match a
    case Accept(fd, socket) => AcceptKeepsInv(n, fd, socket);
    case Connect(client, backend, socket) => ConnectKeepsInv(n, client, backend, socket);
    case Activate(client, first, second) => ActivateKeepsInv(n, client, first, second);
    case CloseStream(client) => CloseStreamKeepsInv(n, client);
    case CloseConnection(client) => CloseConnKeepsInv(n, client);
    case Shutdown => ShutdownEmptiesPeers(n.loader);
  }

  // ---------------------------------------------------------------- whole runs

  predicate Possible(n: Net, run: seq<Action>)
    decreases |run|
  {
    run == [] || (Enabled(n, run[0]) && Possible(Next(n, run[0]), run[1..]))
  }

  function After(n: Net, run: seq<Action>): Net
    requires Possible(n, run)
    decreases |run|
  {
    if run == [] then n else After(Next(n, run[0]), run[1..])
  }

  /** No activation writes a key that the kernel map still has. */
  predicate Clean(n: Net, run: seq<Action>)
    requires Possible(n, run)
    decreases |run|
  {
    run == [] || (!StaleUpdate(n, run[0]) && Clean(Next(n, run[0]), run[1..]))
  }

  lemma {:induction false} RunKeepsInv(n: Net, run: seq<Action>)
    requires Inv(n) && Possible(n, run) && Clean(n, run)
    ensures Inv(After(n, run))
    decreases |run|
  {
    if run != [] {
      NextKeepsInv(n, run[0]);
      RunKeepsInv(Next(n, run[0]), run[1..]);
    }
  }

  /**
    The kernel map holds exactly the keys of the recorded pairs, the recorded pairs are the
    adapter's active ones while the loader is up, and the active ones are connections.
   */
  predicate Agreed(n: Net) {
    && n.loader.peers.Keys == RecordedKeys(n.loader.pairs)
    && (forall c :: c in n.active ==> c in n.connections && n.active[c] == n.connections[c])
    && (n.loader.available ==> n.active.Keys == n.loader.pairs.Keys)
    && (!n.loader.available ==> n.loader.peers == map[])
  }

  lemma InvAgrees(n: Net)
    requires Inv(n)
    ensures Agreed(n)
  {
    forall k
      ensures k in n.loader.peers <==> k in RecordedKeys(n.loader.pairs)
    {
      if k in n.loader.peers || k in RecordedKeys(n.loader.pairs) {
        var c :| c in n.loader.pairs && (n.loader.pairs[c].0 == k || n.loader.pairs[c].1 == k);
        assert PairOk(n, c);
      }
    }
  }

  /** After every clean run the tables agree. */
  lemma TablesAgree(n: Net, run: seq<Action>)
    requires Init(n) && Possible(n, run) && Clean(n, run)
    ensures Agreed(After(n, run))
  {
    RunKeepsInv(n, run);
    InvAgrees(After(n, run));
  }

  /** What becomes of a segment that arrives on a socket. */
  datatype Verdict =
    | Userspace       // the socket is not in the map: `relay` does not run, and the proxy reads the bytes
    | Dropped         // the socket is in the map, but its own key is not
    | To(fd: Fd)      // the segment goes to this socket

  /** The socket is stored in the kernel map. */
  predicate InMap(l: Loader, fd: Fd) {
    exists k :: k in l.peers && l.peers[k] == fd
  }

  /** `relay` runs on the sockets in the map, and looks up the socket's own key. */
  function Redirect(n: Net, fd: Fd): Verdict
    requires fd in n.sockets
  {
    var k := Key(BpfPack(Exposed(n.sockets[fd])));
    if !InMap(n.loader, fd) then Userspace
    else if k in n.loader.peers then To(n.loader.peers[k])
    else Dropped
  }

  predicate Partners(n: Net, f: Fd, g: Fd) {
    (f in n.active && n.active[f] == g) || (g in n.active && n.active[g] == f)
  }

  predicate Partnerless(n: Net, f: Fd) {
    forall c :: c in n.active ==> c != f && n.active[c] != f
  }

  /** A socket of an active pair is redirected to its partner; any other is left to userspace. */
  predicate ToPartner(n: Net, f: Fd)
    requires f in n.sockets
  {
    match Redirect(n, f)
    case To(g) => Partners(n, f, g)
    case Userspace => Partnerless(n, f)
    case Dropped => false
  }

  /** While the loader is up, this is so for every open socket. */
  predicate Isolated(n: Net) {
    n.loader.available ==> forall f :: f in n.sockets ==> ToPartner(n, f)
  }

  /**
    Redirect isolation: after every clean run, while the loader is up, a segment on an open
    socket goes exactly to the socket's partner in an active pair and is never dropped;
    redirecting twice comes back; and no third socket reaches either of them.
   */
  lemma RedirectIsolation(n: Net, run: seq<Action>, f: Fd)
    requires Init(n) && Possible(n, run) && Clean(n, run) && f in After(n, run).sockets && After(n, run).loader.available
    ensures var m := After(n, run);
            && (forall g :: Redirect(m, f) == To(g) <==> Partners(m, f, g)) && !Redirect(m, f).Dropped?
            && (Redirect(m, f).To? && Redirect(m, f).fd in m.sockets ==> Redirect(m, Redirect(m, f).fd) == To(f))
            && (forall h :: h in m.sockets && h != f && Redirect(m, f).To? ==>
                  Redirect(m, h) != Redirect(m, f) && (Redirect(m, h) == To(f) ==> Redirect(m, f) == To(h)))
  {
    RunKeepsInv(n, run);
    var m := After(n, run);
    RedirectsToPartner(m, f);
    if Redirect(m, f).To? && Redirect(m, f).fd in m.sockets {
      RedirectsToPartner(m, Redirect(m, f).fd);
      assert Partners(m, Redirect(m, f).fd, f);
    }
    forall h | h in m.sockets && h != f && Redirect(m, f).To?
      ensures Redirect(m, h) != Redirect(m, f) && (Redirect(m, h) == To(f) ==> Redirect(m, f) == To(h))
    {
      RedirectsToPartner(m, h);
      OnePartner(m, f, Redirect(m, f).fd, h);
    }
  }

  /** A socket has one partner at most. */
  lemma OnePartner(n: Net, f: Fd, g: Fd, h: Fd)
    requires Inv(n) && Partners(n, f, g) && h != f
    ensures !Partners(n, h, g) && (Partners(n, h, f) ==> h == g)
  {
  }

  lemma SamePartner(n: Net, f: Fd, g: Fd, h: Fd)
    requires Inv(n) && Partners(n, f, g) && Partners(n, f, h)
    ensures g == h
  {
  }

  /** A socket in the map belongs to a recorded pair, and its own key leads to the other one. */
  lemma MappedIsPaired(n: Net, f: Fd)
    requires Inv(n) && f in n.sockets && InMap(n.loader, f)
    ensures Redirect(n, f).To? && Partners(n, f, Redirect(n, f).fd)
  {
    var k :| k in n.loader.peers && n.loader.peers[k] == f;
    var c :| c in n.loader.pairs && (n.loader.pairs[c].0 == k || n.loader.pairs[c].1 == k);
    assert PairOk(n, c);
    BpfAgrees(n.sockets[f]);
  }

  lemma PairedIsMapped(n: Net, f: Fd, g: Fd)
    requires Inv(n) && n.loader.available && Partners(n, f, g)
    ensures InMap(n.loader, f)
  {
    var c := if f in n.active && n.active[f] == g then f else g;
    assert PairOk(n, c);
    var k := if c == f then n.loader.pairs[c].1 else n.loader.pairs[c].0;
    assert k in n.loader.peers && n.loader.peers[k] == f;
  }

  lemma RedirectsToPartner(n: Net, f: Fd)
    requires Inv(n) && f in n.sockets && n.loader.available
    ensures (forall g :: Redirect(n, f) == To(g) <==> Partners(n, f, g)) && !Redirect(n, f).Dropped?
  {
    if InMap(n.loader, f) {
      MappedIsPaired(n, f);
    }
    forall g | Partners(n, f, g)
      ensures Redirect(n, f) == To(g)
    {
      PairedIsMapped(n, f, g);
      MappedIsPaired(n, f);
      SamePartner(n, f, g, Redirect(n, f).fd);
    }
  }

  // ---------------------------------------------------------------- what every run keeps

  /** The entry for `k` is one of the two that pair `c` made. */
  predicate Backing(l: Loader, active: map<Fd, Fd>, c: Fd, k: Key) {
    && k in l.peers && c in l.pairs && c in active
    && ((l.pairs[c].0 == k && l.peers[k] == active[c]) || (l.pairs[c].1 == k && l.peers[k] == c))
  }

  ghost predicate PeersOk(l: Loader, active: map<Fd, Fd>) {
    forall k :: k in l.peers ==> exists c :: Backing(l, active, c, k)
  }

  /** Clean or not: the adapter's tables are in order, and every kernel entry belongs to a recorded pair. */
  ghost predicate Sound(n: Net) {
    ConnectionsOk(n) && AdapterOk(n) && PeersOk(n.loader, n.active)
  }

  lemma AcceptKeepsSound(n: Net, fd: Fd, socket: Socket)
    requires Sound(n) && NewSocket(n, fd, socket)
    ensures Sound(n.(sockets := n.sockets[fd := socket]))
  {
  }

  lemma LinkKeepsSound(n: Net, client: Fd, backend: Fd)
    requires Sound(n) && client !in n.connections && client !in n.connections.Values && client != backend
    requires backend in n.sockets && backend !in n.connections && backend !in n.connections.Values
    ensures Sound(n.(connections := n.connections[client := backend]))
  {
    forall c | c in n.connections
      ensures n.connections[c] != backend && n.connections[c] != client
    {
      assert n.connections[c] in n.connections.Values;
    }
  }

  lemma InsertKeepsPeers(l: Loader, active: map<Fd, Fd>, client: Fd, backend: Fd, a: Option<Key>, b: Option<Key>,
                         first: bool, second: bool)
    requires PeersOk(l, active) && client !in active
    ensures var r := InsertPair(l, client, backend, a, b, first, second);
            PeersOk(r.loader, if r.ok then active[client := backend] else active)
  {
    var r := InsertPair(l, client, backend, a, b, first, second);
    var active' := if r.ok then active[client := backend] else active;
    forall k | k in r.loader.peers
      ensures exists c :: Backing(r.loader, active', c, k)
    {
      if r.ok && (k == a.value || k == b.value) {
        assert Backing(r.loader, active', client, k);
      } else {
        var c :| Backing(l, active, c, k);
        assert Backing(r.loader, active', c, k);
      }
    }
  }

  lemma ActivateKeepsSound(n: Net, client: Fd, first: bool, second: bool)
    requires Sound(n) && client !in n.active
    ensures Sound(ActivateSockmap(n, client, first, second))
  {
    if Attempts(n, client) {
      InsertKeepsPeers(n.loader, n.active, client, n.connections[client], RustKey(SocketOf(n, client)),
                       RustKey(SocketOf(n, n.connections[client])), first, second);
    }
  }

  lemma RemoveKeepsPeers(l: Loader, active: map<Fd, Fd>, client: Fd)
    requires PeersOk(l, active) && (client in l.pairs ==> client in active)
    ensures PeersOk(if client in active then RemovePair(l, client) else l, active - {client})
  {
    var l' := if client in active then RemovePair(l, client) else l;
    forall k | k in l'.peers
      ensures exists c :: Backing(l', active - {client}, c, k)
    {
      var c :| Backing(l, active, c, k);
      assert Backing(l', active - {client}, c, k);
    }
  }

  lemma CloseConnKeepsSound(n: Net, client: Fd)
    requires Sound(n) && client !in n.sockets
    ensures Sound(CloseConn(n, client))
  {
    RemoveKeepsPeers(n.loader, n.active, client);
  }

  lemma ShutdownKeepsSound(n: Net)
    requires Sound(n)
    ensures Sound(n.(loader := Close(n.loader)))
  {
    forall k | k in n.loader.peers
      ensures Recorded(n.loader.pairs, k)
    {
      var c :| Backing(n.loader, n.active, c, k);
    }
    ShutdownEmptiesPeers(n.loader);
  }

  lemma NextKeepsSound(n: Net, a: Action)
    requires Sound(n) && Enabled(n, a)
    ensures Sound(Next(n, a))
  {
    match a
    case Accept(fd, socket) => AcceptKeepsSound(n, fd, socket);
    case Connect(client, backend, socket) =>
      AcceptKeepsSound(n, backend, socket);
      assert forall c :: c in n.connections ==> n.connections[c] in n.sockets;
      LinkKeepsSound(n.(sockets := n.sockets[backend := socket]), client, backend);
    case Activate(client, first, second) => ActivateKeepsSound(n, client, first, second);
    case CloseStream(client) =>
    case CloseConnection(client) => CloseConnKeepsSound(n, client);
    case Shutdown => ShutdownKeepsSound(n);
  }

  lemma {:induction false} RunKeepsSound(n: Net, run: seq<Action>)
    requires Sound(n) && Possible(n, run)
    ensures Sound(After(n, run))
    decreases |run|
  {
    if run != [] {
      NextKeepsSound(n, run[0]);
      RunKeepsSound(Next(n, run[0]), run[1..]);
    }
  }

  /** After `close_connection` no table mentions the client or its backend. */
  lemma NothingLeft(n: Net, run: seq<Action>, client: Fd)
    requires Init(n) && Possible(n, run) && client !in After(n, run).sockets
    ensures var before := After(n, run);
            var m := CloseConn(before, client);
            && client !in m.connections && client !in m.active && client !in m.loader.pairs
            && client !in m.loader.peers.Values && client !in m.sockets
            && (client in before.connections ==>
                  before.connections[client] !in m.sockets && before.connections[client] !in m.loader.peers.Values)
  {
    RunKeepsSound(n, run);
    var before := After(n, run);
    CloseConnKeepsSound(before, client);
    var m := CloseConn(before, client);
    forall k | k in m.loader.peers
      ensures m.loader.peers[k] != client
      ensures client in before.connections ==> m.loader.peers[k] != before.connections[client]
    {
      var c :| Backing(m.loader, m.active, c, k);
      assert c in before.connections && before.connections[c] == m.active[c];
    }
  }

  // ---------------------------------------------------------------- the PHP adapter

  /** `removePair` in PHP does nothing once the loader is closed. */
  function PhpRemovePair(l: Loader, accept: Fd): Loader {
    if !l.available || accept !in l.pairs then l
    else l.(pairs := l.pairs - {accept}, peers := l.peers - {l.pairs[accept].0, l.pairs[accept].1})
  }

  /** `closeConnection` in PHP returns at once when there is no connection. */
  function PhpCloseConn(n: Net, client: Fd): Net {
    if client !in n.connections then n
    else
      n.(loader := if client in n.active then PhpRemovePair(n.loader, client) else n.loader,
         active := if client in n.active then n.active - {client} else n.active,
         connections := n.connections - {client},
         sockets := n.sockets - {n.connections[client]})
  }

  /** The early returns change nothing: both adapters close alike in every reachable state. */
  lemma ClosesAgree(n: Net, run: seq<Action>, client: Fd)
    requires Init(n) && Possible(n, run)
    ensures PhpCloseConn(After(n, run), client) == CloseConn(After(n, run), client)
  {
    RunKeepsSound(n, run);
    var m := After(n, run);
    if client !in m.connections {
      assert m.active - {client} == m.active && m.connections - {client} == m.connections;
    } else if client !in m.active {
      assert m.active - {client} == m.active;
    }
  }
}
