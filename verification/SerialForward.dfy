/**
  The single-task TCP relay: after the first packet, one loop waits for whichever side has
  bytes next and writes them to the other, until a side ends or a write fails.
 */
module SerialForward {
  import opened Bytes

  datatype Side = Client | Backend

  /** The outcome of one turn of the loop: who was read, what came (nothing: end or error), and the write. */
  datatype Event = Event(from: Side, data: seq<Byte>, write: Written)

  predicate Breaks(e: Event) {
    e.data == [] || e.write.Partial?
  }

  /** What the other side of `from` is sent before the loop stops. */
  function Delivered(events: seq<Event>, from: Side): seq<Byte> {
    if events == [] then []
    else
      var here := if events[0].from == from then SentPart(events[0].data, events[0].write) else [];
      if Breaks(events[0]) then here else here + Delivered(events[1..], from)
  }

  /** What was read from a side, up to and including the turn that stops the loop. */
  function ReadFrom(events: seq<Event>, from: Side): seq<Byte> {
    if events == [] then []
    else
      var here := if events[0].from == from then events[0].data else [];
      if Breaks(events[0]) then here else here + ReadFrom(events[1..], from)
  }

  function Sent(sofar: seq<Byte>, e: Event, from: Side): seq<Byte> {
    if e.from == from then sofar + SentPart(e.data, e.write) else sofar
  }

  /** What a side has been sent, and what it will still be sent from turn `i` on. */
  function Total(sofar: seq<Byte>, events: seq<Event>, i: nat, from: Side): seq<Byte>
    requires i <= |events|
  {
    sofar + Delivered(events[i..], from)
  }

  lemma TotalStep(sofar: seq<Byte>, events: seq<Event>, i: nat, from: Side)
    requires i < |events|
    ensures Total(sofar, events, i, from) == if Breaks(events[i]) then Sent(sofar, events[i], from)
                                             else Total(Sent(sofar, events[i], from), events, i + 1, from)
  {
    assert events[i..][0] == events[i] && events[i..][1..] == events[i + 1..];
  }

  lemma TotalEnds(sofar: seq<Byte>, events: seq<Event>, from: Side)
    ensures Total([], events, 0, from) == Delivered(events, from)
    ensures Total(sofar, events, |events|, from) == sofar
  {
    assert events[0..] == events && events[|events|..] == [];
  }

  /** The loop as it runs. */
  method ForwardSerialised(events: seq<Event>) returns (toBackend: seq<Byte>, toClient: seq<Byte>)
    ensures toBackend == Delivered(events, Client)
    ensures toClient == Delivered(events, Backend)
  {
    toBackend, toClient := [], [];
    ghost var up, down := Total([], events, 0, Client), Total([], events, 0, Backend);
    TotalEnds(toBackend, events, Client);
    TotalEnds(toClient, events, Backend);
    for i := 0 to |events|
      invariant up == Total(toBackend, events, i, Client)
      invariant down == Total(toClient, events, i, Backend)
    {
      TotalStep(toBackend, events, i, Client);
      TotalStep(toClient, events, i, Backend);
      var e := events[i];
      if e.data == [] {
        return;
      }
      if e.from == Client {
        toBackend := toBackend + SentPart(e.data, e.write);
      } else {
        toClient := toClient + SentPart(e.data, e.write);
      }
      if e.write.Partial? {
        return;
      }
    }
    TotalEnds(toBackend, events, Client);
    TotalEnds(toClient, events, Backend);
  }

  predicate Clean(events: seq<Event>) {
    forall i :: 0 <= i < |events| ==> events[i].write.All?
  }

  /** Each side gets a prefix of what the other sent, and all of it if no write failed. */
  lemma {:induction false} DeliversPrefix(events: seq<Event>, from: Side)
    ensures Delivered(events, from) <= ReadFrom(events, from)
    ensures Clean(events) ==> Delivered(events, from) == ReadFrom(events, from)
  {
    if events != [] && !Breaks(events[0]) {
      DeliversPrefix(events[1..], from);
    }
  }

  /** All bytes that turns of one side brought. */
  function Brought(events: seq<Event>, from: Side): seq<Byte> {
    if events == [] then []
    else (if events[0].from == from then events[0].data else []) + Brought(events[1..], from)
  }

  /** Every turn brought bytes and wrote all of them. */
  predicate AllGood(events: seq<Event>) {
    forall i :: 0 <= i < |events| ==> events[i].data != [] && events[i].write == All
  }

  /** Good turns come out whole, and the loop goes on after them. */
  lemma {:induction false} GoodTurnsFirst(good: seq<Event>, rest: seq<Event>, from: Side)
    requires AllGood(good)
    ensures Delivered(good + rest, from) == Brought(good, from) + Delivered(rest, from)
  {
    if good == [] {
      assert good + rest == rest;
    } else {
      GoodTurnsFirst(good[1..], rest, from);
      assert (good + rest)[1..] == good[1..] + rest;
    }
  }

  /** As long as bytes come and writes succeed, each side gets everything the other brought. */
  lemma GoodTurnsDeliverAll(events: seq<Event>, from: Side)
    requires AllGood(events)
    ensures Delivered(events, from) == Brought(events, from)
  {
    GoodTurnsFirst(events, [], from);
    assert events + [] == events;
  }

  /** What a turn gets out that ends the loop: nothing, all of it, or a first part. */
  function LastPart(bad: Event, from: Side): seq<Byte> {
    if bad.from != from || bad.data == [] then []
    else
      match bad.write
      case All => bad.data
      case Partial(n) => if n < |bad.data| then bad.data[..n] else bad.data
  }

  /**
    The first turn without bytes, or whose write fails, ends the loop: it still adds what its
    write got out, and nothing after it counts.
   */
  lemma FirstBadTurnEnds(good: seq<Event>, bad: Event, rest: seq<Event>, from: Side)
    requires AllGood(good) && (bad.data == [] || bad.write != All)
    ensures Delivered(good + ([bad] + rest), from) == Brought(good, from) + LastPart(bad, from)
  {
    GoodTurnsFirst(good, [bad] + rest, from);
    assert ([bad] + rest)[0] == bad;
  }

  /** A whole client: the first packet goes first, and only then the loop runs. */
  method RunClient(first: seq<Byte>, dialled: bool, sent: Written, events: seq<Event>)
    returns (toBackend: seq<Byte>, toClient: seq<Byte>)
    ensures toBackend <= first + ReadFrom(events, Client) && toClient <= ReadFrom(events, Backend)
    ensures first != [] && dialled && sent.All? && Clean(events) ==>
              toBackend == first + ReadFrom(events, Client) && toClient == ReadFrom(events, Backend)
    ensures first != [] && dialled && sent.All? ==>
              toBackend == first + Delivered(events, Client) && toClient == Delivered(events, Backend)
    ensures first != [] && dialled && sent.All? && AllGood(events) ==>
              toBackend == first + Brought(events, Client) && toClient == Brought(events, Backend)
    ensures first != [] && dialled && sent.Partial? ==> toBackend == SentPart(first, sent) && toClient == []
    ensures first == [] || !dialled ==> toBackend == [] && toClient == []
  {
    if first == [] || !dialled {
      return [], [];
    }
    if sent.Partial? {
      return SentPart(first, sent), [];
    }
    toBackend, toClient := ForwardSerialised(events);
    DeliversPrefix(events, Client);
    DeliversPrefix(events, Backend);
    if AllGood(events) {
      GoodTurnsDeliverAll(events, Client);
      GoodTurnsDeliverAll(events, Backend);
    }
    toBackend := first + toBackend;
  }
}
