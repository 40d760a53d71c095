/**
  The session as it runs: the loop over client lines, on a connection object whose state,
  domain and backend the handlers update in place.
 */
module SmtpServer {
  import opened Bytes
  import opened Wrappers
  import opened Smtp

  class Connection {
    var data: bool
    var domain: Option<string>
    var backend: Option<nat>
    var backends: seq<Backend>
    var replies: seq<Answer>
    var open: bool

    /** A new connection, after the greeting has been sent. */
    constructor ()
      ensures View() == Fresh
    {
      data, domain, backend := false, None, None;
      backends, replies, open := [], [Greeting], true;
    }

    ghost function View(): Session
      reads this
    {
      Session(data, domain, backend, backends, replies, open)
    }

    method Answer(a: Answer, client: bool)
      modifies this`replies
      ensures View() == Answered(old(View()), a, client)
    {
      if client {
        replies := replies + [a];
      }
    }

    method Write(line: seq<Byte>, w: Written)
      requires Linked(View()) && backend.Some?
      modifies this`backends
      ensures View() == WriteBackend(old(View()), line, w)
    {
      var b := backends[backend.value];
      backends := backends[backend.value := b.(wire := b.wire + SentPart(line, w))];
    }

    method ForwardCommand(line: seq<Byte>, io: Io) returns (ok: bool)
      requires Linked(View())
      modifies this
      ensures Outcome(View(), ok) == Smtp.ForwardCommand(old(View()), ReadInput(line), io)
    {
      if backend.None? {
        return false;
      }
      var isDataCommand := IsDataOnlyLine(line);
      Write(line, io.write);
      if io.write.Partial? || io.reply.None? || io.reply.value == [] || !io.client {
        return false;
      }
      replies := replies + [Block(io.reply.value)];
      if isDataCommand && StartsWith(io.reply.value, DATA_READY_CODE) {
        data := true;
      }
      return true;
    }

    method ForwardData(line: seq<Byte>, io: Io) returns (ok: bool)
      requires Linked(View())
      modifies this
      ensures Outcome(View(), ok) == Smtp.ForwardData(old(View()), ReadInput(line), io)
    {
      if backend.None? {
        return false;
      }
      Write(line, io.write);
      if io.write.Partial? {
        return false;
      }
      var trimmed := TrimAscii(line);
      if trimmed == TERMINATOR {
        if io.reply.None? {
          return false;
        }
        data := false;
        if io.reply.value != [] {
          if !io.client {
            return false;
          }
          replies := replies + [Block(io.reply.value)];
        }
      }
      return true;
    }

    method HandleHelo(line: seq<Byte>, io: Io) returns (ok: bool)
      requires Linked(View())
      modifies this
      ensures Outcome(View(), ok) == Smtp.HandleHelo(old(View()), ReadInput(line), io)
    {
      var name := ParseHeloDomain(line);
      if name.None? {
        Answer(Syntax501, io.client);
        return io.client;
      }
      domain := name;
      var endpoint := io.route(name.value);
      if endpoint.None? || !Dialled(io.banner) {
        return false;
      }
      backend := Some(|backends|);
      backends := backends + [Backend(endpoint.value, name.value, [])];
      ok := ForwardCommand(line, io);
    }

    method Conclude(ok: bool, io: Io)
      modifies this
      ensures View() == Smtp.Conclude(Outcome(old(View()), ok), io)
    {
      if !ok {
        Answer(Unavailable421, io.client);
        open := false;
      }
    }

    method HandleLine(line: seq<Byte>, io: Io)
      requires Linked(View()) && open
      modifies this
      ensures View() == Smtp.HandleLine(old(View()), ReadInput(line), io)
    {
      if |line| > PACKAGE_MAX_LENGTH {
        Answer(Unavailable421, io.client);
        open := false;
        return;
      }
      if data {
        var ok := ForwardData(line, io);
        Conclude(ok, io);
        return;
      }
      var verb := Classify(line);
      match verb {
        case Hello =>
          var ok := HandleHelo(line, io);
          Conclude(ok, io);
        case Unknown =>
          Answer(Unknown500, io.client);
          open := io.client;
        case Relayed =>
          var ok := ForwardCommand(line, io);
          Conclude(ok, io);
        case Quit =>
          var ok := ForwardCommand(line, io);
          Conclude(ok, io);
          open := false;
      }
    }
  }

  function Scripted(lines: seq<seq<Byte>>, ios: seq<Io>): seq<Turn>
    requires |lines| == |ios|
  {
    seq(|lines|, i requires 0 <= i < |lines| => Turn(ReadInput(lines[i]), ios[i]))
  }

  /** The client loop: lines are handled one by one until the client or the proxy ends the session. */
  method HandleClient(lines: seq<seq<Byte>>, ios: seq<Io>) returns (connection: Connection)
    requires |lines| == |ios|
    ensures fresh(connection)
    ensures connection.View() == Run(Fresh, Scripted(lines, ios))
  {
    connection := new Connection();
    var i := 0;
    ghost var script := Scripted(lines, ios);
    ghost var goal := Run(Fresh, script);
    assert script[0..] == script;
    while i < |lines| && connection.open
      invariant 0 <= i <= |lines| && fresh(connection) && Linked(connection.View())
      invariant goal == Run(connection.View(), script[i..])
    {
      assert script[i..][1..] == script[i + 1..];
      connection.HandleLine(lines[i], ios[i]);
      i := i + 1;
    }
  }
}
