# Protocol proxy: a Dafny model

The proxy sits between clients and backends for TCP, HTTP and SMTP, in a PHP (Swoole) and a
Rust implementation that share a BPF program. This project models its stateful core and proves
what holds over every input, run and interleaving. `dafny verify dfyconfig.toml` checks it.

- **TCP relay** (`Relay`, `RelayDelivery`, `SerialForward`). The PHP handler's two coroutines
  share two sockets and a one-slot channel. `Relay` is a state machine over their atomic steps and those of the
  peers; it has the safety invariant (byte order, teardown) and liveness proofs by
  lexicographic measures under weak fairness: the handler finishes, and bytes arrive.
  `SerialForward` is the Rust select loop.
- **HTTP backend pool** (`PoolSystem`, `PoolRecycle`, `PoolAlone`, `BackendPool`). Requests are tasks
  that walk through pool lookup, permit, pop, dial, exchange and drop, with time-outs, failures and
  cancellation between any two steps. `BackendPool` has the pool, client and guard as objects,
  and `PoolAlone` ties their operations to runs of the concurrent system.
- **Raw HTTP reader** (`RawHttp`, `RawHttpReply`, `RawHttpCases`). The incremental search for the end of the
  head, the header parser and the `Content-Length` loop, against a schedule of read sizes.
- **SMTP session** (`Smtp`, `SmtpLines`, `SmtpDialogue`, `SmtpOutcome`, `SmtpEnd`,
  `SmtpLockstep`, `SmtpPaddedDot`, `SmtpServer`).
  Lines and I/O outcomes determine the session. It is compared with an observer that sees only the
  client's dialogue, and with a backend that reads bytes by sections 4.1.1.4 and 4.5.2 of
  RFC 5321.
- **Sockmap** (`TupleKey`, `PairTable`, `StaleKeys`, `SockmapLoader`). The three encoders of the
  socket key, the pair table with rollback, the adapters' tables, and the redirect in the kernel.
- **Routing** (`Address`, `Endpoint`, `EndpointCases`, `Routing`, `RoutingAnswers`,
  `RoutingSwitch`, `RoutingAlone`, `RoutingAdapter`, `Dns`). Blocked ranges, endpoint text, the TTL cache under concurrent
  routes, switching validation off and on, and the PHP name cache under concurrent lookups.
- **Hostname check** (`Hostname`).

`Bytes`, `Text`, `Utf8` and `Wrappers` hold what the Rust and PHP standard libraries provide.

## What comes from outside

- Socket reads and writes return outcomes the model does not choose: how many bytes, whether
  they fail, in which order the peers act. Closing a socket makes a pending receive on it fail;
  a send completes or fails. In `Relay` the first receive may time out and the later ones do not.
- Clocks are explicit times. DNS answers, resolver answers and the text form of IPv6 addresses
  are parameters.
- The verdict program runs on a socket if and only if the socket is stored in the map; a lookup
  that fails drops the segment.
- hyper's `is_ready` may answer anything, except yes while an exchange is in flight. A backend
  answers the requests on one connection in order.
- In `SmtpLockstep` each backend read yields one whole reply, and the backend says 354 only to DATA.
- In `PairTable` a new socket has a key that no open socket has (the key leaves out the local
  address), a descriptor is not reused while an adapter still lists it, and a connection is
  activated once. The tables of the adapters of all ports are kept as one.

## Where the code differs from what is expected of it

The model follows the code in each case.

- `bidirectional_copy` calls the serialised loop a rare fallback
  (rust/crates/utopia-proxy/src/server/tcp/server.rs:317-325), but `get_connection` keeps a
  reference in the adapter's table (rust/crates/utopia-proxy/src/adapter/tcp.rs:183), so the
  fallback is what runs.
- The raw forwarder is documented for `Content-Length` replies. Bytes beyond the declared length
  that arrive with the head stay in the body (`RawHttpReply.TrailingByteIsDelivered`);
  `RawHttp.ChunkingIndependence` gives the exact condition under which this cannot happen.
- The SMTP terminator is described as a lone dot, but the line is trimmed before it is compared.
  Lockstep still holds at every loop head. A padded dot ends the session with 421 instead;
  `SmtpLockstep.MessageSurvives` gives the exact condition.
- The comment on `is_valid_hostname` promises label rules for every name. A name without a dot
  is not checked as a label; `Hostname.LabelRulesHold` gives the exact condition.
- `set_skip_validation` does not clear the cache, so a blocked endpoint stored while validation
  was off is served after it is on again (`RoutingSwitch.BlockedIsServed`).
  `RoutingSwitch.SafeExactly` gives the exact condition on the state.
- The sockmap key is meant to tell sockets apart, but an entry outlives the client's stream until
  `close_connection` runs, and a client that comes back in between from the same address and port
  has its predecessor's key. It is safe until it is activated (`StaleKeys.ReturnIsNotRedirected`);
  then the predecessor's close takes its key away (`StaleKeys.KeyIsLost`).
  `StaleKeys.InOrderExactly` gives the exact condition.
- Clearing the PHP name cache does not stop lookups that are under way, whose answers are stored
  and served afterwards (`Dns.LateAnswerIsServed`); `Dns.ClearExactly` gives the exact condition.
- `parse_endpoint` splits at the first colon, so a validated IPv6 endpoint is not dialled as it was
  checked; `Endpoint.DialsCheckedAddress` states this as an equivalence, and
  `Endpoint.ValidatedV6IsNotDialled` shows that such endpoints pass validation.
- The insert rollback deletes the first key even when it was in the map before;
  `PairTable.RollbackIsExact` gives the exact condition, which only an activation with such a key meets.

## Model

| member | source | states |
|---|---|---|
| `Relay.NextKeepsInv` | src/Server/TCP/Swoole/Coroutine.php:207-277 | Every atomic step of either coroutine or of a peer keeps the invariant: both directions are exact copies up to what is in hand, and closes, channel and adapter entry follow from where the two coroutines stand |
| `Relay.BehaviourKeepsInv` | src/Server/TCP/Swoole/Coroutine.php:181-277 | The invariant holds at every point of every infinite interleaving |
| `Relay.ByteOrder` | src/Server/TCP/Swoole/Coroutine.php:207-270 | At every point each side has received a prefix of the other side's stream, first packet first, and all of it once that direction stopped on an orderly end |
| `Relay.Teardown` | src/Server/TCP/Swoole/Coroutine.php:209-277 | When the handler has returned, the client socket is closed and the adapter entry gone; after a successful dial the backend socket is closed too; after a failed one nothing was exchanged and no relay coroutine exists |
| `Relay.PushNeverBlocks` | src/Server/TCP/Swoole/Coroutine.php:215-275 | The one-slot channel is pushed at most once, so the push always finds room |
| `Relay.HelpfulCanStep` | src/Server/TCP/Swoole/Coroutine.php:235-275 | No deadlock: once one direction is over and until both coroutines have finished, the coroutine whose turn helps is able to step |
| `Relay.MainDescends` | src/Server/TCP/Swoole/Coroutine.php:207-277 | A helpful step of the main coroutine lowers the lexicographic measure |
| `Relay.RelayDescends` | src/Server/TCP/Swoole/Coroutine.php:235-250 | A helpful step of the relay coroutine lowers the measure |
| `Relay.EveryStepKeepsProgress` | src/Server/TCP/Swoole/Coroutine.php:235-277 | No step of anyone raises the measure, takes the helpful step away or undoes the end of a direction |
| `Relay.FairStepDown` | src/Server/TCP/Swoole/Coroutine.php:235-277 | Under weak fairness an unfinished ending state is followed by one with a smaller measure |
| `Relay.HandlerFinishes` | src/Server/TCP/Swoole/Coroutine.php:235-277 | Once either direction is over, every weakly fair behaviour reaches a state where both coroutines have finished, whatever the peers still send |
| `RelayDelivery.EveryByteArrives` | src/Server/TCP/Swoole/Coroutine.php:207-270 | In every fair behaviour, everything a side has sent by some moment reaches the other side, complete and in order, or the loop of that direction has been left |
| `RelayDelivery.WholeStreamArrives` | src/Server/TCP/Swoole/Coroutine.php:207-270 | In every fair behaviour in which the dial and the sends of a direction succeed and its reads fail only on an orderly end, a side that ends has its whole stream delivered |
| `RelayDelivery.WorkerCanStep` | src/Server/TCP/Swoole/Coroutine.php:235-270 | As long as bytes are owed, the coroutine that copies them is able to step |
| `RelayDelivery.EveryStepCounts` | src/Server/TCP/Swoole/Coroutine.php:207-270 | Each step of that coroutine brings the delivery nearer, and nobody else puts it off |
| `SerialForward.ForwardSerialised` | rust/crates/utopia-proxy/src/server/tcp/server.rs:333-369 | The select loop delivers, for every order of reads and every write failure, exactly the bytes the specification gives for each direction |
| `SerialForward.DeliversPrefix` | rust/crates/utopia-proxy/src/server/tcp/server.rs:333-369 | Each side gets a prefix of what the other sent up to the turn that stops the loop, and all of it when no write failed |
| `SerialForward.GoodTurnsDeliverAll` | rust/crates/utopia-proxy/src/server/tcp/server.rs:338-367 | As long as bytes come and writes succeed, each side gets everything the other brought, in order |
| `SerialForward.FirstBadTurnEnds` | rust/crates/utopia-proxy/src/server/tcp/server.rs:338-367 | The first turn without bytes or with a failed write adds what its write got out, and ends the loop |
| `SerialForward.RunClient` | rust/crates/utopia-proxy/src/server/tcp/server.rs:222-291 | The first packet reaches the backend before anything else; an empty first read or a failed dial sends nothing; a failed first write stops everything |
| `PoolSystem.CountUpdate` | rust/crates/utopia-proxy/src/server/http/pool.rs:78-152 | Moving one task changes the number of permit holders, and of client slots, by exactly that task's contribution |
| `PoolSystem.ClientsWithinPermits` | rust/crates/utopia-proxy/src/server/http/pool.rs:78-108 | Tasks past the pop are no more than permit holders, and strictly fewer while some holder has not popped yet |
| `PoolSystem.KeepsRegistry` | rust/crates/utopia-proxy/src/server/http/pool.rs:168-178 | Every step keeps the endpoint-to-pool registry and the tasks' view of it consistent, racing insertions included |
| `PoolSystem.KeepsPermits` | rust/crates/utopia-proxy/src/server/http/pool.rs:78-152 | Every step, time-out and cancellation keeps free plus held permits equal to the size |
| `PoolSystem.KeepsBound` | rust/crates/utopia-proxy/src/server/http/pool.rs:78-114 | Every step keeps idle clients plus slots in use within the size |
| `PoolSystem.KeepsIdle` | rust/crates/utopia-proxy/src/server/http/pool.rs:88-114 | Every step keeps idle clients healthy, at an exchange boundary, of their own endpoint, dialled under a permit, and in the deque once |
| `PoolSystem.KeepsHolding` | rust/crates/utopia-proxy/src/server/http/handler.rs:111-223 | Every step keeps each held connection in one hand and its outstanding requests equal to the stage of the exchange |
| `PoolSystem.NextKeepsInv` | rust/crates/utopia-proxy/src/server/http/pool.rs:78-178 | All of these are kept together by every step of every task |
| `PoolSystem.RunKeepsInv` | rust/crates/utopia-proxy/src/server/http/pool.rs:78-178 | They hold after every possible run, and the pool size never changes |
| `PoolSystem.PoolBound` | rust/crates/utopia-proxy/src/server/http/pool.rs:78-152 | In every reachable state: free plus held permits equal the size, idle clients plus clients past the pop stay within it, and no overflow client is idle |
| `PoolSystem.NoCrossTalk` | rust/crates/utopia-proxy/src/server/http/handler.rs:111-223 | Over every run each response reaches the task whose request it answers, over a connection to the endpoint that task asked for; idle connections have nothing outstanding |
| `PoolSystem.SoleCustody` | rust/crates/utopia-proxy/src/server/http/pool.rs:88-152 | No connection is held twice or held while idle |
| `PoolSystem.OnePoolPerEndpoint` | rust/crates/utopia-proxy/src/server/http/pool.rs:168-178 | Two tasks share a pool if and only if they asked for the same endpoint, however they raced |
| `PoolSystem.PermitsComeBack` | rust/crates/utopia-proxy/src/server/http/pool.rs:78-152 | When every task is gone all permits are free again |
| `PoolRecycle.DropRecycles` | rust/crates/utopia-proxy/src/server/http/pool.rs:110-114 | A dropped connection becomes the last of the deque exactly when it was held under a permit, is healthy and ready; otherwise the deque is unchanged |
| `PoolRecycle.PopTakesFirst` | rust/crates/utopia-proxy/src/server/http/pool.rs:89-98 | A pop takes the first of the deque, to be held if it is usable and dropped otherwise |
| `PoolRecycle.FirstInFirstOut` | rust/crates/utopia-proxy/src/server/http/pool.rs:88-114 | Over every run, what was idle followed by all that was recycled is all that was handed out, in that order, followed by what is idle |
| `PoolRecycle.NextTaskReuses` | rust/crates/utopia-proxy/src/server/http/pool.rs:78-152 | A connection recycled into an empty deque is held by the next task that acquires |
| `PoolRecycle.BrokenIsNeverReused` | rust/crates/utopia-proxy/src/server/http/handler.rs:150-223 | A connection on which an exchange failed is never idle again and never held by another task, over every run |
| `PoolRecycle.ExchangeIsARun` | rust/crates/utopia-proxy/src/server/http/handler.rs:111-223 | A held connection carries an exchange to its end: the response reaches the task and the connection is clean again |
| `BackendPool.Pool.Acquire` | rust/crates/utopia-proxy/src/server/http/pool.rs:78-108 | The three outcomes on the real deque and semaphore: reuse of the front client, a dial with or without a permit, and a failed dial that gives the permit back |
| `BackendPool.Pool.Release` | rust/crates/utopia-proxy/src/server/http/pool.rs:110-114 | A usable client is appended to the deque, a broken one is dropped |
| `BackendPool.PooledClient.Invalidate` | rust/crates/utopia-proxy/src/server/http/pool.rs:138-142 | The held client is unhealthy afterwards, so it cannot be recycled |
| `BackendPool.PooledClient.Drop` | rust/crates/utopia-proxy/src/server/http/pool.rs:145-152 | A guard with a permit appends its usable client to the deque and frees the permit; one without leaves the pool untouched |
| `PoolAlone.AcquireIsARun` | rust/crates/utopia-proxy/src/server/http/pool.rs:78-108 | An acquire that nothing interrupts is a run of the concurrent system, with the same effect on the pool |
| `PoolAlone.DropIsARun` | rust/crates/utopia-proxy/src/server/http/pool.rs:145-152 | So is the drop of a guard, at any stage of the exchange |
| `RawHttp.FindIsFirst` | rust/crates/utopia-proxy/src/server/http/handler.rs:456-460 | The search returns the first occurrence, and nothing only when there is none |
| `RawHttp.FirstMatchStable` | rust/crates/utopia-proxy/src/server/http/handler.rs:280-297 | In every prefix of the stream the search finds the same first match as in the whole, as soon as it is complete, and nothing before |
| `RawHttp.HeadersMeaning` | rust/crates/utopia-proxy/src/server/http/handler.rs:316-339 | Fields are passed on in order unless their name spells, in any letter case, one of the four framing names; the last `Content-Length` counts even when unreadable, and one chunked coding is enough |
| `RawHttp.LowerIsSameLetters` | rust/crates/utopia-proxy/src/server/http/handler.rs:325-327 | Lowering a name gives a lower-case word exactly for the spellings of that word |
| `RawHttpCases.FieldSplits` | rust/crates/utopia-proxy/src/server/http/handler.rs:320-324 | A header line is split at its first colon, and blanks around name and value are cut off |
| `RawHttpCases.NoColonNoField` | rust/crates/utopia-proxy/src/server/http/handler.rs:321-323 | A line without a colon changes nothing |
| `RawHttpCases.StatusIsSecondWord` | rust/crates/utopia-proxy/src/server/http/handler.rs:307-314 | The status is the second word of its line when that is a number from 100 to 999, else 200 |
| `RawHttpCases.ShortStatusLine` | rust/crates/utopia-proxy/src/server/http/handler.rs:450-454 | With fewer than two words it is 200 |
| `RawHttp.CollectHead` | rust/crates/utopia-proxy/src/server/http/handler.rs:279-297 | The growing-buffer loop stops at the specified position with exactly the bytes read so far |
| `RawHttp.CollectBody` | rust/crates/utopia-proxy/src/server/http/handler.rs:348-363 | The body loop, on the bytes that came with the head, gives the specified reply |
| `RawHttp.ForwardRaw` | rust/crates/utopia-proxy/src/server/http/handler.rs:279-367 | Header loop, parsing and body loop together compute the specified reply, error cases included |
| `RawHttp.HeadIsFound` | rust/crates/utopia-proxy/src/server/http/handler.rs:280-297 | Without a failing read the header loop ends right after the first CR LF CR LF, having read less than one buffer beyond it |
| `RawHttp.BodyIsExact` | rust/crates/utopia-proxy/src/server/http/handler.rs:348-363 | If the bytes that came with the head do not exceed the declared length, the body is exactly that long or the reply is an error |
| `RawHttp.ChunkingIndependence` | rust/crates/utopia-proxy/src/server/http/handler.rs:280-363 | For every stream and head parser: all ways of splitting the stream into reads give the one-shot reply if and only if nothing follows the declared body, or the body is at least 8191 bytes long, or the head is rejected anyway |
| `RawHttp.OpenEndedReply` | rust/crates/utopia-proxy/src/server/http/handler.rs:341-350 | Otherwise some split delivers a different body, since leftover bytes are not cut off |
| `RawHttp.FramedReply` | rust/crates/utopia-proxy/src/server/http/handler.rs:280-363 | With exactly `Content-Length` bytes after the head the reply is status, headers and those bytes, for every split |
| `RawHttpCases.FailingReads` | rust/crates/utopia-proxy/src/server/http/handler.rs:286-296 | Over any connection a self-delimited reply is the one-shot reply or a read failure, never something in between, and no failure unless one of the first reads fails |
| `RawHttpReply.SplitJoined` | rust/crates/utopia-proxy/src/server/http/handler.rs:303 | Splitting joined header lines gives the lines back, whatever is in them but CR LF |
| `RawHttpReply.HeadEnds` | rust/crates/utopia-proxy/src/server/http/handler.rs:280-284 | The end of the head is found where the backend wrote it |
| `RawHttpReply.FieldIsRead` | rust/crates/utopia-proxy/src/server/http/handler.rs:320-324 | A field written as `name: value` is read back as that name and value |
| `RawHttpReply.StatusIsRead` | rust/crates/utopia-proxy/src/server/http/handler.rs:307-314 | The code after the version is read from the status line, with or without a reason; the reply has that code if it is one of 100 to 999 and no good end is assumed, else 200 |
| `RawHttpReply.RenderedReply` | rust/crates/utopia-proxy/src/server/http/handler.rs:279-367 | Round trip: a reply with a declared length arrives with its status, its forwarded fields in order and its exact body, for every split into reads |
| `RawHttpReply.SelfDescribedReply` | rust/crates/utopia-proxy/src/server/http/handler.rs:279-367 | The usual case: any fields followed by the reply's own `Content-Length`, in any letter case |
| `RawHttpReply.TrailingByteIsDelivered` | rust/crates/utopia-proxy/src/server/http/handler.rs:341-363 | With one more byte behind a body of less than 8191 bytes, some split delivers that byte too |
| `Bytes.TrimAscii` | rust/crates/utopia-proxy/src/server/smtp/server.rs:182-192 | The two-index loop computes the trimmed slice |
| `Bytes.TrimSplits` | rust/crates/utopia-proxy/src/server/smtp/server.rs:182-192 | What is trimmed off are two runs of whitespace, and none is left at the ends |
| `SmtpLines.TrimFinds` | rust/crates/utopia-proxy/src/server/smtp/server.rs:182-192 | Conversely the part between two runs of whitespace is what trimming returns |
| `SmtpLines.VerbIsFirstFour` | rust/crates/utopia-proxy/src/server/smtp/server.rs:123-159 | A line is classified by the verb its first four trimmed bytes spell in any letter case; the UTF-8 check never changes the answer |
| `SmtpLines.DataLineMeans` | rust/crates/utopia-proxy/src/server/smtp/server.rs:375-378 | A line announces a message exactly when DATA in any letter case is all there is on it |
| `SmtpOutcome.OpenExactly` | rust/crates/utopia-proxy/src/server/smtp/server.rs:110-161 | A session goes on after a line if and only if the line is not too long and, told by verb, backend, banner, write, read and client, succeeds |
| `SmtpOutcome.RefusedExactly` | rust/crates/utopia-proxy/src/server/smtp/server.rs:156-159 | Outside a body a line is answered 500 exactly if it spells no verb and 501 exactly if it is a greeting without a second word; nothing is forwarded and the session goes on |
| `SmtpOutcome.LineSucceeds` | rust/crates/utopia-proxy/src/server/smtp/server.rs:110-161 | After a line that succeeds the client has been sent the refusal or the backend's reply word for word, and the wires and the state are those the observer expects |
| `SmtpOutcome.DialledMeans` | rust/crates/utopia-proxy/src/server/smtp/server.rs:258-271 | A backend is accepted exactly when its banner, trimmed, starts with 220 |
| `SmtpLines.GreetingIsRead` | rust/crates/utopia-proxy/src/server/smtp/server.rs:195-207 | For every name, blanks and letter case a greeting line is read as a greeting for exactly that name, and as neither DATA nor terminator |
| `SmtpLines.DomainIsSecondWord` | rust/crates/utopia-proxy/src/server/smtp/server.rs:195-207 | A domain is found if and only if the trimmed line is text with a second word, and it is that word |
| `Utf8.TextExactly` | rust/crates/utopia-proxy/src/server/smtp/server.rs:175-178 | Bytes are text exactly if they are the UTF-8 encoding of that text |
| `SmtpDialogue.OpenStep` | rust/crates/utopia-proxy/src/server/smtp/server.rs:110-161 | A line that leaves the session open changes backend bytes and state exactly as an observer of the dialogue expects, with the replies the grammar allows |
| `SmtpDialogue.OpenRun` | rust/crates/utopia-proxy/src/server/smtp/server.rs:110-161 | The same over every script of lines and I/O outcomes |
| `SmtpDialogue.Transparency` | rust/crates/utopia-proxy/src/server/smtp/server.rs:110-161 | While a session is open, each backend connection has received, in order and unaltered, the lines since the greeting that opened it, minus exactly those answered 500 or 501; Data state is what the dialogue implies |
| `SmtpDialogue.ReplyGrammar` | rust/crates/utopia-proxy/src/server/smtp/server.rs:104-161 | While a session is open, the client has seen the greeting, one reply per command line, none per interior body line, at most one per terminator |
| `SmtpEnd.EndedSession` | rust/crates/utopia-proxy/src/server/smtp/server.rs:104-161 | Every ended session is an open one and its last line: until then the wires and replies are those of the observer; the last line gets exactly one reply unless the client is gone, 421 or the answer to QUIT; the wires are cut short at most within it, and complete after an answered QUIT |
| `SmtpEnd.LastLine` | rust/crates/utopia-proxy/src/server/smtp/server.rs:110-161 | Exactly one line ends a session, and nothing after it is read |
| `SmtpEnd.ClosingAnswers` | rust/crates/utopia-proxy/src/server/smtp/server.rs:117-161 | What the client is sent for the line that ends the session |
| `SmtpEnd.WorkingQuit` | rust/crates/utopia-proxy/src/server/smtp/server.rs:144-154 | With a backend, QUIT is answered if and only if the write, the read and the client's connection work |
| `SmtpDialogue.UnavailableIsLast` | rust/crates/utopia-proxy/src/server/smtp/server.rs:117-161 | In every session 421 is sent at most once, and then nothing more |
| `SmtpDialogue.ClosingWires` | rust/crates/utopia-proxy/src/server/smtp/server.rs:117-161 | When a line ends the session, earlier backends keep their bytes and the last has at most a prefix of that line more |
| `SmtpDialogue.BackendsAreRouted` | rust/crates/utopia-proxy/src/server/smtp/server.rs:211-237 | Every backend ever dialled was dialled where the router sent the domain of the line that opened it |
| `SmtpDialogue.RoutedSession` | rust/crates/utopia-proxy/src/server/smtp/server.rs:211-237 | At every loop head a domain is set exactly when a backend is, and that backend came from that domain's route |
| `SmtpLockstep.LineToBackend` | rust/crates/utopia-proxy/src/server/smtp/server.rs:331-372 | A backend reading bytes by RFC 5321 ends mail input on a client line exactly when the line is a dot alone after CR LF |
| `SmtpLockstep.OnlyTerminatorEnds` | rust/crates/utopia-proxy/src/server/smtp/server.rs:331-372 | Nothing else, complete or not, ends mail input |
| `SmtpLockstep.Lockstep` | rust/crates/utopia-proxy/src/server/smtp/server.rs:110-161 | With a conforming backend the proxy is in Data state at a loop head exactly when the current backend reads mail input, for every session |
| `SmtpLockstep.BodyLineSurvives` | rust/crates/utopia-proxy/src/server/smtp/server.rs:355-369 | Over working I/O a body line ends the session, with 421, if and only if it trims to a dot without being the terminator |
| `SmtpLockstep.MessageSurvives` | rust/crates/utopia-proxy/src/server/smtp/server.rs:355-369 | A message, followed by a backend that reads it byte by byte, passes if and only if none of its lines is mistaken for the terminator |
| `SmtpLockstep.FalseTerminators` | rust/crates/utopia-proxy/src/server/smtp/server.rs:355-356 | Between two lines, those are exactly the lines that trim to a dot and are not a dot alone after CR LF |
| `SmtpLockstep.BackendStandsAt` | rust/crates/utopia-proxy/src/server/smtp/server.rs:331-372 | After a complete line the backend is at a line start exactly if the line ends in CR LF, unless the line ended the message |
| `SmtpLockstep.PlainBodySurvives` | rust/crates/utopia-proxy/src/server/smtp/server.rs:355-369 | CR LF lines of which only the real terminator trims to a dot contain no such line |
| `SmtpLockstep.PaddedDotIsMistaken` | rust/crates/utopia-proxy/src/server/smtp/server.rs:355-356 | A dot after a space is mail text to the backend and the terminator to the proxy |
| `SmtpPaddedDot.MistakenLineEndsSession` | rust/crates/utopia-proxy/src/server/smtp/server.rs:96-161 | From a fresh session: a greeting, DATA, and any body line mistaken for the terminator end in 421 while the backend is still reading the message |
| `SmtpPaddedDot.PaddedDotEndsSession` | rust/crates/utopia-proxy/src/server/smtp/server.rs:355-369 | In particular a dot after a space, after every greeting line with a name |
| `SmtpServer.Connection.constructor` | rust/crates/utopia-proxy/src/server/smtp/connection.rs:26-33 | A new connection is in Command state without domain and backend |
| `SmtpServer.Connection.ForwardCommand` | rust/crates/utopia-proxy/src/server/smtp/server.rs:278-327 | The handler on the connection object: writes, reply, and the switch to Data on 354 to a lone DATA |
| `SmtpServer.Connection.ForwardData` | rust/crates/utopia-proxy/src/server/smtp/server.rs:331-372 | The body handler: verbatim write, and on the terminator the reply and the switch back |
| `SmtpServer.Connection.HandleHelo` | rust/crates/utopia-proxy/src/server/smtp/server.rs:211-274 | The greeting handler: 501 without a domain, otherwise route, dial, replace the backend and forward |
| `SmtpServer.Connection.HandleLine` | rust/crates/utopia-proxy/src/server/smtp/server.rs:117-160 | One turn of the client loop |
| `SmtpServer.HandleClient` | rust/crates/utopia-proxy/src/server/smtp/server.rs:96-162 | The client loop leaves the connection in the state of the specified run |
| `TupleKey.EncodersAgree` | rust/crates/utopia-proxy/src/sockmap/tuple.rs:20-35 | The Rust, PHP and BPF packings give the same key for every socket |
| `TupleKey.PhpAgrees` | src/Sockmap/Loader.php:319-345 | The PHP packing equals the Rust one |
| `TupleKey.BpfAgrees` | src/Sockmap/relay.bpf.c:38-48 | The packing of what the kernel exposes equals the Rust one |
| `TupleKey.UnpackPack` | rust/crates/utopia-proxy/src/sockmap/tuple.rs:20-35 | A decoder recovers local port, remote port and remote address |
| `TupleKey.PackUnpack` | rust/crates/utopia-proxy/src/sockmap/tuple.rs:20-35 | Every 64-bit value is the key of what it decodes to |
| `TupleKey.LayoutExample` | rust/crates/utopia-proxy/src/sockmap/tuple.rs:49-62 | The layout on one socket |
| `TupleKey.KeysAreInjective` | rust/crates/utopia-proxy/src/sockmap/tuple.rs:20-35 | Sockets with equal keys agree in all three |
| `TupleKey.SentinelIsSafe` | rust/crates/utopia-proxy/src/sockmap/linux.rs:158-170 | PHP's failure value 0 is returned exactly when Rust returns none, and otherwise the keys are equal |
| `PairTable.RollbackIsExact` | rust/crates/utopia-proxy/src/sockmap/linux.rs:85-101 | A refused insert leaves the tables as they were if and only if it did not reach the first update on a key already in the map |
| `PairTable.RollbackLosesEntry` | rust/crates/utopia-proxy/src/sockmap/linux.rs:96-102 | Otherwise exactly that entry is lost |
| `PairTable.LoadersAgree` | src/Sockmap/Loader.php:209-236 | The PHP and Rust loaders decide alike and leave the same tables for every two sockets |
| `PairTable.ActivateKeepsInv` | rust/crates/utopia-proxy/src/adapter/tcp.rs:189-214 | Activation keeps kernel map, loader record and adapter tables in agreement, whichever update fails, unless it writes a key still in the map |
| `PairTable.CloseConnKeepsInv` | rust/crates/utopia-proxy/src/adapter/tcp.rs:217-224 | So does closing a connection |
| `PairTable.NextKeepsInv` | rust/crates/utopia-proxy/src/adapter/tcp.rs:138-224 | So does every step of the system, under the same proviso |
| `PairTable.TablesAgree` | rust/crates/utopia-proxy/src/sockmap/linux.rs:70-131 | After every run in which no activation writes a key still in the map, the map holds exactly the recorded keys, active pairs are connections and are the recorded ones, and nothing is left after shutdown |
| `PairTable.RedirectIsolation` | src/Sockmap/relay.bpf.c:13-16 | After every such run a segment on an open socket goes exactly to its partner in an active pair and is never dropped, twice returns to the start, and no third socket reaches either |
| `StaleKeys.InOrderExactly` | rust/crates/utopia-proxy/src/sockmap/linux.rs:70-131 | Over every run, isolation and agreement of the tables hold throughout if and only if no activation writes a key still in the map |
| `StaleKeys.StaleIsLeftover` | rust/crates/utopia-proxy/src/adapter/tcp.rs:217-224 | The map has the key of a socket outside every active pair exactly when a client whose stream is closed and which is not forgotten yet had it |
| `StaleKeys.ReturnIsNotRedirected` | src/Sockmap/relay.bpf.c:13-16 | A client that comes back in between has its predecessor's key and is left to userspace all the same |
| `StaleKeys.AcceptedUpdateBreaksIsolation` | rust/crates/utopia-proxy/src/sockmap/linux.rs:90-105 | An accepted activation that writes a key still in the map puts the predecessor's backend out of the map while its pair is active |
| `StaleKeys.RefusedUpdateLosesKey` | rust/crates/utopia-proxy/src/sockmap/linux.rs:96-102 | A refused one that undoes such a first update takes a recorded key out of the map |
| `StaleKeys.KeyIsLost` | rust/crates/utopia-proxy/src/sockmap/linux.rs:108-117 | Once it is activated, closing the predecessor deletes its key while its pair stays recorded, and what it sends is dropped |
| `PairTable.NextKeepsSound` | rust/crates/utopia-proxy/src/adapter/tcp.rs:138-224 | Whatever arrives, every step keeps the adapter tables in order and every kernel entry owned by a recorded pair |
| `PairTable.NothingLeft` | rust/crates/utopia-proxy/src/adapter/tcp.rs:217-224 | After closing, in every run, no table mentions the client or its backend |
| `PairTable.ClosesAgree` | src/Adapter/TCP.php:317-334 | PHP's early returns change nothing: both adapters close alike in every reachable state |
| `SockmapLoader.Sockmap.InsertPair` | rust/crates/utopia-proxy/src/sockmap/linux.rs:70-106 | The two-step insert with rollback on the real maps |
| `SockmapLoader.Sockmap.RemovePair` | rust/crates/utopia-proxy/src/sockmap/linux.rs:108-117 | Both entries and the record of a pair go |
| `SockmapLoader.Sockmap.Close` | rust/crates/utopia-proxy/src/sockmap/linux.rs:124-131 | Removing pair by pair, in any order, removes exactly the recorded keys |
| `SockmapLoader.RemoveThenClose` | rust/crates/utopia-proxy/src/sockmap/linux.rs:108-131 | Removing one pair first does not change what is left in the end |
| `SockmapLoader.TcpAdapter.GetConnection` | rust/crates/utopia-proxy/src/adapter/tcp.rs:138-185 | A known client gets its connection back; a new one is recorded when the dial succeeds |
| `SockmapLoader.TcpAdapter.ActivateSockmap` | rust/crates/utopia-proxy/src/adapter/tcp.rs:189-214 | Activation on the real tables; the answer is yes exactly when the pair was inserted |
| `SockmapLoader.TcpAdapter.CloseConnection` | rust/crates/utopia-proxy/src/adapter/tcp.rs:217-224 | Closing on the real tables |
| `Address.RangesMatchOctets` | rust/crates/utopia-proxy/src/adapter/mod.rs:218-252 | For every IPv4 address the octet test equals membership in the numeric ranges |
| `Address.PhpIsBlocked` | src/Adapter.php:189-206 | The table scan answers as the octet test does |
| `Address.SegmentsMatchRanges` | rust/crates/utopia-proxy/src/adapter/mod.rs:254-279 | For every 128-bit address the segment test equals membership in ::1, fe80::/10, fc00::/7 and ::ffff:0:0/96 |
| `Address.ParsePrintV4` | rust/crates/utopia-proxy/src/adapter/mod.rs:172-195 | A printed IPv4 address parses to itself |
| `Address.PrintParseV4` | rust/crates/utopia-proxy/src/adapter/mod.rs:172-195 | Only the canonical text parses to an address |
| `Address.DottedQuad` | rust/crates/utopia-proxy/src/adapter/mod.rs:190-194 | The printed address is its four octets in order |
| `Address.QuadParts` | rust/crates/utopia-proxy/src/adapter/mod.rs:180-182 | Four octets with dots between them are the address with those octets |
| `Endpoint.Check` | rust/crates/utopia-proxy/src/adapter/mod.rs:155-195 | What passes is an address outside the blocked ranges with an optional port in 1..65535 |
| `EndpointCases.NameIsJudged` | rust/crates/utopia-proxy/src/adapter/mod.rs:179-195 | A name with a good port or none is unresolvable without a DNS answer, forbidden when the answer is blocked, and otherwise stands for exactly that address and port |
| `EndpointCases.LiteralIsJudged` | rust/crates/utopia-proxy/src/adapter/mod.rs:179-195 | A literal stands for itself whatever DNS says |
| `EndpointCases.BadPortIsRefused` | rust/crates/utopia-proxy/src/adapter/mod.rs:163-177 | Anything behind the colon that is not a number in 1..65535 is refused |
| `EndpointCases.TwoColonsAreRefused` | rust/crates/utopia-proxy/src/adapter/mod.rs:156-161 | So is a second colon |
| `EndpointCases.NameIsDialled` | rust/crates/utopia-proxy/src/adapter/mod.rs:155-207 | A name with an allowed IPv4 answer is dialled at that address, on its port or the default one |
| `EndpointCases.EndpointParts` | rust/crates/utopia-proxy/src/adapter/mod.rs:198-207 | For any text the part before the first colon is dialled, on the port behind it if that is a number, else on the default one |
| `Endpoint.ParseFormatted` | rust/crates/utopia-proxy/src/adapter/mod.rs:198-207 | `parse_endpoint` reads back exactly the address and port, or the default port |
| `Endpoint.CheckFormatted` | rust/crates/utopia-proxy/src/adapter/mod.rs:155-195 | The text of an IPv4 target passes exactly when the address is not blocked, and names that target |
| `Endpoint.RoundTrip` | rust/crates/utopia-proxy/src/adapter/mod.rs:155-207 | A validated IPv4 endpoint is dialled at exactly the checked address and port, and validating it again, with any DNS answers, changes nothing |
| `Endpoint.FormatIsInjective` | rust/crates/utopia-proxy/src/adapter/mod.rs:187-195 | Two IPv4 targets never share a text |
| `Endpoint.DialsCheckedAddress` | rust/crates/utopia-proxy/src/adapter/mod.rs:187-207 | The dialled host is the checked address if and only if that is IPv4 |
| `Endpoint.ValidatedV6IsNotDialled` | rust/crates/utopia-proxy/src/adapter/mod.rs:155-207 | A name that resolves to an allowed IPv6 address passes validation, and what is then dialled is not that address |
| `Routing.HitsAreFresh` | rust/crates/utopia-proxy/src/adapter/mod.rs:88-141 | Over every interleaving a hit returns an endpoint with which an uncached route of the same data completed less than one TTL before |
| `Routing.OnlyCompletionsStore` | rust/crates/utopia-proxy/src/adapter/mod.rs:100-141 | Only a completed route or an eviction changes the cache |
| `Routing.NextKeepsSafe` | rust/crates/utopia-proxy/src/adapter/mod.rs:87-142 | While validation is on, every step keeps cache and answers safe |
| `Routing.RoutesAreSafe` | rust/crates/utopia-proxy/src/adapter/mod.rs:87-195 | While validation stays on, everything `route` answers, fresh or cached, is the text of an allowed address with an optional port |
| `Routing.DialledIsSafe` | rust/crates/utopia-proxy/src/adapter/mod.rs:87-207 | Over the same runs, an IPv4 answer is dialled at the unblocked address that was checked, and its port |
| `RoutingSwitch.SafeExactly` | rust/crates/utopia-proxy/src/adapter/mod.rs:78-142 | With validation on, everything answered from here on is safe if and only if the cache and the routes under way hold nothing unsafe, whatever was answered before |
| `RoutingSwitch.SkippedEntryLingers` | rust/crates/utopia-proxy/src/adapter/mod.rs:78-142 | From a new router, whatever the resolver names while validation is off is served after it is switched on |
| `RoutingSwitch.BlockedIsServed` | rust/crates/utopia-proxy/src/adapter/mod.rs:78-142 | In particular every blocked IPv4 address, which is not a safe answer |
| `RoutingSwitch.EvictedIsSafeAgain` | rust/crates/utopia-proxy/src/adapter/mod.rs:78-142 | Once the entry is evicted the router is safe again, though it has answered with that endpoint |
| `Routing.CacheRefinesResolver` | rust/crates/utopia-proxy/src/adapter/mod.rs:87-142 | With an unchanging resolver every finished route, cached or not, has the uncached answer |
| `RoutingAnswers.AnswersAreValidated` | rust/crates/utopia-proxy/src/adapter/mod.rs:87-142 | Over the same runs, with validation on, a finished route was answered with a text exactly when validation of what the resolver names gives it |
| `RoutingAnswers.UncachedExactly` | rust/crates/utopia-proxy/src/adapter/mod.rs:104-124 | Without the cache the answer is the validated text of what the resolver names, or that text itself when validation is off |
| `RoutingAnswers.LookExactly` | rust/crates/utopia-proxy/src/adapter/mod.rs:88-102 | The cache answers exactly when its entry is younger than the TTL, with that entry |
| `RoutingAnswers.StoreExactly` | rust/crates/utopia-proxy/src/adapter/mod.rs:126-136 | A completed route replaces its own entry and no other, unless the TTL is zero |
| `RoutingAnswers.LiteralIsRouted` | rust/crates/utopia-proxy/src/adapter/mod.rs:87-195 | The text of an unblocked IPv4 target is routed to exactly that text |
| `RoutingAdapter.Adapter.Route` | rust/crates/utopia-proxy/src/adapter/mod.rs:87-142 | Hit, failure and completion on the real cache: a failure leaves it as it was, a completion stores exactly its answer |
| `RoutingAlone.RouteIsARun` | rust/crates/utopia-proxy/src/adapter/mod.rs:87-142 | A route that nothing interrupts is a run of the concurrent router with this outcome |
| `Dns.NextKeepsInv` | src/Dns.php:47-77 | Every step of concurrent lookups, `setTtl` and `clear` keeps entries and served answers traceable to lookups of the same name |
| `Dns.HoldsAddresses` | src/Dns.php:68-73 | Over every interleaving the cache holds only addresses, and only for names |
| `Dns.ServedIsRecent` | src/Dns.php:53-57 | Over every interleaving a served answer comes from a lookup of that name that read the clock less than its TTL before |
| `Dns.ClearForgets` | src/Dns.php:35-38 | After clearing, what is served arrived afterwards, from a lookup no older than the oldest then under way |
| `Dns.ClearExactly` | src/Dns.php:35-38 | After clearing, only lookups that begin afterwards are served from the cache if and only if none is under way |
| `Dns.LateAnswerIsServed` | src/Dns.php:59-73 | A lookup under way when the cache is cleared still stores its answer, which is then served |
| `Dns.EntryIsServed` | src/Dns.php:53-57 | An entry is served at every moment before it expires and at none after, unless it is cleared or replaced |
| `Dns.FinishExactly` | src/Dns.php:59-76 | A lookup stores exactly a new address, under its own name only, and returns the answer or the name |
| `Dns.StoreKeepsSound` | src/Dns.php:68-73 | Storing an answer keeps every entry an address, for a name, from a lookup of that name |
| `Dns.Cache.Start` | src/Dns.php:49-57 | Before the yield: a literal, or an answer that is still recent, or nothing |
| `Dns.Cache.Finish` | src/Dns.php:59-76 | After it: exactly a new address is stored, to expire one TTL after the clock was read |
| `Dns.Cache.Resolve` | src/Dns.php:47-77 | Both in one: the result is the uncached one or an address a lookup of that host returned less than its TTL ago; failures are never stored |
| `Hostname.LabelsAreName` | rust/crates/utopia-proxy/src/server/http/handler.rs:395-403 | Checking label by label equals a character-by-character rule of RFC 1123 and RFC 1035 |
| `Utf8.LengthInBytes` | rust/crates/utopia-proxy/src/server/http/handler.rs:382 | The length of a name is that of its encoding |
| `Hostname.QuadIsDottedName` | rust/crates/utopia-proxy/src/server/http/handler.rs:385-388 | The IPv4 branch never changes the answer |
| `Hostname.HostnameCharacterised` | rust/crates/utopia-proxy/src/server/http/handler.rs:373-403 | A name is accepted if and only if without its port it has 1 to 253 characters and is a dotted name or a bare run of letters, digits and hyphens |
| `Hostname.AcceptedStrings` | rust/crates/utopia-proxy/src/server/http/handler.rs:373-403 | The accepted strings are exactly such names, and such names followed by a colon and digits |
| `Hostname.PortDoesNotMatter` | rust/crates/utopia-proxy/src/server/http/handler.rs:377-381 | A port on a colon-free name never changes the answer |
| `Hostname.LabelRulesHold` | rust/crates/utopia-proxy/src/server/http/handler.rs:371-393 | The documented label rules hold for an accepted name if and only if it has a dot or is at most 63 long without a hyphen at its ends |
| `Hostname.BareHyphenIsAccepted` | rust/crates/utopia-proxy/src/server/http/handler.rs:389-393 | A lone hyphen is accepted though it is no valid label |

## Left out

- Socket options, binding, accept loops, TLS handshakes and the PostgreSQL STARTTLS answer: system and library calls.
- BPF object loading, FFI and `getsockname`/`getpeername`: only map operations and key arithmetic are modelled.
- What the kernel does on its own: dropping closed sockets from the map, and the bytes in flight when a pair is activated.
- Configuration, command line, examples, container files, benchmarks, the protocol enum and the port table: tables and plumbing.
- Event-driven PHP servers (`src/Server/TCP/Swoole.php`, `src/Server/SMTP/Swoole.php`): they rest on callback ordering that is not in the files.
- The `connections` counter and a custom `connectionHandler` of the PHP server, and `copy_bidirectional` in Rust, which the adapter's own reference keeps from running.
- Header rewriting, error pages and telemetry around `forward_request`; of the exchange only the pool and connection discipline is modelled.
- The raw forwarder's request side and its fallback for methods other than GET and HEAD; a reply to HEAD is read by the same body loop as modelled.
- The response builder's limits on the number and size of header fields, and its lower-casing of header names.
- IPv6 text parsing and printing, and PHP's different IPv6 test: only the Rust segment test is modelled.
- The time-to-live of the Rust DNS cache, which a library fixes when the cache is first used; the PHP cache carries the age bound.
- The protocol and metadata fields of a routing result: the protocol is a constant of the adapter, the metadata is not interpreted.
- PHP's routing table in `src/Adapter.php` other than its range check, and SMTP greeting write failures, which end a session before it starts.
- `PooledClient::client_mut` and the gauge `idle_len`: accessors.
