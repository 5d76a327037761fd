# LSP core in Dafny

This project models the deterministic core of LSP, a small Java engine for reliable
connections over UDP (a server that accepts connections from many hosts, and a client with
one connection). The model has five parts:

- **Wire codec.** It covers the two socket drafts, `LspSocket` and `ServiceHelper`.
  - A datagram is three big-endian 16-bit fields (message type, connection id, sequence
    number) followed by the payload.
  - `send` fills a `ByteBuffer` with puts. `receive` reads the type and hands CONNECT (0),
    DATA (1) or ACK (2) to its handler.
  - `payload`/`getPayload` copy a buffer's remaining bytes into a new array.
- **Epoch monitor.** `LspConnection`'s status checker is a loop that fires the epoch
  triggers once per epoch.
  - It resets its countdown whenever the connection's last-receipt time has changed.
  - It calls the close callback exactly once, when the loop ends.
  - Here one sleep is one step, and the last-receipt times the loop reads are an input
    sequence.
- **Retransmission choice** (`ConnectionTriggers.Helpers`).
  - It resends the pending data pack if there is one.
  - It also sends one ACK, carrying the last received sequence number or 0.
- **Server connection pool** (`LspServer`).
  - The state is a map from id to connection, the set of connected host keys, an id
    counter and an `active` flag.
  - The operations are CONNECT acceptance, `closeConn` and `closeAll`.
  - The pool invariant is that the host set is exactly the hosts of the pooled connections,
    no two connections share a host, and every id was handed out by the counter.
- **Client and records.**
  - `LspClient`'s one-shot `active` flag gates `read`, `write` and `close`.
  - The records are `Pack`, `InternalPack` and `LspParams`.

The modules are:

| module | file | what it holds |
|---|---|---|
| `Java` | java.dfy | Java's integer widths, the exceptions, `(short)` and `int` wrap-around, and big-endian shorts. |
| `ByteBuffers` | bytebuffer.dfy | The part of `java.nio.ByteBuffer` the core uses, as a class. `View` is a snapshot of a buffer. |
| `Wire` | wire.dfy | The datagram layout `Encode`, the type-to-handler switch and the CONNECT header check. |
| `Params` | params.dfy | `LspParams`. |
| `Packs` | pack.dfy | `Pack`. |
| `InternalPacks` | internal_pack.dfy | `InternalPack`. |
| `Connections` | connection.dfy | `LspConnection`, its monitor loop, and the monitor's specification `StatusTrace` with its counting laws. |
| `Triggers` | triggers.dfy | `ConnectionTriggers.Helpers`. |
| `Sockets` | socket.dfy | `LspSocket`. |
| `Helpers` | service_helper.dfy | `ServiceHelper`. |
| `Servers` | server.dfy | `LspServer` and its `ConnectionActions`. |
| `Clients` | client.dfy | `LspClient`. |

Mutable Java objects are Dafny classes, and methods that change them say so with `modifies`.

- The pool's `ConcurrentHashMap` and `ConcurrentSkipListSet` are a `map` and a `set` field.
- The monitor loop and the payload copy are `while` loops proved against their
  specifications.
- A received datagram's dispatch is described by the `Delivery` datatype. It records the
  exception that escapes, or the type that matched no case, or the handler that runs and
  the exact state of the buffer it is handed.

The repository has several drafts of the same classes that do not compile together, so each
file is modelled against its own text. A collaborator missing from the source becomes a
parameter:

- `sent()` and `receivedSeqNum()` of `ConnectionTriggers`;
- `input()` and `output()` of `LspClient`;
- the connection that `LspClient`'s handshake would produce.

## Model

| member | source | states |
|---|---|---|
| Java.ToShort | src/lsp/LspServer.java:174 | The `(short)` cast keeps the value modulo 2^16 and is the identity on shorts. |
| Java.WrapInt | src/lsp/LspServer.java:174 | `incrementAndGet` on the AtomicInteger wraps modulo 2^32 and is exact inside the int range. |
| Java.ShortBytes | src/lsp/LspSocket.java:108 | `putShort` writes two bytes that `getShort` reads back as the same short. |
| Java.ShortFrom | src/lsp/LspSocket.java:82 | Two bytes read as a big-endian short agree with the unsigned value hi * 256 + lo modulo 2^16, and the short is negative exactly when the high byte's top bit is set. |
| Java.ShortAt | src/lsp/LspSocket.java:82 | The short at offset i is the one made of the bytes at i and i + 1. |
| Java.BytesRoundTrip | src/lsp/LspSocket.java:82 | Any two bytes read as a short and written back are the same two bytes. |
| ByteBuffers.ByteBuffer.Allocate | src/lsp/LspSocket.java:107 | `allocate(n)` is n zero bytes, position 0, limit n, writable. |
| ByteBuffers.ByteBuffer.Wrap | src/lsp/LspSocket.java:80-81 | `wrap(data, 0, length)` is backed by all of `data`, with position 0 and limit `length`. |
| ByteBuffers.ByteBuffer.AsReadOnlyBuffer | src/lsp/LspSocket.java:80-81 | The read-only view has the same bytes, position and limit, and is read-only. |
| ByteBuffers.ByteBuffer.Slice | src/lsp/LspSocket.java:86 | The slice holds exactly the remaining bytes, from position 0 to its end, and keeps the read-only flag. |
| ByteBuffers.ByteBuffer.GetShort | src/lsp/LspSocket.java:82 | With fewer than two bytes remaining it throws BufferUnderflowException and does not move. Otherwise it returns the big-endian short there and advances by two. |
| ByteBuffers.ByteBuffer.Get | src/lsp/LspSocket.java:144 | With no byte remaining it throws. Otherwise it returns the next byte and advances by one. |
| ByteBuffers.ByteBuffer.PutShort | src/lsp/LspSocket.java:108 | Two bytes are replaced at the position by the short's big-endian bytes, and the position advances by two. |
| ByteBuffers.ByteBuffer.Put | src/lsp/LspSocket.java:108 | The source bytes replace those at the position, and the position advances past them. |
| Wire.Encode | src/lsp/LspSocket.java:106-108 | A datagram has 6 + payload-length bytes. Type, id and sequence number are the big-endian shorts at 0, 2 and 4, and the payload follows verbatim. |
| Wire.EncodeOfFields | src/lsp/LspSocket.java:106-108 | Every datagram of at least six bytes is the encoding of the header it carries and its tail. |
| Wire.EncodeInjective | src/lsp/LspSocket.java:106-108 | Different fields or payloads never encode to the same datagram. |
| Wire.HandlerFor | src/lsp/LspSocket.java:84-94 | Types 0, 1 and 2 select receiveConnect, receiveData and receiveAck respectively (each in both directions). Every other type selects nothing. |
| Wire.TypeOf | src/lsp/LspSocket.java:18-20 | Each handler's type constant selects that handler. |
| Wire.CheckConnectHeader | src/lsp/LspServer.java:167 | The header check accepts exactly when at least four bytes follow the type and both shorts are zero. It underflows exactly when fewer than two bytes follow, or the id is zero and fewer than four follow (a non-zero id short-circuits the second read). |
| Wire.ConnectHeaderOfEncode | src/lsp/LspServer.java:167 | The CONNECT check accepts an encoded datagram exactly when its id and sequence number are both zero, and never underflows on one. |
| Wire.ShortConnectHeader | src/lsp/LspServer.java:167 | On a datagram that ends after the id, the check underflows only when the id is zero, because the second read is short-circuited. |
| Params.DefaultParams | src/lsp/LspParams.java:20-24 | The defaults are a 2000 ms epoch and a limit of 5 epochs. |
| Packs.Pack.constructor | src/lsp/Pack.java:7-10 | It stores the id and the caller's payload array itself. |
| Packs.Pack.GetConnId | src/lsp/Pack.java:12-14 | It returns the stored id. |
| Packs.Pack.GetPayload | src/lsp/Pack.java:20-22 | It returns the stored payload array itself, not a copy. |
| Packs.Pack.SetConnId | src/lsp/Pack.java:16-18 | It changes the id only. The payload's bytes are untouched. |
| InternalPacks.InternalPack.constructor | src/lsp/InternalPack.java:7-11 | The id comes from the connection, which is stored with the given sequence number and payload. |
| InternalPacks.InternalPack.Unnumbered | src/lsp/InternalPack.java:13-15 | Like the 3-argument constructor, with sequence number -1. |
| InternalPacks.InternalPack.FromPack | src/lsp/InternalPack.java:17-19 | It keeps the pack's id and payload reference. The connection is null and the sequence number 0. |
| InternalPacks.InternalPack.GetConnId | src/lsp/Pack.java:12-14 | The inherited getter returns the stored id. |
| InternalPacks.InternalPack.GetPayload | src/lsp/Pack.java:20-22 | The inherited getter returns the stored payload array itself. |
| InternalPacks.InternalPack.GetConnection | src/lsp/InternalPack.java:21-23 | It returns the bound connection, possibly null. |
| InternalPacks.InternalPack.GetSeqNum | src/lsp/InternalPack.java:29-31 | It returns the stored sequence number. |
| InternalPacks.InternalPack.SetConnId | src/lsp/Pack.java:16-18 | The inherited setter changes the id only. |
| InternalPacks.InternalPack.SetConnection | src/lsp/InternalPack.java:25-27 | It rebinds the connection and leaves the id and sequence number as they were. |
| InternalPacks.InternalPack.SetSeqNum | src/lsp/InternalPack.java:33-35 | It changes the sequence number only. |
| Triggers.ResendData | src/lsp/ConnectionTriggers.java:19-24 | It resends exactly the pending pack, unchanged, when there is one, and nothing otherwise. |
| Triggers.ResendAck | src/lsp/ConnectionTriggers.java:30-37 | It sends exactly one ACK for the connection. The ACK carries the received sequence number unless that is -1, never carries -1, and is 0 exactly when nothing or 0 was received. |
| Triggers.EpochRetransmission | src/lsp/ConnectionTriggers.java:19-37 | One tick sends the pending pack first if there is one, then one ACK. |
| Connections.LspConnection.constructor | src/lsp/LspConnection.java:27-30 | A new connection is open, has the given id and host, and its last-receipt time is the construction time. |
| Connections.LspConnection.Create | src/lsp/LspConnection.java:23-35 | A null params or actions throws NullPointerException and builds nothing. Otherwise the result is a fresh open connection with the given fields. |
| Connections.LspConnection.GetId | src/lsp/LspConnection.java:37-39 | It returns the connection's id. |
| Connections.LspConnection.GetHost | src/lsp/LspConnection.java:41-43 | It returns the connection's host key. |
| Connections.LspConnection.GetLastMsgTime | src/lsp/LspConnection.java:45-47 | It returns the current last-receipt time. |
| Connections.LspConnection.SetLastMsgTime | src/lsp/LspConnection.java:45-51 | It sets the last-receipt time read back by the getter and leaves `closed` alone. |
| Connections.LspConnection.Close | src/lsp/LspConnection.java:53-55 | It only raises the closed flag. |
| Connections.LspConnection.RunStatusChecker | src/lsp/LspConnection.java:83-105 | The loop emits exactly `StatusTrace` of the connection's parameters, schedule and samples. It reads lastMsgTime once at the start plus once per fired epoch. |
| Connections.StatusTrace | src/lsp/LspConnection.java:84-104 | The monitor's events for a schedule of closes and a sequence of samples: a close once the flag is seen or the countdown is spent, otherwise one trigger per epoch, with the countdown reset on a changed sample. The trace is at most one event longer than the samples. |
| Connections.TriggerCountOf | src/lsp/LspConnection.java:88-92 | n epochs fire n triggers, with or without a final close. |
| Connections.CloseIsLastAndOnce | src/lsp/LspConnection.java:88-104 | The close callback occurs at most once and only as the last event. A run that has not closed is one trigger per observed epoch. |
| Connections.NonPositiveLimitClosesAtOnce | src/lsp/LspConnection.java:88 | With epochLimit <= 0 there are no triggers and an immediate close. |
| Connections.QuietIffUnchanged | src/lsp/LspConnection.java:96-100 | A window of epochLimit unchanged samples ends at a point exactly when the run of equal samples ending there is at least epochLimit long. |
| Connections.ClosesAfterFirstQuietWindow | src/lsp/LspConnection.java:88-104 | The monitor closes right after the first epoch that completes epochLimit epochs with no change in lastMsgTime. Until then it fires one trigger per epoch. |
| Connections.KeepsRunningWithoutQuietWindow | src/lsp/LspConnection.java:96-100 | While every change resets the count before the limit, the monitor keeps firing and never closes. |
| Connections.NoReceiptClosesAfterLimit | src/lsp/LspConnection.java:84-104 | If lastMsgTime never changes, exactly epochLimit triggers fire and then the close. |
| Connections.ClosedActiveFrom | src/lsp/LspConnection.java:88-104 | From loop test i, with no quiet window before test k and the close first seen at k, the rest of the run is k - i triggers, then the close. |
| Connections.CloseTakesEffectAtNextCheck | src/lsp/LspConnection.java:53-55 | A `close()` first seen at loop test k, when no window of epochLimit unchanged samples ends before k, yields exactly k triggers, then the close. An epoch already sleeping still fires. |
| Connections.CloseAfterLongActivity | src/lsp/LspConnection.java:53-55 | With limit 2 and a sample that changes every epoch, a close first seen at test 5 (past the limit) yields 5 triggers, then the close. |
| Connections.StatusCheckerTestRun | test/lsp/LspConnectionTest.java:28-49 | With limit 3 and samples 1, 0, 0, 0, 0 there are 4 triggers, 5 samples, then the close. |
| Sockets.SocketDelivery | src/lsp/LspSocket.java:78-95 | A datagram shorter than two bytes escapes with an underflow. Otherwise the short at offset 0 is ignored exactly when it selects no handler, and else its handler runs. That handler receives a read-only slice at position 0 whose remaining bytes are exactly those after the type. |
| Sockets.LspSocket.Sized | src/lsp/LspSocket.java:53-62 | Once bound, the queues have the given capacity (at least 1) and nothing has been sent. |
| Sockets.LspSocket.WithQueueSize | src/lsp/LspSocket.java:53-62 | A port outside 0..65535 or a capacity below 1 throws IllegalArgumentException. Otherwise the queues get the given capacity. |
| Sockets.LspSocket.Create | src/lsp/LspSocket.java:42-44 | The same port check, with queues of the default capacity of 50. |
| Sockets.LspSocket.Send | src/lsp/LspSocket.java:106-118 | The datagram built by the puts, and handed to the socket, is exactly `Encode` of the fields and payload. |
| Sockets.LspSocket.SendConnect | src/lsp/LspSocket.java:120-122 | It sends a CONNECT with an empty payload, six bytes in all. |
| Sockets.LspSocket.SendData | src/lsp/LspSocket.java:124-126 | It sends a DATA datagram carrying the array's bytes. |
| Sockets.LspSocket.SendDataPack | src/lsp/LspSocket.java:128-130 | It sends a DATA datagram with the pack's own id, sequence number and payload. |
| Sockets.LspSocket.SendAck | src/lsp/LspSocket.java:132-134 | It sends an ACK with an empty payload, six bytes in all. |
| Sockets.LspSocket.SendAckPack | src/lsp/LspSocket.java:136-138 | It sends an ACK with the pack's own id and sequence number. |
| Sockets.LspSocket.Receive | src/lsp/LspSocket.java:78-95 | Wrapping, the read-only view, reading the type, the switch and the slice produce exactly `SocketDelivery`. |
| Sockets.LspSocket.Payload | src/lsp/LspSocket.java:141-148 | It returns a new array of exactly the remaining bytes in order, and leaves nothing remaining. |
| Sockets.ReceiveOfEncode | src/lsp/LspSocket.java:78-108 | Round trip, the same way TestUtil builds its datagrams. Receiving Encode(t, c, s, p) for t in {0, 1, 2}, even inside a larger buffer, reaches t's handler with a read-only slice at 0. The slice reads c, then s, then exactly p. |
| Sockets.ReceiveOfUnknownType | src/lsp/LspSocket.java:84-94 | An encoded datagram of any other type reaches no handler. |
| Helpers.HelperDelivery | src/lsp/helpers/ServiceHelper.java:55-71 | Like `SocketDelivery`: same underflow and same type switch on the short at offset 0. The handler gets the unsliced read-only buffer over the whole array: position 2, limit the datagram length, same remaining bytes. |
| Helpers.ServiceHelper.constructor | src/lsp/helpers/ServiceHelper.java:28-31 | It records the port and has sent nothing. |
| Helpers.ServiceHelper.Send | src/lsp/helpers/ServiceHelper.java:73-83 | The datagram built by the puts is exactly `Encode` of the fields and payload. |
| Helpers.ServiceHelper.SendConnect | src/lsp/helpers/ServiceHelper.java:85-87 | It sends a CONNECT with an empty payload, six bytes. |
| Helpers.ServiceHelper.SendData | src/lsp/helpers/ServiceHelper.java:89-91 | It sends a DATA datagram carrying the array's bytes. |
| Helpers.ServiceHelper.SendDataPack | src/lsp/helpers/ServiceHelper.java:93-95 | It sends the pack's own id, sequence number and payload. |
| Helpers.ServiceHelper.SendAck | src/lsp/helpers/ServiceHelper.java:97-99 | It sends an ACK with an empty payload, six bytes. |
| Helpers.ServiceHelper.ReceivePacket | src/lsp/helpers/ServiceHelper.java:55-71 | Reading the type and switching on the read-only buffer produce exactly `HelperDelivery`. |
| Helpers.ServiceHelper.GetPayload | src/lsp/helpers/ServiceHelper.java:106-113 | It returns a new array of exactly the remaining bytes in order, and leaves nothing remaining. |
| Helpers.ReceivePacketOfEncode | src/lsp/helpers/ServiceHelper.java:55-75 | Round trip. An encoded CONNECT, DATA or ACK reaches its handler with the whole buffer at offset 2, from which c, then s, then exactly p remain. |
| Helpers.DraftsAgree | src/lsp/helpers/ServiceHelper.java:56-68 | The two drafts raise the same exception, ignore the same types, and call the same handler with the same remaining bytes. They differ only in the buffer's offset. |
| Servers.KeyLookup | src/lsp/LspServer.java:86 | A boxed key finds an entry exactly when it is a Short present in the map. An Integer never does. |
| Servers.LspServer.constructor | src/lsp/LspServer.java:34-51 | The pool and the host set start empty, the counter at 0 and the server active, and the pool invariant holds. |
| Servers.LspServer.ProcessPacket | src/lsp/LspServer.java:147-162 | A datagram under two bytes throws. DATA, ACK and unknown types (handlers at lines 182-188) change nothing. CONNECT has exactly `DoConnect`'s effect on the bytes after the type. The pool invariant is kept while ids do not wrap. |
| Servers.LspServer.DoConnect | src/lsp/LspServer.java:164-180 | A non-zero id or sequence number changes nothing (the second short is read only if the first is zero). A short datagram throws BufferUnderflowException and changes nothing. A known host changes nothing, not even the counter. For a new host the counter advances first: null params then throws NullPointerException with nothing else changed; otherwise the `(short)` of the new counter is bound to a fresh open connection for that host with `ServerActions(id)`, and the host is added. The pool invariant is kept while the counter is below 0x7FFF. |
| Servers.LspServer.CloseConn | src/lsp/LspServer.java:84-91 | As written, every call throws NullPointerException and changes nothing. |
| Servers.LspServer.CloseConnIntended | src/lsp/LspServer.java:84-91 | A pooled id's connection is closed, removed, and its host dropped. An unknown id throws ClosedConnectionException and changes nothing. No other connection's closed flag and no connection's last-receipt time changes. The pool invariant is kept. |
| Servers.LspServer.CloseAll | src/lsp/LspServer.java:97-113 | The server is inactive, every connection pooled before the call is closed with its last-receipt time untouched, and the map and host set are empty. |
| Servers.LspServer.ActionsCloseConnection | src/lsp/LspServer.java:205-208 | A timeout close routes through closeConn with the connection's own id and, as written, throws. |
| Servers.LspServer.ActionsCloseConnectionIntended | src/lsp/LspServer.java:205-208 | Over the intended closeConn, the timed-out connection is closed and leaves the pool with its host, and nothing else changes. An id no longer pooled throws ClosedConnectionException and changes nothing. |
| Servers.AcceptKeepsValid | src/lsp/LspServer.java:176-177 | Putting a connection for a new host under a fresh id adds exactly that host to the pool's hosts. |
| Servers.RemoveKeepsValid | src/lsp/LspServer.java:86-90 | Removing one connection removes exactly its host when hosts are distinct. |
| Servers.ConnectRequest | test/lsp/TestUtil.java:36-47 | It builds a six-byte CONNECT that passes the zero-header check. |
| Servers.AcceptScenario | test/lsp/LspServerTest.java:42-51 | Requests come from hosts 10, 10, 20, and from host 30 with a non-zero id. The pool ends with ids {1, 2}, hosts {10, 20} and counter 2. |
| Servers.CloseConnScenario | src/lsp/LspServer.java:84-91 | After connection 1 is accepted, `closeConn(1)` throws, and the connection stays pooled and open. |
| Servers.CloseConnIntendedScenario | src/lsp/LspServer.java:84-91 | The intended `closeConn(1)` closes connection 1 and empties the pool and host set. |
| Clients.LspClient.constructor | src/lsp/LspClient.java:13-20 | A client starts active on the connection its handshake produced. |
| Clients.LspClient.GetConnId | src/lsp/LspClient.java:25-27 | It returns the connection's id. |
| Clients.LspClient.CheckActive | src/lsp/LspClient.java:57-60 | It completes normally exactly when the client is active. Otherwise it throws ClosedConnectionException. |
| Clients.LspClient.Read | src/lsp/LspClient.java:33-36 | It throws exactly when inactive. Otherwise it returns the next pack's payload. |
| Clients.LspClient.Write | src/lsp/LspClient.java:42-47 | It throws exactly when inactive. Otherwise it returns a fresh pack bound to the connection, with its id, sequence number -1, and the caller's payload array. |
| Clients.LspClient.Close | src/lsp/LspClient.java:52-55 | It succeeds exactly when the client was active, throws ClosedConnectionException otherwise, and always leaves the client inactive. |
| Clients.LspClient.CallCloseConnection | src/lsp/LspClient.java:96-99 | The connection's close callback behaves as `close()`, so it throws on an already closed client. |
| Clients.CloseScenario | src/lsp/LspClient.java:33-60 | The first close succeeds. A second close, the close callback, a read and a write then all throw ClosedConnectionException. |

## Left out

- Sockets, threads and time.
  - No DatagramSocket is opened, bound or read. A send appends the datagram to a `sent`
    log, and a receive takes the received bytes and length as parameters.
  - The receive threads (`SvcTask`, the server's `InputService`) and `start` are not
    modelled. `Delivery.Escapes` records that an unchecked exception would end such a
    thread.
  - `Thread.sleep` is one step. A negative epoch, which would make `sleep` throw, is not
    modelled.
  - Concurrency is not modelled:
    - `closeAll` closes the connections sequentially and in no particular order, where the
      source uses one thread each;
    - `volatile`, `sendLock` and the concurrent collections' thread safety are not modelled.
- Handlers and receive paths.
  - The abstract handlers' `DatagramPacket`/`SocketAddress` argument is not carried.
    `Delivery` names the handler and the buffer state only.
  - Buffer views share nothing. `asReadOnlyBuffer` and `slice` copy the backing bytes, so
    aliasing between a buffer and its views is not modelled.
  - A datagram is received in full. Truncation to the 1000- or 1024-byte receive array is
    not modelled.
- Client.
  - `LspClient`'s constructor (address resolution and the `connect` handshake, which is
    absent from the socket class shown) is not part of this model. The client is built
    from the connection the handshake would give. So `getConnId`'s expected value of 1 in
    the client test depends on that missing handshake.
  - Queues: `inputQueue()`/`outputQueue()`, and `LspClient`'s `input()`/`output(p)` calls
    into a socket API that does not exist. `Read` takes the incoming pack as a parameter,
    and `Write` returns the pack it would enqueue.
  - The epoch-trigger bodies are empty TODO stubs in `LspServer` and `LspClient` and are
    not modelled. `ConnectionTriggers.Helpers` stands for their intent.
- Server.
  - The server's `read` and `write` are stubs (return null, do nothing) and are not
    modelled.
  - The host key is `InetAddress.hashCode()`, taken as an opaque `int32` parameter.
- Records.
  - `LspParams` getters are the datatype's fields. `defaultParams()` returning the same
    instance on every call is a value equality here, because a datatype has no identity.
  - `InternalPack`'s constructors with a null connection (a NullPointerException from
    `conn.getId()`) are excluded by the non-null parameter type.
- A null payload is excluded by the non-null `array` type of `Pack` and `InternalPack`.
  In the source such a pack is built without complaint, and sending it throws
  NullPointerException at `6 + payload.length` (src/lsp/LspSocket.java:107,
  src/lsp/helpers/ServiceHelper.java:74). `InternalPack(Pack)` with a null pack, which
  throws NullPointerException, is excluded the same way.
- A port that cannot be bound because it is in use (a SocketException wrapped in a
  RuntimeException) depends on the operating system and is not modelled. An out-of-range
  port is.
- A `put` past the buffer's limit (BufferOverflowException) is required away. `send`
  always allocates exactly the room it fills.
- Where the code and the protocol design differ, the model follows the code:
  - accepted ids come straight from the counter, with no zero-skip and no check against ids
    still in use;
  - a duplicate CONNECT does nothing, rather than refreshing the connection's liveness;
  - no ACK is sent on accept, although the server test expects one.
- Servers.LspServer.ProcessPacket: its invariant clause holds only while the counter is
  below 0x7FFF. After 65535 accepts, ids wrap, and `put` can overwrite a live connection
  whose host then stays in the host set.
- Servers.LspServer.DoConnect: same restriction as `ProcessPacket`.
- Connections.StatusTrace: its own contract bounds only the trace's length. What the trace
  contains is stated by the lemmas about it (`CloseIsLastAndOnce`, `TriggerCountOf`,
  `ClosesAfterFirstQuietWindow` and the others), so solver cost stays low.
- Connections.LspConnection.RunStatusChecker: the run ends when the input samples run out.
  A run whose loop has not yet ended returns the events so far, and the close comes later.

## Findings

| source | as written | input that shows it | evidently intended | confidence | as-written member | corrected member |
|---|---|---|---|---|---|---|
| src/lsp/LspServer.java:86-87 | `connections.remove(connId)` gets an `int`, which boxes to an `Integer`. No `Short` key equals it, so `remove` returns null and `conn.close()` throws NullPointerException. Nothing is closed or removed, and the connection's timeout callback fails the same way. | Accept one CONNECT (id 1), then call `closeConn(1)` | Remove the connection under `(short) connId`, close it, and drop its host, keeping the host set equal to the pooled hosts | high (not executed) | Servers.LspServer.CloseConn | Servers.LspServer.CloseConnIntended |
