# A verified model of the IM server core

The repository is a C++ instant-messaging and HTTP server core: an epoll event loop, length-prefixed
messages over TCP, a threaded logger, pools of threads and database connections, and some codecs.
This project models the parts whose promises quantify over runs, schedules and inputs, and proves
them with Dafny 4.11. `dafny verify dfyconfig.toml` checks everything.

| file | what it models |
|---|---|
| `SimpleBuffer.dfy`, `ByteStream.dfy`, `ImPdu.dfy`, `ImConn.dfy` | the message transport as classes over byte arrays; the socket is an adversary that takes or returns any legal count or an error |
| `Delivery.dfy`, `ConnPair.dfy` | a sender, a wire and a receiver built from what those methods are proved to do, over every run; and two connection objects on which any sequence of calls is such a run |
| `ObjectPool.dfy`, `Logger.dfy`, `LogQueues.dfy` | the heap-linked queue with recycled nodes; the logger's producers and thread as interleaved steps; `Log` and the thread's loop on two real queues, proved to take exactly those steps |
| `DBPool.dfy`, `ThreadPool.dfy` | the two monitors: each stretch between taking and releasing the mutex is a method, and one step of a system with any number of threads |
| `Sockets.dfy` | reference counts, the socket table and the dispatch loop with reentrant callbacks |
| `HttpConn.dfy` | HTTP connections with two indexes and a response queue |
| `Timers.dfy` | the timer list and a pass over it while callbacks change it |
| `Md5Rfc.dfy`, `Md5.dfy`, `Bits.dfy` | RFC 1321 on numbers, and the imperative `md5` refined to it |
| `MachineWord.dfy`, `Md5Machine.dfy`, `Md5Words.dfy`, `Md5Known.dfy` | the same operations on any machine whose operators agree with the numbers; 32-bit words as such a machine; the digest of the empty message worked out on them |
| `Base36.dfy`, `UrlCodec.dfy`, `ReplaceMark.dfy` | the text codecs and placeholder substitution |
| `Counting.dfy`, `Sequences.dfy`, `Options.dfy` | sums and occurrences, facts about concatenation, and an option type |

Main results:

- Whatever the socket does, the PDUs handled are a prefix of those submitted, and all of them once the
  buffers and the wire are empty (`Delivery`); cutting the stream into other chunks changes nothing. The same is stated
  of two connection objects, for any sequence of calls made on them (`ConnPairs.ConnPair.PerformAll`).
- `md5` computes the digest of RFC 1321 for every message. The definition of that digest is tied to the RFC's own words:
  bit tables of F, G, H and I, the bytes of the registers, agreement of its operations with those of 32-bit machine
  words (`Md5Machines.RunIs`, `Md5Words.Machine32Reads`), and the RFC's answer for the empty message
  (`Md5Known.EmptyMessage`).
- The logger loses no wakeup and no record under any schedule, and its thread handles every message exactly once.
  A run without new calls, retries and interrupted waits is bounded, and it gets stuck only at rest (`Logger.RunsOut`).
  What gets out is another matter: the source recycles a record even if the socket took only a part of it or the file
  could not be opened. Every message gets out once and whole if and only if every send took its whole record and every
  `Write` succeeded (`Logger.DeliveredIff`); `Logger.ShortSendLosesTail` is a run that loses a byte.
- The connection pool loses no wakeup and no connection, with barging and spurious wakeups. Releasing a connection
  keeps the pool sound if and only if the caller holds it or it is free (`DBPool.ReleaseConservesIff`).
- The queue under the logger is a FIFO on acyclic, disjoint chains.
- No socket is used after it was deleted, and each is deleted once, when the last reference goes, although a
  callback may close the socket whose event is being handled.
- The HTTP indexes agree and closing takes effect once. Draining the response list gives every connection exactly the
  contents of the responses with its uuid, in order, until one closes it, and leaves all others alone. Accepting a
  connection keeps the indexes in agreement if and only if no open connection has the next uuid. That holds until the
  allocator wraps (`HttpConns.WrapHappens` gets there); after that, closing the newcomer erases the entry of the other
  connection, which no event and no response finds any more (`AcceptAndClose`).
- A pass over the timers follows a freed node if and only if a firing callback removes the timer the iterator has moved
  on to (`Timers.FollowsFreedIff`, and `RemovedNextIsFollowed` for an input). A pass that does not fires every due timer
  once if and only if no callback of a due timer registers or removes a due timer that stands later in the list. With
  such a registration the later timer is skipped in that pass (`Timers.RegisteredAnewIsSkipped`). All this is for
  registrations due after the tick of the pass. With interval 0, two timers that register themselves anew keep the pass
  going for as long as the clock has not passed that tick (`Timers.GoesOnWhileDueAgain`).
- `URLDecode` reads outside its string if and only if what it meets ends right behind a '%' (`UrlCodec.LeavesStringIff`).
  An escape decodes to the byte its two hexadecimal digits stand for if and only if the second is not in lower case or
  the first has the bit of value 2 (`UrlCodec.EscapeDecodesIff`); "%4a" decodes to 0x6A (`UrlCodec.LowerCaseEscape`).
- `urltoid(idtourl(id))` is `id` modulo 2^31, `URLDecode(URLEncode(s))` is `s`, and filling in values one by one
  is simultaneous substitution.

In the state machines (`Delivery`, `Logger`, `DBPool`, `ThreadPool`) a run is a sequence of states and actions, each
enabled where it is taken; the invariants are proved for every run by induction. Results of system calls,
addresses from `new`, clock readings and what callbacks do are parameters, so the theorems hold for all of them.

## Model

| member | source | states |
|---|---|---|
| SimpleBuffers.SimpleBuffer.Extend | src/core/UtilPdu.cpp:35-41 | the contents survive; the capacity is 5/4 of the size asked for, never below the contents |
| SimpleBuffers.SimpleBuffer.Write | src/core/UtilPdu.cpp:43-55 | appends the data to the contents |
| SimpleBuffers.SimpleBuffer.WriteNull | src/core/UtilPdu.cpp:43-55 | claims room and keeps what was there |
| SimpleBuffers.SimpleBuffer.Read | src/core/UtilPdu.cpp:57-68 | removes and returns a prefix, at most all |
| ByteStreams.ReadWrittenUint32 | src/core/UtilPdu.cpp:107-139 | reading what was written big-endian gives the number back |
| ByteStreams.WriteReadUint32 | src/core/UtilPdu.cpp:107-139 | writing what was read gives the bytes back |
| ByteStreams.WriteUint16 | src/core/UtilPdu.cpp:119-123 | exactly two bytes of the buffer change |
| ByteStreams.WriteUint32 | src/core/UtilPdu.cpp:133-139 | exactly four bytes of the buffer change |
| ByteStreams.ByteStream.GetUint16 | src/core/UtilPdu.cpp:206-213 | reads and advances, or throws without moving when the end is too near |
| ByteStreams.ByteStream.GetUint32 | src/core/UtilPdu.cpp:224-231 | the same for four bytes |
| ImPdus.HeaderRoundTrip | src/core/ImPduBase.cpp:46-57 | parsing a written header gives every field back |
| ImPdus.HeaderWriteBack | src/core/ImPduBase.cpp:101-119 | writing a parsed header gives the sixteen bytes back |
| ImPdus.WrittenLayout | src/core/ImPduBase.cpp:46-57 | a written header has each field at its offset, high-order byte first |
| ImPdus.ParsedLayout | src/core/ImPduBase.cpp:101-119 | each field parsed is the number at its offset |
| ImPdus.IsPduAvailable | src/core/ImPduBase.cpp:138-156 | the zero-length exception if and only if 16 bytes are there and their length field is 0; not yet if and only if they are not there or the length field exceeds what is; else available with exactly that many bytes |
| ImPdus.DecodeStops | src/core/ImPduBase.cpp:121-156 | decoding stops at a length field of 0, or where the length field exceeds what is left or is not there; every PDU is as long as its length field says |
| ImPdus.AvailabilityKept | src/core/ImPduBase.cpp:138-156 | once decided, more bytes change neither the answer nor the header |
| ImPdus.DecodeSplit | src/core/ImConn.cpp:150-161 | decoding a stream is decoding a part of it and then the remainder with the rest |
| ImPdus.DecodeLossless | src/core/ImConn.cpp:150-161 | the PDUs decoded and the remainder are the stream, for every stream, lengths 1 to 15 included |
| ImPdus.DecodeFrames | src/core/ImPduBase.cpp:121-136 | a sequence of whole frames decodes to exactly those PDUs, with nothing left |
| ImPdus.ImPdu.WriteHeader | src/core/ImPduBase.cpp:46-57 | the header in the buffer is the fields with the length of the buffer; the body is untouched |
| ImPdus.ImPdu.SetPBMsg | src/core/ImPduBase.cpp:158-174 | the buffer becomes a frame: its length field is its length, behind the header is the body |
| ImPdus.ImPdu.SetVersion | src/core/ImPduBase.cpp:59-63 | the parsed header changes in this field alone, the body not at all; a frame stays a frame |
| ImPdus.ImPdu.SetFlag | src/core/ImPduBase.cpp:65-69 | likewise; a frame stays a frame |
| ImPdus.ImPdu.SetServiceId | src/core/ImPduBase.cpp:71-75 | likewise; a frame stays a frame |
| ImPdus.ImPdu.SetCommandId | src/core/ImPduBase.cpp:77-81 | likewise; a frame stays a frame |
| ImPdus.ImPdu.SetError | src/core/ImPduBase.cpp:83-87 | changes the sequence number field, which shares its place; a frame stays a frame |
| ImPdus.ImPdu.SetSeqNum | src/core/ImPduBase.cpp:89-93 | changes the sequence number alone; a frame stays a frame |
| ImPdus.ImPdu.SetReversed | src/core/ImPduBase.cpp:95-99 | changes the last field to the low 16 bits of its argument; a frame stays a frame |
| ImPdus.ImPdu.ReadPduHeader | src/core/ImPduBase.cpp:101-119 | fills the header from a long enough buffer, else returns -1 and leaves it |
| ImPdus.ImPdu.ReadPdu | src/core/ImPduBase.cpp:121-136 | a PDU with the bytes of the first frame if one is available |
| ImConns.Socket.NetlibSend | src/core/NetLib.cpp:73-83 | the adversary: takes any prefix, or nothing |
| ImConns.Socket.NetlibRecv | src/core/NetLib.cpp:85-94 | the adversary: returns any prefix of what is to come, or nothing |
| ImConns.ImConn.SendPdu | src/core/ImConn.h:29 | sends the bytes of the PDU |
| ImConns.ImConn.Send | src/core/ImConn.cpp:88-127 | the socket got a prefix of the data and the out buffer the rest; busy exactly if something was left; completion is reported otherwise |
| ImConns.ImConn.OnWrite | src/core/ImConn.cpp:173-198 | a prefix of the out buffer moves to the socket; busy exactly if something is left |
| ImConns.ImConn.OnRead | src/core/ImConn.cpp:129-171 | whatever the receives return, the PDUs handled are those of everything buffered, in order, no byte of it is lost, and the connection is closed if and only if a length field of 0 is at the front of the remainder |
| ImConns.ImConn.ReceiveOnce | src/core/ImConn.cpp:131-144 | before each receive there is room for a whole one |
| Delivery.ChunkingIndependence | src/core/ImConn.cpp:129-171 | for every stream and every cut into chunks: same PDUs, same remainder, same exception |
| Delivery.PrefixDecode | src/core/ImConn.cpp:150-161 | a prefix of a stream of frames decodes to a prefix of the PDUs |
| Delivery.NextKeeps | src/core/ImConn.cpp:88-198 | every send, flush and receive keeps the invariant of the link |
| Delivery.DeliveryIsPrefix | src/core/ImConn.cpp:88-198 | in every run the PDUs handled are a prefix of those submitted, in order and byte for byte |
| Delivery.DeliveryIsComplete | src/core/ImConn.cpp:88-198 | they are all of them when the out buffer and the wire are empty |
| Delivery.SendConservation | src/core/ImConn.cpp:88-127 | bytes on the wire and in the out buffer are the bytes submitted; busy exactly if the buffer is not empty |
| ConnPairs.ConnPair.constructor | src/core/ImConn.cpp:72-81 | two new connections and their sockets are the start of the link |
| ConnPairs.ConnPair.SendPdu | src/core/ImConn.cpp:88-127 | sending a frame on one connection object is a submit step of the link |
| ConnPairs.ConnPair.OnWrite | src/core/ImConn.cpp:173-198 | `OnWrite` on it is a flush step |
| ConnPairs.ConnPair.OnRead | src/core/ImConn.cpp:129-171 | `OnRead` on the other is an arrival step |
| ConnPairs.ConnPair.PerformAll | src/core/ImConn.cpp:88-198 | any calls on the two objects, in any order, are a run of the link with their actions; what the receiver handled is a prefix of the PDUs of the messages sent, and all of them if nothing is left in between |
| ObjectPools.ObjectPool.SetObject | src/core/Util.h:170-217 | appends to the FIFO; rejects NULL; makes a node only if none is idle |
| ObjectPools.ObjectPool.GetObject | src/core/Util.h:219-253 | removes the oldest element, or fails on an empty pool; the node becomes idle |
| ObjectPools.ObjectPool.GetObjectAll | src/core/Util.h:256-292 | drains in order; all nodes become idle |
| ObjectPools.ObjectPool.GetObjectByPos | src/core/Util.h:294-304 | the pos-th element, NULL beyond the size; defined if and only if the position is not 0, for which the counter wraps and the loop runs off the chain |
| ObjectPools.ObjectPool.Clear | src/core/Util.h:131-159 | hands every element to deletion once, in order, and leaves nothing |
| ObjectPools.ObjectPool.GetNum | src/core/Util.h:307-312 | the size field is the length of the sequence |
| ObjectPools.ObjectPool.LinkBehind | src/core/Util.h:205-214 | linking behind the tail keeps both chains acyclic and disjoint |
| Logger.StepConserves | src/core/Log.cpp:143-243 | on every branch each allocated record stays in exactly one of idle queue, log queue, a producer's hands, the log thread's hands |
| Logger.LineFits | src/core/Log.cpp:224-235 | a text of less than 2048 bytes is stored whole with a newline, a longer one as its first 2047 bytes with a newline |
| Logger.StepAccounts | src/core/Log.cpp:143-243 | no message is dropped from the queues, handled twice or overwritten; without a retry they keep their order |
| Logger.StepKeepsWakeups | src/core/Log.cpp:237-240 | no lost wakeup, and semaphore value plus producers about to post is at most the number of producers |
| Logger.EveryRun | src/core/Log.cpp:143-243 | all of this in every run with any number of producers |
| Logger.QuiescentMeansHandled | src/core/Log.cpp:143-180 | when nobody can move, the thread has handled every message exactly once and every record is idle |
| Logger.LeftWholeIff | src/core/Log.cpp:158-173 | in every run what got out is the messages handled, whole, if and only if every send took its whole record and every `Write` succeeded |
| Logger.DeliveredIff | src/core/Log.cpp:158-173 | when nobody can move, what got out is what was submitted, each once and whole, if and only if that is so |
| Logger.RunsOut | src/core/Log.cpp:143-243 | in every run the steps that are not a new call, a retry or an interrupted wait are at most ten per call and one per retry and interrupted wait; none is possible if and only if everything is at rest |
| Logger.ShortSendLosesTail | src/core/Log.cpp:162-173 | a run in which a short send loses the end of a message |
| LogQueues.LogQueues.Log | src/core/Log.cpp:202-243 | on the heap queues `Log` takes a sequence of enabled producer steps, submits its message if formatting succeeds, and leaves the semaphore positive |
| LogQueues.LogQueues.HandleOne | src/core/Log.cpp:150-177 | a turn of the thread's loop takes the consumer steps of the branch selected: after EAGAIN or EINTR the record is last in the log queue and nothing got out; after another failed send what `Write` wrote got out, after a send what it took, and the record is idle |
| LogQueues.TurnHandles | src/core/Log.cpp:158-174 | the same of the specification of a turn |
| LogQueues.LogQueues.Dispose | src/core/Log.cpp:158-174 | exactly the bytes taken get out, and the record is recycled or queued again |
| LogQueues.LogQueues.Put | src/core/Util.h:170-217 | the two queues go on sharing no node |
| LogQueues.LogQueues.Take | src/core/Util.h:219-253 | likewise |
| DBPool.DBPool.constructor | src/http_svr/DBPool.cpp:286-297 | no connections yet, the counter at the minimum |
| DBPool.DBPool.Init | src/http_svr/DBPool.cpp:309-322 | makes connections up to the first failure and returns its code |
| DBPool.DBPool.GetDBConn | src/http_svr/DBPool.cpp:329-358 | the critical section: takes the first free connection; else below the maximum creates one if its Init returns 0 and fails if not, leaving the pool alone; else waits |
| DBPool.DBPool.RelDBConn | src/http_svr/DBPool.cpp:360-377 | appends the connection unless it is free already, and signals once either way |
| DBPool.ReleaseConservesIff | src/http_svr/DBPool.cpp:360-377 | releasing keeps every connection in one place if and only if the caller holds it or it is free |
| DBPool.AttemptConserves | src/http_svr/DBPool.cpp:329-358 | so does getting one, creation and failure included |
| DBPool.AttemptFailsIff | src/http_svr/DBPool.cpp:329-350 | in a state of the system an attempt fails if and only if nothing is free, the maximum is not reached and the new connection's Init does not return 0; nothing but that thread's position then changes |
| DBPool.AttemptGetsIff | src/http_svr/DBPool.cpp:329-358 | it returns a connection if and only if one is free or one below the maximum has an Init that returns 0: the first free one, or the new one, and no other thread changes |
| DBPool.CreatedBySuccess | src/http_svr/DBPool.cpp:309-350 | in every run each connection created was made by the pool's Init or by an attempt whose Init returned 0 |
| DBPool.LongestFreeFirst | src/http_svr/DBPool.cpp:352-372 | in every run the connection handed out is the one that has been free for longest |
| DBPool.AttemptKeepsCount | src/http_svr/DBPool.cpp:333-350 | the counter is the number created, at most the greater of 2 and the maximum |
| DBPool.BlocksOnlyAtCapacity | src/http_svr/DBPool.cpp:333-335 | a thread goes to wait only when nothing is free and the maximum is reached |
| DBPool.AttemptLosesNoWakeup | src/http_svr/DBPool.cpp:329-377 | while some thread waits, free connections are at most the signalled threads still on their way |
| DBPool.ReleaseLosesNoWakeup | src/http_svr/DBPool.cpp:360-377 | likewise, repeated releases included |
| DBPool.WakeUpLosesNoWakeup | src/core/Thread.h:50-64 | likewise under spurious wakeups |
| DBPool.EveryRun | src/http_svr/DBPool.cpp:286-377 | all of this in every run after a successful Init |
| DBPool.LentToOne | src/http_svr/DBPool.cpp:329-377 | no connection is lent twice, and none that is lent is free |
| DBPool.StuckOnlyWhenAllLent | src/http_svr/DBPool.cpp:329-377 | if a thread waits and no signalled one is on its way, every connection is with some thread |
| ThreadPool.WorkerThread.PushTask | src/core/ThreadPool.cpp:60-66 | appends and wakes the worker |
| ThreadPool.WorkerThread.TakeTask | src/core/ThreadPool.cpp:40-49 | takes the oldest, or waits on an empty list |
| ThreadPool.StepPlaces | src/core/ThreadPool.cpp:37-66 | every step keeps each number of places, except that AddTask puts its argument into one |
| ThreadPool.EveryRun | src/core/ThreadPool.cpp:37-111 | each one added is queued, running or finished at exactly one worker, in push order; a worker waits only with an empty list |
| ThreadPool.AsleepMeansDone | src/core/ThreadPool.cpp:37-111 | when all workers wait, each has been run exactly once and each worker ran what it was given in order |
| ThreadPool.RunsOut | src/core/ThreadPool.cpp:37-58 | without new ones and spurious wakeups a run is bounded, and it is stuck if and only if all workers wait |
| Sockets.BaseSocket.ReleaseRef | src/core/Util.cpp:30-45 | deletes the object when the count reaches zero |
| Sockets.Netlib.FindBaseSocket | src/core/BaseSocket.cpp:24-34 | a find adds one reference to a live socket |
| Sockets.Netlib.AddBaseSocket | src/core/BaseSocket.cpp:14-17 | enters a socket with its one reference under its descriptor |
| Sockets.Netlib.CloseSocket | src/core/BaseSocket.cpp:155-163 | leaves the table and gives up the table's reference; the caller's find keeps the object alive |
| Sockets.Netlib.NetlibSend | src/core/NetLib.cpp:73-83 | references are as before; error if unknown, not connected or failed, 0 if it would block |
| Sockets.Netlib.NetlibRecv | src/core/NetLib.cpp:85-94 | references are as before |
| Sockets.Netlib.NetlibClose | src/core/NetLib.cpp:96-105 | removes exactly this handle; an unknown one is an error |
| Sockets.Netlib.NetlibConnect | src/core/NetLib.cpp:56-71 | a new socket under a descriptor that was not in the table, or nothing |
| Sockets.Netlib.NetlibListen | src/core/NetLib.cpp:40-54 | likewise |
| Sockets.Netlib.Callback | src/core/BaseSocket.cpp:165-213 | a callback closes exactly the sockets whose handles it closes, and every find stays as it was |
| Sockets.Netlib.OnRead | src/core/BaseSocket.cpp:165-179 | runs on a live socket; each connection accepted comes into the table, connected, before its callback; closed is exactly what the callbacks since close |
| Sockets.Netlib.OnWrite | src/core/BaseSocket.cpp:181-207 | runs on a live socket; a connecting one becomes connected if and only if the error is 0, any other state is kept |
| Sockets.Netlib.ConnectAndSend | src/core/BaseSocket.cpp:181-207 | connect, EPOLLOUT, send: before the event the send is an error; after it, it sends if SO_ERROR was 0 and is an error if not |
| Sockets.StateAfterEvent | src/core/EventDispatch.cpp:333-365 | after an event a socket is closing if and only if it was or the event has a hang-up; connected if and only if it was, or was connecting and the event is writable with no error; else as before |
| Sockets.ExecutedMeans | src/core/EventDispatch.cpp:341-361 | which callbacks an event runs, by its flags and the state of its socket |
| Sockets.Netlib.OnClose | src/core/BaseSocket.cpp:209-213 | runs on a live socket, which is closing afterwards |
| Sockets.Netlib.DispatchEvent | src/core/EventDispatch.cpp:333-365 | every handler of the event finds the object alive, even after one that closed it; the event closes exactly what its callbacks close, changes the state of its socket alone, and does nothing for an unknown one |
| Sockets.Netlib.DispatchTurn | src/core/EventDispatch.cpp:333-368 | a turn handles each of its events, in order, and then runs the timers' and loop callbacks |
| Sockets.Netlib.StartDispatch | src/core/EventDispatch.cpp:324-370 | the turns are made, in order, until a callback stops the loop, each closing exactly what its callbacks close; over all runs: refcount one in the table and zero outside, deleted once exactly if closed, never used after; a nested call does nothing |
| HttpConns.HttpConn.Send | src/http_svr/HttpConn.cpp:151-173 | no byte is lost or reordered; closed if all was taken, else busy with the rest buffered |
| HttpConns.HttpConn.Close | src/http_svr/HttpConn.cpp:175-186 | leaves both indexes, closes the handle and gives up the reference; a second close changes nothing |
| HttpConns.HttpConn.OnConnect | src/http_svr/HttpConn.cpp:188-198 | the connection enters the index of handles |
| HttpConns.HttpConn.OnRead | src/http_svr/HttpConn.cpp:200-245 | what arrives is appended; a request without a handler is answered, after which the connection is closed if all was sent and busy if not |
| HttpConns.HttpConn.OnWrite | src/http_svr/HttpConn.cpp:247-267 | sends a prefix of the out buffer; closed exactly if it becomes empty |
| HttpConns.HttpConn.OnTimer | src/http_svr/HttpConn.cpp:274-280 | closes exactly after more than 120000 ms without a receive |
| HttpConns.HttpConn.OnWriteCompelete | src/http_svr/HttpConn.cpp:282-285 | reached only with an empty out buffer |
| HttpConns.HttpServer.IndexesAgree | src/http_svr/HttpConn.cpp:128-198 | under its uuid if and only if not closed, under its handle if and only if connected |
| HttpConns.HttpServer.NewConn | src/http_svr/HttpConn.cpp:128-144 | a new connection with the next uuid; the indexes go on agreeing if and only if no open connection has it; uuids stay unique until the allocator wraps |
| HttpConns.HttpServer.UnwrappedUuidIsFree | src/http_svr/HttpConn.cpp:136-140 | until then the next uuid is free |
| HttpConns.HttpServer.HttpCallback | src/http_svr/http_svr.cpp:18-26 | an accepted connection is under its handle, and the indexes go on agreeing under the same condition |
| HttpConns.HttpServer.AcceptAndClose | src/http_svr/HttpConn.cpp:128-186 | after a wrap, closing the newcomer leaves another open connection under no uuid |
| HttpConns.WrapHappens | src/http_svr/HttpConn.cpp:136-140 | a run that gets there from an empty server |
| HttpConns.HttpServer.HttpConnCallback | src/http_svr/HttpConn.cpp:30-56 | an event touches the connection with its uuid alone, nothing once that is closed; that one takes in, sends or closes as the message says |
| HttpConns.HttpConn.HandleMessage | src/http_svr/HttpConn.cpp:42-55 | what each message does to the connection |
| HttpConns.HttpServer.HttpConnTimerCallback | src/http_svr/HttpConn.cpp:58-71 | closes exactly the connections that are late, whatever the order of the map |
| HttpConns.HttpServer.AddResponse | src/http_svr/HttpConn.cpp:287-296 | queues at the end |
| HttpConns.HttpServer.HandleResponse | src/http_svr/HttpConn.cpp:306-314 | the open connection with its uuid gets its content; an empty one closes it, another one exactly if everything was sent; every other connection is left alone |
| HttpConns.HttpServer.SendResponseList | src/http_svr/HttpConn.cpp:298-324 | each response, those added meanwhile included, is dequeued once, in order; every connection gets the contents of those with its uuid up to the one that closes it, which is an empty one or one after which everything is sent, and one to which none is addressed is unchanged |
| HttpConns.HttpServer.HandleFront | src/http_svr/HttpConn.cpp:301-318 | one turn of the loop carries that on by the response dequeued |
| Timers.EventDispatch.AddTimer | src/core/EventDispatch.cpp:47-65 | updates the timer with the key in place or appends one; keys stay unique and timers on schedule |
| Timers.EventDispatch.RemoveTimer | src/core/EventDispatch.cpp:67-78 | removes the timer with the key |
| Timers.EventDispatch.CheckTimer | src/core/EventDispatch.cpp:80-93 | the pass with its iterator, callbacks and changes to the list is the specified pass, up to where it would follow a freed node; keys unique and timers on schedule afterwards |
| Timers.FireKeepsSchedule | src/core/EventDispatch.cpp:85-92 | firing moves the next tick on by one interval and counts one; next tick is registration + (fires + 1) * interval, and fires * interval has passed since |
| Timers.PassLeaves | src/core/EventDispatch.cpp:80-93 | of the list a pass leaves: a timer whose key no fired callback registers or removes is still there, with its next tick moved on by one interval for each time it fired and nothing else changed |
| Timers.PassAddsNone | src/core/EventDispatch.cpp:80-93 | and every such timer that is there was there before |
| Timers.FiresNotBeforeInterval | src/core/EventDispatch.cpp:80-93 | such a timer, fired in one pass, does not fire in a later pass before its next interval is over |
| Timers.DueMeans | src/core/EventDispatch.cpp:85 | a timer is due if and only if its next tick is not after the tick of the pass |
| Timers.AddedMeans | src/core/EventDispatch.cpp:47-65 | what a registration leaves in the list: a timer due after one interval under its key, in the place of the old one, and every other timer |
| Timers.RemovedHolds | src/core/EventDispatch.cpp:67-78 | a removal leaves exactly the timers with other keys |
| Timers.CheckedFires | src/core/EventDispatch.cpp:80-93 | due timers fire in list order, except those registered anew or removed by a callback before them |
| Timers.EachDueTimerOnceIff | src/core/EventDispatch.cpp:80-93 | only due timers fire, none twice; in a pass that follows no freed node each does if and only if no due one's callback registers or removes a later due one |
| Timers.RunDanglesIff | src/core/EventDispatch.cpp:67-90 | a callback leaves the iterator dangling if and only if it removes the timer the iterator points to |
| Timers.FollowsFreedIff | src/core/EventDispatch.cpp:80-93 | a pass follows a freed node if and only if that happens at some turn |
| Timers.OwnRemovalsAreSafe | src/core/EventDispatch.cpp:80-93 | callbacks that remove only their own timers never cause it |
| Timers.RemovedNextIsFollowed | src/core/EventDispatch.cpp:67-93 | two timers of which the first removes the second |
| Timers.GoesOnWhileDueAgain | src/core/EventDispatch.cpp:47-93 | two timers that register themselves anew for a tick not after that of the pass keep it going for as long as they do, with interval 0 as long as the clock has not passed that tick |
| Timers.RegisteredAnewIsSkipped | src/core/EventDispatch.cpp:47-93 | two due timers of which the second is skipped |
| Timers.DueAfterRun | src/core/EventDispatch.cpp:47-78 | a callback makes not due exactly the timers it registers or removes; the iterator stays where it is |
| Md5Rfc.PaddedLengthIsLeast | src/core/TokenValidator.cpp:79-80 | section 3.1 of RFC 1321: the padded length is the least legal one |
| Md5Rfc.PaddedAt | src/core/TokenValidator.cpp:82-86 | the message, a 1 bit, and zeros |
| Md5.LengthBytesMean | src/core/TokenValidator.cpp:88-91 | the last eight bytes are the number of bits modulo 2^64, low-order byte first |
| Md5Rfc.InitialBytes | src/core/TokenValidator.cpp:69-72 | section 3.3 of RFC 1321: the registers begin as 01 23 45 67, 89 ab cd ef, fe dc ba 98, 76 54 32 10 |
| Md5Rfc.FBit | src/core/TokenValidator.cpp:110-111 | section 3.4: in each bit position F is Y where X is 1, else Z |
| Md5Rfc.GBit | src/core/TokenValidator.cpp:113-114 | G is X where Z is 1, else Y |
| Md5Rfc.HBit | src/core/TokenValidator.cpp:116-117 | H is the parity of its arguments |
| Md5Rfc.IBit | src/core/TokenValidator.cpp:119-120 | I is Y exclusive or (X or not Z) |
| Md5Rfc.BlockWordsAt | src/core/TokenValidator.cpp:97-99 | the words of a block are four consecutive bytes each, low-order byte first |
| Md5.NewLength | src/core/TokenValidator.cpp:79-80 | the search loop finds it |
| Md5.LengthWords | src/core/TokenValidator.cpp:88-91 | the two words written are the halves of 8 * len modulo 2^64 |
| Md5.Pad | src/core/TokenValidator.cpp:82-91 | the buffer is the padded message of sections 3.1 and 3.2 |
| Md5.ReadWrittenWord | src/core/TokenValidator.cpp:40-54 | `to_int32` undoes `to_bytes` |
| Md5.RotateFormula | src/core/TokenValidator.cpp:37-38 | the shift formula is rotation by one bit, c times |
| Md5.ShiftedStepIsRenamedStep | src/core/TokenValidator.cpp:107-130 | moving the values between a, b, c, d is the RFC's renaming of the registers |
| Md5.IndexIsFormula | src/core/TokenValidator.cpp:110-122 | the formulas for g are the word indices the RFC lists |
| Md5.AmountsAreShifts | src/core/TokenValidator.cpp:31-35 | the table of amounts is the RFC's |
| Md5.Mix | src/core/TokenValidator.cpp:110-122 | f is the RFC's auxiliary function of the round |
| Md5.MainLoop | src/core/TokenValidator.cpp:107-130 | the loop performs the 64 operations of section 3.4 |
| Md5.Chunks | src/core/TokenValidator.cpp:93-138 | the outer loop processes every block |
| Md5.Md5 | src/core/TokenValidator.cpp:56-148 | the digest is that of sections 3.1 to 3.5, for every message |
| Md5Machines.RunIs | src/core/TokenValidator.cpp:107-130 | on the words of any machine whose operators agree with the numbers, n turns of the loop give the registers of the RFC after n operations, for every block |
| Md5Words.AddIs | src/core/TokenValidator.cpp:127 | adding 32-bit words is addition modulo 2^32 |
| Md5Words.TurnedIs | src/core/TokenValidator.cpp:37-38 | turning a 32-bit word by one bit n times is rotation by n |
| Md5Words.TurnedFast | src/core/TokenValidator.cpp:37-38 | LEFTROTATE with its two shifts is that |
| Md5Words.Machine32Reads | src/core/TokenValidator.cpp:56-148 | 32-bit words with their operators are such a machine |
| Md5Known.EmptyMessage | src/core/TokenValidator.cpp:56-148 | the digest of the empty message is d41d8cd98f00b204e9800998ecf8427e, as in appendix A.5 of RFC 1321 |
| Base36.IdToUrl | src/core/UtilPdu.cpp:300-319 | the digits of the wrapped value behind the version digit, inside the 64 bytes |
| Base36.UrlToId | src/core/UtilPdu.cpp:321-343 | the number from the second character on, modulo 2^32, other characters skipped |
| Base36.AtMostSeven | src/core/UtilPdu.cpp:311-314 | a 32-bit value has at most seven digits |
| Base36.DigitIsListed | src/core/UtilPdu.cpp:302 | the digits are those the source lists |
| Base36.UpperCaseToo | src/core/UtilPdu.cpp:333-334 | letters in upper case are the same digits |
| Base36.UrlIsPlain | src/core/UtilPdu.cpp:300-319 | a URL begins with 1, consists of digits and lower-case letters, and its number has no leading zero |
| Base36.FirstUrl | src/core/UtilPdu.cpp:300-319 | the URL of id 0 is 11k |
| Base36.NumberOfDigits | src/core/UtilPdu.cpp:311-340 | parsing the digits of a value gives the value |
| Base36.RoundTrip | src/core/UtilPdu.cpp:300-343 | decoding an encoded id gives id modulo 2^31 |
| Base36.SameUrlIff | src/core/UtilPdu.cpp:300-319 | two ids share a URL if and only if their low 31 bits agree |
| ReplaceMark.ReplaceMarkText | src/core/Util.cpp:209-220 | one replacement by the quoted text, with the position behind it |
| ReplaceMark.ReplaceMarkNumber | src/core/Util.cpp:222-235 | one replacement by the decimal number |
| ReplaceMark.DecimalIsNumeral | src/core/Util.cpp:222-226 | the number is written in decimal, without leading zeros |
| ReplaceMark.TextIsQuoted | src/core/Util.cpp:216 | a text stands between two quotes |
| ReplaceMark.InTurnIsAtOnce | src/core/Util.cpp:206-235 | replacing one after the other is simultaneous substitution, even if values contain marks |
| ReplaceMark.FillIn | src/core/Util.cpp:206-235 | a loop of calls over a list of values computes it |
| ReplaceMark.SurplusChangesNothing | src/core/Util.cpp:206-235 | values beyond the last mark change nothing |
| UrlCodec.URLEncode | src/core/Util.cpp:264-286 | letters and digits as they are, everything else escaped |
| UrlCodec.URLDecode | src/core/Util.cpp:288-305 | the decoding of every string; undefined only where the source reads outside it |
| UrlCodec.RoundTrip | src/core/Util.cpp:254-305 | every byte string survives, and decoding an encoding stays inside it |
| UrlCodec.DecodedEncoding | src/core/Util.cpp:254-305 | the same in front of any other text |
| UrlCodec.LeavesStringIff | src/core/Util.cpp:288-305 | decoding reads outside the string if and only if its last character is a '%' and all escapes before are complete |
| UrlCodec.LonePercent | src/core/Util.cpp:293-296 | a lone '%' does; a cut-off "%4" does not |
| UrlCodec.DecodedIsNoLonger | src/core/Util.cpp:288-305 | decoding never lengthens, and complete escapes always decode |
| UrlCodec.EncodedIsPlain | src/core/Util.cpp:264-286 | encodings use letters, digits and the percent sign only |
| UrlCodec.EscapedMeans | src/core/Util.cpp:254-286 | letters and digits encode to themselves, any other byte to a percent sign and its two upper-case hexadecimal digits |
| UrlCodec.PlainIsKept | src/core/Util.cpp:264-286 | a string of letters and digits encodes to itself |
| UrlCodec.PlusIsSpace | src/core/Util.cpp:297-298 | a plus sign decodes to a space, as %20 does |
| UrlCodec.EscapeDecodesIff | src/core/Util.cpp:259-296 | an escape of two hexadecimal digits decodes to the byte they stand for if and only if the second is not in lower case or the first has the bit of value 2 |
| UrlCodec.EscapeDecodes | src/core/Util.cpp:259-296 | otherwise to that byte and 32 |
| UrlCodec.LowerCaseEscape | src/core/Util.cpp:259-296 | %4a decodes to 0x6A |

## Left out

- System calls (socket, epoll, pthread, mysql, send, recv): any legal result, as parameters or nondeterministic choices. Only the epoll variant of the dispatcher is modelled.
- Generated protobuf code: `SetPBMsg` takes the serialised body as an arbitrary byte string.
- `imconn_callback` (src/core/ImConn.cpp:28-68): its unbraced conditions make it return early always; the handlers are driven directly. The header peek that only logs (src/core/ImConn.cpp:146-148) is left out too.
- A `CByteStream` over a `CSimpleBuffer`: its length is 0, so every read throws; only reads of a fixed buffer are modelled.
- `netlib_option`: its return on a null argument keeps the reference it found, so it is outside the reference count theorem.
- A second request on an HTTP connection, and the HTTP parser: what the parser makes of the input is a parameter.
- Exceptions thrown by `HandlePdu`: the only exception modelled is the zero-length one.
- Sizes and ticks beyond their 32- or 64-bit types: preconditions on buffer sizes, unbounded ticks and counters otherwise. The uuid allocator, `idtourl`, `urltoid` and `md5` wrap as in the source.
- ImPdus.IsPduAvailable: the length field is compared unsigned with the bytes present, as the source does; a frame whose length field is below 16 is accepted, as there.
- Logger.EveryRun: the interleaved steps are on values; `LogQueues` ties them to the heap queues for one thread at a time. Of a record its text is modelled, cut to the buffer and ended by a newline; level filtering, the time and level written before it, file rotation and reconnecting are not.
- DBPool.EveryRun, ThreadPool.EveryRun: threads and their locals are values; the shared objects are classes whose methods are the critical sections. Memory reclamation of connections and of finished CTask objects is not modelled.
- HttpConns.HttpConn.Send: the out buffer is the byte sequence that `SimpleBuffer` implements, not a second heap buffer.
- Timers.EventDispatch.CheckTimer: callbacks register timers for a tick after that of the pass, which holds of every positive interval and of interval 0 once the clock has moved on; what the source does with a freed node is not modelled beyond that it does. Timers are records in the list rather than heap nodes.
- ObjectPools.ObjectPool.GetObjectByPos: the pool holds fewer than 2^32 elements, as its size field is a 32-bit number.
- Sockets.Netlib.NetlibConnect: a descriptor that the kernel gives and takes back during a failed connect is not shown.
- Delivery.NextKeeps: the wire keeps order and contents, as TCP does; it may break at any point, after which what is sent is lost.
- Md5.Md5: that the 64 words of the sine table are those of the sine function is not derived; they are the RFC's, and the known answer is worked out with each of them. The message must fit a `size_t` together with its padding.
- The kqueue, select and Windows variants, `memfind`, `CStrExplode`, `genToken`, configuration files, server lists, the routing table and `HttpClient`: plumbing or easy members.
- Helpers such as `SendOnce`, `HandleOnce`, `Visit` or `PutBefore` are loop bodies of the source given a contract of their own.
