# Tcp_server and its Asio buffers, in Dafny

A TLS echo server and the byte machinery of the Asio headers it ships with, as a Dafny model with
proofs. `dafny verify dfyconfig.toml` checks everything.

**The connection protocol** (`Session`, `Server`, `ServerInvariant`, `ServerTheorems`,
`ServerProgress`, `ServerDeafness`, `ServerRuns`, `ServerSteps`, `TcpServer`). The control flow of `Tcp_server` lives in posted handlers and
completion lambdas that several worker threads execute. `Server` gives it as a step relation: a task
is a posted handler, an operation in flight, or the rest of a body on a worker. Bodies are cut after
every lock scope, atomic access and post, so every interleaving of two workers is a run. The
environment chooses the outcome of each operation. Its contracts are: an asynchronous read without
an error fills its buffer, because the default completion condition is transfer-all
(ext/asio/asio/completion_condition.hpp:45-55), and it leaves the bytes it did not receive as they
were; an operation completes once. `Session` states on its own, as a grammar over events, what one
client may go through. `TcpServer` is the class with its fields; each method is one stretch of a
handler body. It is proved equal to its step, to keep `Valid()` (the fields are those of a state of
some run, so the protocol invariant holds), and to leave what the next handler relies on.

**Buffers** (`Buffers`, `BufferCopy`, `BuffersIterator`). Memory is one address space and a buffer
is a range of it. `buffer_copy` is compared with one flat copy, `buffers_iterator` with an index
into the concatenation (section 27.2.7 of ISO C++17 on random access iterators).

**Queues** (`ByteQueue`, `StreamBuf`, `DynamicBuffer`, `BufferTraces`, `SocketStreamBuf`).
`basic_streambuf` and the dynamic string and vector buffers are compared with a bounded
first-in-first-out queue, the socket stream buffer with the two byte streams of its session.

Where the code does less than one would expect:

- A failed handshake still reaches the decrement of the unsigned connection counter. The counter
  equals the number of established clients exactly when no such shutdown happened (modulo 2^32), and
  one failed handshake can leave an idle server refusing connections for the rest of its run
  (`CounterConservation`, `OneFailedHandshakeDeafens`, `DeafForever`). With clients still being
  served, a server in back-off never accepts again exactly when every client number that they can
  still bring about is refused; as long as fewer than 2^32 - 100 handshakes fail, that is when the
  established and still handshaking clients are outnumbered by the shutdowns after failed handshakes
  (`DeafExactly`, `DeafWhenOutnumbered`).
- The message map is never erased, and ids are drawn again. A reply is the connection's own bytes and
  padding exactly when no earlier connection with its id stored anything; otherwise it begins with
  the stranger's bytes (`EchoesOnlyItsOwn`, and `EarlierBytesLeak` for a run in which it does).
- The blocking `future.get()` relies on first-in-first-out dispatch only when there is a single
  worker; with one worker and another dispatch order it deadlocks (`DeadlockExactlyWithOneWorker`).
- `basic_streambuf::reserve` moves memory before it throws, so a refused prepare can change the
  input sequence (`RefusalKeepsInput` says exactly when it cannot, `RefusalCorrupts` shows one that
  does).
- A flush of `basic_socket_streambuf` that fails halfway leaves the accepted bytes in the put area,
  so a retry sends them twice; and `close` reports the socket only, even when the flush before it
  failed (`FailedSync`, `RetryDuplicates`, `DuplicatedByte`, `Close`).
- A dynamic buffer over a container longer than its maximum reports the maximum as its size but shows
  the whole container as its data, until the first prepare (`DynamicBuffer.Size`).

## Model

| member | source | states |
|---|---|---|
| ServerTheorems.OneTaskPerClient | src/tcp_server.cc:69-221 | In every state of every run an id is active exactly when a handler or operation works for it, and then exactly one does |
| ServerTheorems.AssertsNeverFail | src/tcp_server.cc:71-73 | The asserts in shutdown_socket and on_write hold in every run |
| ServerTheorems.SingleListener | src/tcp_server.cc:51-123 | While not stopped exactly one task of the accept loop exists, afterwards none; at most one id is being drawn; connection_timeout's cancel never meets a live accept |
| ServerTheorems.StoppedByFailure | src/tcp_server.cc:59-66 | The listener disappears only after a failed accept or timer completion was handled |
| ServerTheorems.FailureStops | src/tcp_server.cc:116-119 | After such a failure no task of the accept loop ever exists again |
| ServerRuns.AcceptCanFail | src/tcp_server.cc:116-119 | A run in which an accept fails and no task is left |
| ServerTheorems.StoppedForGood | src/tcp_server.cc:87-123 | A stopped listener stays stopped for the rest of the run |
| ServerTheorems.InsertedIdIsSpare | src/tcp_server.cc:97-111 | The id inserted at accept is not active, although it was drawn in an earlier step under a lock since released |
| ServerTheorems.MessagesAreHistories | src/tcp_server.cc:152-160 | A map entry is the ordered concatenation of all buffers ever processed under its id; every history obeys the session grammar |
| ServerTheorems.EchoesWhatItReceived | src/tcp_server.cc:152-196 | The reply is the entry from before the connection joined, then everything it received, then only zero bytes, as many as its last read left of its buffer; that read ended with eof or no_permission and at least one byte |
| ServerTheorems.ReadsAreProcessed | src/tcp_server.cc:173-186 | In every history a read is stored whole, its bytes and then NULs, if and only if it brought a byte and its code is none, eof or no_permission; otherwise the shutdown follows |
| ServerRuns.TwoReadsAreEchoed | src/tcp_server.cc:152-196 | A run in which [1, 2] and then [3] with eof, into a buffer of three, are read, and [1, 2, 3, 0, 0] is sent |
| ServerTheorems.EchoesOnlyItsOwn | src/tcp_server.cc:152-164 | The reply is this connection's bytes and padding if and only if no earlier connection with its id stored anything |
| ServerRuns.EarlierBytesLeak | src/tcp_server.cc:152-164 | A run in which the second connection with an id receives [2] and is sent [1, 2] |
| ServerTheorems.SessionsAreOrderly | src/tcp_server.cc:127-186 | Per connection at most one write, no read after it, one shutdown after it whether it succeeds or fails, and at most one close |
| ServerTheorems.ReplyStringIsStable | src/tcp_server.cc:127-147 | From the start of async_write until on_write finishes no step of any handler changes that client's stored string |
| ServerTheorems.SharedSectionsOnlyRead | src/tcp_server.cc:132-164 | operator[] under the shared lock always finds its key, so the shared sections never change the map |
| ServerTheorems.CounterConservation | src/tcp_server.cc:84-91 | The counter is handshakes minus shutdowns modulo 2^32; it equals the established clients if and only if the shutdowns after failed handshakes are a multiple of 2^32 |
| ServerTheorems.ListenAcceptsExactly | src/tcp_server.cc:87-95 | listen goes on to accept if and only if established clients minus shutdowns after failed handshakes, modulo 2^32, are at most 100 |
| ServerTheorems.DeafWhenFailuresOutnumber | src/tcp_server.cc:87-95 | Whenever failed handshakes outnumber established clients, listen refuses to accept |
| ServerTheorems.DeafForever | src/tcp_server.cc:51-95 | From a state with only the back-off loop left and the counter above the limit, every later state of the run is such a state and no round of accepting begins |
| ServerDeafness.DeafExactly | src/tcp_server.cc:51-95 | From a reachable state in back-off no continuation accepts again if and only if the loop will not listen again, or listen refuses every net number of clients between the least and the greatest that the clients in service can bring about |
| ServerDeafness.DeafWhenOutnumbered | src/tcp_server.cc:84-95 | While fewer than 2^32 - 100 handshakes have failed or may fail: if and only if established and still handshaking clients, less one when every worker stands at a decrement, are outnumbered by the shutdowns after failed handshakes |
| ServerDeafness.BoundsCloseIn | src/tcp_server.cc:51-95 | Without a new round the least net number never falls and the greatest never rises |
| ServerDeafness.HopelessStep | src/tcp_server.cc:51-95 | Every step keeps a state from which no listen will accept |
| ServerDeafness.Lower | src/tcp_server.cc:69-85 | Every established, failed or undecided client can leave without a new round, lowering the net number by one |
| ServerDeafness.Raise | src/tcp_server.cc:206-221 | Every pending handshake can succeed without a new round, raising the net number by one |
| ServerDeafness.FreeWorker | src/tcp_server.cc:17-25 | A worker can be freed, at the cost of one client only when every worker stands at a decrement |
| ServerDeafness.Steer | src/tcp_server.cc:51-95 | Every net number between the bounds is reached without a new round |
| ServerDeafness.Relisten | src/tcp_server.cc:51-95 | The back-off loop comes round to a listen, which accepts |
| ServerProgress.FifoNeverDeadlocks | src/tcp_server.cc:97-122 | With first-in-first-out dispatch and at least one worker, while work is left some worker can take a step |
| ServerProgress.TwoWorkersNeverDeadlock | src/tcp_server.cc:97-122 | With two or more workers the same holds for every dispatch order |
| ServerProgress.OneWorkerCanDeadlock | src/tcp_server.cc:104-106 | One worker and another dispatch order reach a state in which no worker can ever step |
| ServerProgress.DeadlockExactlyWithOneWorker | include/tcp_server.h:76-79 | Under arbitrary dispatch a deadlock is reachable if and only if there is one worker |
| ServerProgress.FifoRunOrder | src/tcp_server.cc:99-122 | In every first-in-first-out run a posted id task precedes the accept that waits for it |
| ServerProgress.OneFailedHandshakeDeafens | src/tcp_server.cc:206-217 | A run with one failed handshake reaches the deaf state with the counter at 2^32 - 1 |
| ServerInvariant.StepPreserves | src/tcp_server.cc:51-221 | Every step of every handler, with every input of the environment, keeps the protocol invariant |
| ServerInvariant.RunInv | src/tcp_server.cc:10-33 | The invariant holds in every state of every run from one start |
| ServerInvariant.HistoryStep | src/tcp_server.cc:125-204 | A step of a client's chain keeps its history in the grammar and its map entry exact |
| ServerInvariant.CancelFindsNothing | src/tcp_server.cc:51-52 | Cancelling the acceptor in connection_timeout changes no task |
| ServerInvariant.CancelAborts | src/tcp_server.cc:51-52 | A cancel would complete every accept in flight with an error, and nothing else |
| Session.StoredKeepsUp | src/tcp_server.cc:152-160 | While a session reads, what it stored is what it received: nothing padded, lost or reordered |
| Session.WritePreamble | src/tcp_server.cc:162-180 | A write follows a read that ended the stream with at least one byte, and its store |
| Session.ProcessedExactly | src/tcp_server.cc:173-186 | Which reads a session stores and what of them, for every history that the grammar admits |
| Session.ReplyBytes | src/tcp_server.cc:173-196 | The bytes of a reply, for every history that the grammar admits |
| Session.OwnReply | src/tcp_server.cc:152-164 | The same equivalence for every history that the grammar admits |
| Session.OneWritePerSession | src/tcp_server.cc:162-168 | Between two writes, and between a write and a later read, the id was closed and joined again |
| Session.WriteThenShutdown | src/tcp_server.cc:127-147 | After a write starts it ends, one shutdown is posted, and the session closes |
| Session.OneClosePerSession | src/tcp_server.cc:69-74 | Two closes of an id are separated by a new join |
| TcpServer.TcpServer.constructor | include/tcp_server.h:76-79 | As many workers as threads were asked for, but at least one; everything empty, listen posted: the first state of a run |
| TcpServer.TcpServer.ListenHandler | src/tcp_server.cc:87-95 | The one task of the accept loop is then a decision to accept if and only if established clients minus shutdowns after failed handshakes, modulo 2^32, are at most max_connections |
| TcpServer.TcpServer.PostAfterDecision | src/tcp_server.cc:91-102 | No id was being drawn before; on acceptance exactly one is, for a round whose future is not ready; either way one task of the accept loop goes on |
| TcpServer.TcpServer.AsyncAccept | src/tcp_server.cc:122-122 | The accept is of the current round and the only task of the accept loop |
| TcpServer.TcpServer.ConnectionTimeoutHandler | src/tcp_server.cc:51-59 | The cancel aborts nothing: every other task keeps its place, and the timer is the only task of the accept loop |
| TcpServer.TcpServer.OnTimer | src/tcp_server.cc:59-66 | Listen is the only task of the accept loop again, or after an error no such task is left |
| TcpServer.TcpServer.GetRandomSpareId | src/tcp_server.cc:244-253 | Returns the first drawn id that is not active |
| TcpServer.TcpServer.BeginDraw | src/tcp_server.cc:100-100 | The id task is the only one, and its round is the current one without a future |
| TcpServer.TcpServer.FinishDraw | src/tcp_server.cc:99-100 | The future of the current round is set once, to an id that is not active, and no id task is left |
| TcpServer.TcpServer.OnConnectionAttempt | src/tcp_server.cc:104-120 | The accept was of the current round; the wait in get() is the only task of the accept loop, or after an error no such task is left |
| TcpServer.TcpServer.GetFuture | src/tcp_server.cc:106-106 | The id that get() returns is not active, although it was drawn in an earlier step |
| TcpServer.TcpServer.InsertClient | src/tcp_server.cc:108-111 | The inserted id was not active and no task worked for it; afterwards exactly the handshake post does |
| TcpServer.TcpServer.PostAfterInsert | src/tcp_server.cc:114-115 | The active client passes to its handshake task alone, and the accept loop goes on to post listen |
| TcpServer.TcpServer.PostListenAgain | src/tcp_server.cc:115-115 | Listen is the only task of the accept loop |
| TcpServer.TcpServer.Forward | src/tcp_server.cc:203-220 | The client is active, served by one task before and by one task after: the handshake, read_message or the wait for input |
| TcpServer.TcpServer.OnHandshake | src/tcp_server.cc:208-217 | The net number of clients rises by one exactly on success; one task goes on with the client, or shuts it down |
| TcpServer.TcpServer.OnReadWaitOver | src/tcp_server.cc:188-201 | The client is active and the message map untouched; one task reads available() bytes, or shuts the client down |
| TcpServer.TcpServer.OnRead | src/tcp_server.cc:173-186 | What arrived fits the buffer; if and only if it is at least a byte and the code is none, eof or no_permission, it is handed on as those bytes with only NULs behind them; otherwise the one task of the client shuts it down |
| TcpServer.TcpServer.StoreMessage | src/tcp_server.cc:152-160 | The entry of this client becomes everything ever stored under its id, and no other entry changes |
| TcpServer.TcpServer.Reply | src/tcp_server.cc:162-168 | The shared section finds the key and leaves the map alone; what is sent is everything ever stored under the id |
| TcpServer.TcpServer.OnWrite | src/tcp_server.cc:127-144 | The shared section finds the key and leaves the map alone; the entry is still what was sent |
| TcpServer.TcpServer.LogSentBytes | src/tcp_server.cc:138-146 | The unlocked read of the string logs exactly the bytes that were sent |
| TcpServer.TcpServer.EraseClient | src/tcp_server.cc:70-74 | The assert holds: the erased id was active; afterwards no task works for it |
| TcpServer.TcpServer.DropConnection | src/tcp_server.cc:84-84 | The net number of clients falls by one, whether or not the handshake had succeeded |
| TcpServer.TcpServer.ValidInv | src/tcp_server.cc:51-221 | A valid server satisfies the protocol invariant, and its counter is the net number of clients modulo 2^32 |
| ServerSteps.SoleIsUnique | src/tcp_server.cc:69-221 | Where one task alone plays a role, every task that plays it is this one, at one position |
| ServerSteps.ListenStep | src/tcp_server.cc:87-95 | The decision of listen, on the net number of clients of every reachable state |
| ServerSteps.TimeoutStep | src/tcp_server.cc:51-59 | connection_timeout leaves every other task in its place |
| ServerSteps.LoopStep | src/tcp_server.cc:59-122 | The accept loop passes to exactly one successor, or to none after an error |
| ServerSteps.DrawStep | src/tcp_server.cc:99-100 | The id task is the only one, works for the current round, and leaves a spare id |
| ServerSteps.InsertStep | src/tcp_server.cc:106-111 | The id in hand is spare and nothing works for it |
| ServerSteps.OwnerStep | src/tcp_server.cc:125-221 | An active client passes from its one task to the task of its next phase |
| ServerSteps.EraseStep | src/tcp_server.cc:69-74 | A closing client is active, and afterwards no task works for it |
| ServerSteps.CounterStep | src/tcp_server.cc:84-91 | The counter follows the net number of clients through every step |
| ServerSteps.StoreStep | src/tcp_server.cc:152-160 | A store makes one entry everything its id ever stored |
| ServerSteps.ReplyStep | src/tcp_server.cc:132-164 | A replying client finds its entry, which is what is sent, and changes no entry |
| ServerSteps.ReadFits | src/tcp_server.cc:188-198 | What arrived fits the read buffer, stands in front, and only NULs follow |
| ServerSteps.ReadCompletes | src/tcp_server.cc:192-196 | A read in flight holds no worker and completes with any bytes that fit and any code, provided it fills the buffer without an error; the handler gets exactly these and the history records them |
| ServerSteps.AcceptCompletes | src/tcp_server.cc:104-122 | An accept in flight completes with any code, which is what its handler gets |
| ServerSteps.TimerCompletes | src/tcp_server.cc:59-66 | The same for the timer |
| ServerSteps.HandshakeCompletes | src/tcp_server.cc:206-220 | The same for the handshake |
| ServerSteps.WaitCompletes | src/tcp_server.cc:188-203 | The same for the wait for input |
| ServerSteps.WriteCompletes | src/tcp_server.cc:127-164 | The same for the write, whose bytes stay what they were |
| Buffers.BufferSize | ext/asio/asio/buffer.hpp:551-572 | The total number of bytes of the sequence |
| BufferCopy.CopyOne | ext/asio/asio/buffer.hpp:2173-2183 | For ranges that do not overlap, moves exactly the lesser of the two sizes and changes nothing else |
| BufferCopy.CopyManyToMany | ext/asio/asio/buffer.hpp:2293-2339 | Terminates with min(target, source, limit) bytes copied, for every split with empty buffers anywhere |
| BufferCopy.CopyAllManyToMany | ext/asio/asio/buffer.hpp:2249-2291 | The same contract without a limit |
| BufferCopy.CopyOneToOne | ext/asio/asio/buffer.hpp:2185-2201 | The same contract on two singletons, with and without a limit |
| BufferCopy.CopyManyToOne | ext/asio/asio/buffer.hpp:2203-2224 | The same contract for one target and many sources |
| BufferCopy.CopyOneToMany | ext/asio/asio/buffer.hpp:2226-2247 | The same contract for many targets and one source |
| BufferCopy.CopyStep | ext/asio/asio/buffer.hpp:2307-2336 | One memcpy from where the copy stands in both sequences carries it forward by its bytes |
| BufferCopy.PiecesApart | ext/asio/asio/buffer.hpp:2359-2360 | Separate sequences never make a memcpy overlap |
| BufferCopy.FlatCopy | ext/asio/asio/buffer.hpp:2343-2361 | Flattened target afterwards is the first n source bytes followed by the old target from n on; the source is untouched |
| BufferCopy.OverloadsAgree | ext/asio/asio/buffer.hpp:2185-2339 | Overloads that meet the contract on the same sequences, with limits that promise the same count, return that count and leave the same memory |
| BufferCopy.OneToOneAgrees | ext/asio/asio/buffer.hpp:2185-2201 | On equal memories the overload for two single buffers and the general one return the same count and leave equal memories, with or without a limit |
| BufferCopy.ManyToOneAgrees | ext/asio/asio/buffer.hpp:2203-2224 | The same for one target, whose default limit is the largest size_t |
| BufferCopy.OneToManyAgrees | ext/asio/asio/buffer.hpp:2226-2247 | The same for one source |
| BuffersIterator.CanonicalIsLocate | ext/asio/asio/buffers_iterator.hpp:167-203 | A location is canonical for a position if and only if it is where a search from the front finds that position |
| BuffersIterator.CanonicalUnique | ext/asio/asio/buffers_iterator.hpp:348-351 | Equal positions mean equal locations |
| BuffersIterator.WalkComposes | ext/asio/asio/buffers_iterator.hpp:256-301 | Steps add up, and going back by the same distance undoes them |
| BuffersIterator.ByteAt | ext/asio/asio/buffers_iterator.hpp:341-345 | The byte at a location is byte `position` of the concatenation |
| BuffersIterator.Iterator.Begin | ext/asio/asio/buffers_iterator.hpp:167-184 | Canonical at position 0, behind leading empty buffers |
| BuffersIterator.Iterator.End | ext/asio/asio/buffers_iterator.hpp:187-203 | Canonical at the total size |
| BuffersIterator.Iterator.Increment | ext/asio/asio/buffers_iterator.hpp:354-374 | One step forward; the assertion fires exactly at the end |
| BuffersIterator.Iterator.Decrement | ext/asio/asio/buffers_iterator.hpp:377-404 | One step back; the assertion fires exactly at the beginning |
| BuffersIterator.Iterator.Advance | ext/asio/asio/buffers_iterator.hpp:407-485 | Reaches what single steps reach, for every distance of either sign; an assertion fires if and only if the distance leaves the sequence |
| BuffersIterator.Iterator.AdvanceForward | ext/asio/asio/buffers_iterator.hpp:409-441 | The forward loop, over empty buffers too |
| BuffersIterator.Iterator.AdvanceBackward | ext/asio/asio/buffers_iterator.hpp:442-484 | The backward loop; its inner assertion is never reached |
| BuffersIterator.Iterator.FindPrevious | ext/asio/asio/buffers_iterator.hpp:468-482 | Finds the last non-empty buffer before the current one |
| BuffersIterator.Iterator.Copy | ext/asio/asio/buffers_iterator.hpp:218-222 | A copy stands at the same position of the same sequence |
| BuffersIterator.Iterator.Dereference | ext/asio/asio/buffers_iterator.hpp:341-345 | Byte `position` of the concatenation |
| BuffersIterator.Iterator.Equal | ext/asio/asio/buffers_iterator.hpp:348-351 | Comparing positions decides equality of location |
| BuffersIterator.Iterator.DistanceTo | ext/asio/asio/buffers_iterator.hpp:488-491 | The number of single steps to the other iterator |
| BuffersIterator.Iterator.Subscript | ext/asio/asio/buffers_iterator.hpp:218-223 | Byte position + n of the concatenation, without moving |
| ByteQueue.FirstInFirstOut | ext/asio/asio/basic_streambuf.hpp:37-69 | Along every trace the queue is everything written without the front taken out |
| ByteQueue.Bounded | ext/asio/asio/basic_streambuf.hpp:62-68 | size() <= max_size() along every trace |
| ByteQueue.SameObservations | ext/asio/asio/buffer.hpp:1611-1618 | Buffers that observe the reference queue on a trace show the same inputs and throw at the same step |
| StreamBuf.RefusalKeepsInput | ext/asio/asio/basic_streambuf.hpp:321-341 | A refused prepare keeps every input of a given length if and only if nothing, or at least that length, was consumed since the last shift to the front |
| StreamBuf.RefusalCorrupts | ext/asio/asio/basic_streambuf.hpp:321-341 | A buffer of at most 10 bytes from which one of [1, 2, 3] was consumed shows [3, 3] instead of [2, 3] after a refused prepare(20) |
| StreamBuf.StreamBuf.constructor | ext/asio/asio/basic_streambuf.hpp:131-141 | An empty queue with the given maximum and a put area of 128 bytes, or of the maximum if that is less |
| StreamBuf.StreamBuf.Reserve | ext/asio/asio/basic_streambuf.hpp:308-346 | Throws if and only if size() + n > max_size(); otherwise keeps the queue through shift and regrowth and makes room |
| StreamBuf.StreamBuf.Prepare | ext/asio/asio/basic_streambuf.hpp:214-219 | A region of n bytes behind the unchanged queue, or a throw under the same condition with the exact input it leaves |
| StreamBuf.StreamBuf.Commit | ext/asio/asio/basic_streambuf.hpp:233-238 | Appends the first bytes of the prepared region |
| StreamBuf.StreamBuf.Consume | ext/asio/asio/basic_streambuf.hpp:247-254 | Drops min(n, size) bytes from the front |
| StreamBuf.StreamBuf.Underflow | ext/asio/asio/basic_streambuf.hpp:263-274 | Shows the front, or end of file for an empty queue |
| StreamBuf.StreamBuf.MakeRoom | ext/asio/asio/basic_streambuf.hpp:287-298 | A full put area gets room for 128 bytes, or for all that the maximum allows, with the queue kept, if and only if size() < max_size() |
| StreamBuf.StreamBuf.Overflow | ext/asio/asio/basic_streambuf.hpp:283-306 | Appends one byte; throws if and only if the put area is full and size() = max_size(), and then keeps the queue |
| StreamBuf.StreamBuf.Put | ext/asio/asio/basic_streambuf.hpp:283-306 | One character through the put area or overflow is appended; refused if and only if the put area is full and size() = max_size() |
| StreamBuf.StreamBuf.Get | ext/asio/asio/basic_streambuf.hpp:263-274 | One character through the get area or underflow leaves the front of the queue |
| StreamBuf.StreamBuf.ReadSize | ext/asio/asio/basic_streambuf.hpp:353-359 | Never more than fits or is wanted, zero only when nothing fits or nothing is wanted; stopped by neither, at least 512 bytes and the rest of the capacity; above 512, never past the capacity |
| StreamBuf.StreamBuf.PrepareForRead | ext/asio/asio/basic_streambuf.hpp:353-359 | Preparing what read_size_helper returns never throws |
| DynamicBuffer.DynamicBuffer.constructor | ext/asio/asio/buffer.hpp:1571-1580 | Existing data, of any length, is the input sequence (string; vector at 1839-1848) |
| DynamicBuffer.DynamicBuffer.Size | ext/asio/asio/buffer.hpp:1611-1618 | size() is the length of data() if and only if the buffer was prepared or the container does not exceed the maximum; otherwise it is the maximum |
| DynamicBuffer.DynamicBuffer.Prepare | ext/asio/asio/buffer.hpp:1714-1728 | Throws if and only if size() + n > max_size(); the input is kept either way (string; vector at 1987-2001) |
| DynamicBuffer.DynamicBuffer.Commit | ext/asio/asio/buffer.hpp:1743-1747 | Appends from the output sequence and discards the rest of it (string; vector at 2016-2020) |
| DynamicBuffer.DynamicBuffer.Consume | ext/asio/asio/buffer.hpp:1792-1804 | Drops min(n, length) bytes, before and after the first prepare; the vector (2065-2077) drops min(n, size()) |
| BufferTraces.RunStreamBuf | ext/asio/asio/basic_streambuf.hpp:214-306 | basic_streambuf observes the reference queue along every trace of prepare, write, commit, consume, single puts and gets |
| BufferTraces.RunDynamic | ext/asio/asio/buffer.hpp:1714-1804 | Either dynamic buffer observes the reference queue along every trace |
| BufferTraces.BuffersAgree | ext/asio/asio/buffer.hpp:1543-1580 | The three buffers show the same input after every operation and throw at the same step |
| SocketStreamBuf.SocketStreamBuf.InitBuffers | ext/asio/asio/basic_socket_streambuf.hpp:566-576 | Empty areas at the start of a session, in the mode in force |
| SocketStreamBuf.SocketStreamBuf.Underflow | ext/asio/asio/basic_socket_streambuf.hpp:414-466 | Receives only into an empty get area, so no unread byte is overwritten; the get area is then exactly what the first answer that is not a retry delivered, and the error is that answer's |
| SocketStreamBuf.SocketStreamBuf.Receive | ext/asio/asio/basic_socket_streambuf.hpp:424-464 | The receive loop returns all bytes of the first answer that is not a retry, or no bytes and its error: end of file, timeout, failure or failed poll |
| SocketStreamBuf.SocketStreamBuf.Get | ext/asio/asio/basic_socket_streambuf.hpp:414-446 | Bytes delivered followed by the get area are the bytes received, which grow by exactly what the socket delivered |
| SocketStreamBuf.SocketStreamBuf.Send | ext/asio/asio/basic_socket_streambuf.hpp:490-523 | Whatever partial sends, retries, errors and empty sends occur, exactly a prefix of the bytes is accepted, in order and once |
| SocketStreamBuf.FlushedExactly | ext/asio/asio/basic_socket_streambuf.hpp:490-523 | What a flush gets through is the sum of what the answers take before the first one that neither takes nor asks for a retry, up to the size; its error is that answer's, or none if all was taken |
| SocketStreamBuf.SocketStreamBuf.Overflow | ext/asio/asio/basic_socket_streambuf.hpp:468-540 | Bytes accepted followed by the put area are the bytes written, in both modes, up to the first failed flush |
| SocketStreamBuf.SocketStreamBuf.Sync | ext/asio/asio/basic_socket_streambuf.hpp:542-545 | Flushes the put area or leaves it as it was |
| SocketStreamBuf.SocketStreamBuf.Put | ext/asio/asio/basic_socket_streambuf.hpp:525-538 | With room in the put area the character goes there and nothing is sent; otherwise the put area is sent first and the character follows; if it is refused, only bytes of the put area were accepted |
| SocketStreamBuf.SocketStreamBuf.Refill | ext/asio/asio/basic_socket_streambuf.hpp:435-446 | Received bytes fill the empty get area behind the putback characters |
| SocketStreamBuf.SocketStreamBuf.constructor | ext/asio/asio/basic_socket_streambuf.hpp:192-208 | A buffered stream with empty areas |
| SocketStreamBuf.SocketStreamBuf.SetUnbuffered | ext/asio/asio/basic_socket_streambuf.hpp:547-558 | Unbuffered mode if and only if the put area is empty |
| SocketStreamBuf.SocketStreamBuf.Close | ext/asio/asio/basic_socket_streambuf.hpp:299-306 | Reports the socket's close only, whatever part of the put area the flush before it got to the peer |
| SocketStreamBuf.SocketStreamBuf.FailedSync | ext/asio/asio/basic_socket_streambuf.hpp:515-522 | After a failed flush the conservation law holds if and only if no send took a byte before the failure; the bytes still owed are the put area behind the accepted ones |
| SocketStreamBuf.SocketStreamBuf.RetryDuplicates | ext/asio/asio/basic_socket_streambuf.hpp:485-527 | A retry sends the accepted part of a failed flush a second time, and that part is not empty if and only if a send took a byte before the failure |
| SocketStreamBuf.NothingTaken | ext/asio/asio/basic_socket_streambuf.hpp:490-523 | A flush accepts nothing if and only if the first answer that is not a retry takes nothing |
| SocketStreamBuf.DuplicatedByte | ext/asio/asio/basic_socket_streambuf.hpp:485-527 | A peer that is sent 7 and 8, with a flush that fails after one byte and a retry, receives 7, 7, 8 |
| SocketStreamBuf.SendAll | ext/asio/asio/basic_socket_streambuf.hpp:468-558 | A whole writing session in either mode: the peer has exactly the data, or a prefix of it after the first failure; nothing fails while every answer takes something or asks for a retry |
| SocketStreamBuf.PartialSends | ext/asio/asio/basic_socket_streambuf.hpp:508-511 | Two bytes sent one at a time, with a retry between them, both arrive |
| SocketStreamBuf.ReceiveSome | ext/asio/asio/basic_socket_streambuf.hpp:414-466 | A whole reading session: the reader has the bytes of the socket's data answers up to the end of the session, concatenated, up to the count asked for |
| SocketStreamBuf.LoopAdvances | ext/asio/asio/basic_socket_streambuf.hpp:424-464 | A receive loop passes over retries only, to the next data or to the end of the session |
| SocketStreamBuf.ReceiveExample | ext/asio/asio/basic_socket_streambuf.hpp:435-446 | [5, 6], a retry, [7] and the end of the stream: the reader gets 5, 6, 7 |

## Left out

- TLS, certificates, opening and binding the acceptor and the operating system's sockets: outcomes
  chosen by the environment, under the contracts above.
- Server shutdown, a restart, a failed TLS set-up and exceptions that escape handlers, such as a
  throwing available(): one successful start is modelled.
- The order in which io_context dispatches is not derived from its scheduler. The safety theorems
  allow every order; FifoNeverDeadlocks takes first-in-first-out as its definition of a run.
- The redraw loop ends because the stream of draws contains a spare id; the generator's distribution
  is not modelled. The progress theorems take it that not all 2^64 ids are active.
- The allocator: containers grow without limit, and no container has 2^64 - 1 elements, so the
  initial size_ of the dynamic buffers is a separate value.
- The operations of DynamicBuffer_v2 (data with a position, grow, shrink).
- BuffersIterator.Iterator.Advance: distances and sizes are unbounded integers, where the source takes
  a ptrdiff_t and casts each buffer's size to one; sizes of 2^63 or more are not modelled.
- Counts beyond the range of int in pbump and gbump, stated as preconditions of Commit and Consume.
- Moving a socket stream buffer, connecting it, its clock and its putback characters.
- Logging, main.cc and the declared but undefined respond.
- The other Asio headers: forwarding wrappers, templates and declarations.
