/**
 The handlers of Tcp_server as methods that update its fields, one method for each stretch of a
 body between two points where another worker may interleave. Each is proved to be its step of the
 Server module, so every theorem about runs is about this code; to keep the protocol invariant; and
 to leave what the next handler relies on.
 */
module TcpServer {
  import opened Bytes
  import opened Session
  import opened Server
  import opened ServerInvariant
  import opened ServerSteps

  class TcpServer {
    const workers: nat
    var tasks: seq<Task>
    var activeClientIds: set<ClientId>
    var receivedMessages: map<ClientId, seq<Byte>>
    var activeConnections: Counter
    var rounds: nat
    var futures: map<nat, ClientId>

    ghost var history: map<ClientId, History>
    ghost var assertsHeld: bool
    ghost var stopped: bool
    ghost var handshakes: nat
    ghost var drops: nat
    ghost var failedDrops: nat

    ghost function Model(): State
      reads this
    {
      State(workers, tasks, activeClientIds, receivedMessages, activeConnections, rounds, futures,
            history, assertsHeld, stopped, handshakes, drops, failedDrops)
    }

    /** The fields are those of some state of a run, whatever the interleaving. */
    ghost predicate Valid()
      reads this
    {
      Reachable(workers, Model())
    }

    /** So they satisfy the protocol invariant, and the counter shows the net number of clients. */
    lemma ValidInv()
      requires Valid()
      ensures Inv(Model()) && activeConnections == Net(Model()) % COUNTER_RANGE
    {
      ReachableInv(workers, Model());
      InvBalanced(Model());
    }

    /** The constructor and start: the thread count is raised to the minimum, and listen is posted. */
    constructor (threadCount: nat)
      ensures Valid() && Model() == Init(workers)
      ensures workers == if threadCount == 0 then 1 else threadCount
    {
      workers := Max(threadCount, 1);
      tasks := [Loop(Listen)];
      activeClientIds, receivedMessages, activeConnections := {}, map[], 0;
      rounds, futures := 0, map[];
      history, assertsHeld, stopped := map[], true, false;
      handshakes, drops, failedDrops := 0, 0, 0;
      new;
      assert Run(workers, [Model()]);
    }

    ghost predicate At(i: nat, t: Task, c: Choice)
      reads this
    {
      Enabled(Model(), i, c) && tasks[i] == t
    }

    /** All buffers ever stored under an id, in order. */
    ghost function Stored(id: ClientId): seq<Byte>
      reads this
    {
      StoredBytes(HistoryOf(Model(), id))
    }

    /** The history with one more event of a client. */
    ghost function With(id: ClientId, e: Event): map<ClientId, History>
      reads this
    {
      history[id := (if id in history then history[id] else []) + [e]]
    }

    // ---- the accept loop ----

    method ListenHandler(i: nat, ghost c: Choice)
      requires Valid() && At(i, Loop(Listen), c)
      modifies this
      ensures Model() == Next(old(Model()), i, c)
      ensures Valid()
      ensures Sole(Listens, Loop(Decided(old(Admits(Net(Model()))))), tasks)
    {
      ghost var s := Model();
      tasks := tasks[..i] + tasks[i + 1..] + [Loop(Decided(!(activeConnections > MAX_CONNECTIONS)))];
      assert Model() == Next(s, i, c);
      ReachableStep(workers, s, i, c);
      ListenStep(s, i, c);
    }

    method PostAfterDecision(i: nat, open: bool, ghost c: Choice)
      requires Valid() && At(i, Loop(Decided(open)), c)
      modifies this
      ensures Model() == Next(old(Model()), i, c)
      ensures Valid()
      ensures Tally(Draws, old(tasks)) == 0 && Tally(Draws, tasks) == if open then 1 else 0
      ensures open ==> rounds !in futures
      ensures Sole(Listens, if open then Loop(StartAccept(rounds)) else Loop(ConnectionTimeout), tasks)
    {
      ghost var s := Model();
      tasks := tasks[..i] + tasks[i + 1..];
      if open {
        rounds := rounds + 1;
        tasks := tasks + [Draw(rounds, false), Loop(StartAccept(rounds))];
      } else {
        tasks := tasks + [Loop(ConnectionTimeout)];
      }
      assert Model() == Next(s, i, c);
      AfterDecision(s, i, c, open, Model());
    }

    method AsyncAccept(i: nat, k: nat, ghost c: Choice)
      requires Valid() && At(i, Loop(StartAccept(k)), c)
      modifies this
      ensures Model() == Next(old(Model()), i, c)
      ensures Valid()
      ensures k == rounds && Sole(Listens, Loop(Accepting(k)), tasks)
    {
      ghost var s := Model();
      tasks := tasks[..i] + tasks[i + 1..] + [Loop(Accepting(k))];
      assert Model() == Next(s, i, c);
      ReachableStep(workers, s, i, c);
      RoundIsCurrent(s, i);
      LoopStep(s, i, c);
    }

    /** The cancel aborts nothing: every other task is still there, in its place. */
    method ConnectionTimeoutHandler(i: nat, ghost c: Choice)
      requires Valid() && At(i, Loop(ConnectionTimeout), c)
      modifies this
      ensures Model() == Next(old(Model()), i, c)
      ensures Valid()
      ensures tasks == old(tasks)[..i] + old(tasks)[i + 1..] + [Loop(Timer)] && Sole(Listens, Loop(Timer), tasks)
    {
      ghost var s := Model();
      tasks := CancelAccepts(tasks[..i] + tasks[i + 1..]) + [Loop(Timer)];
      assert Model() == Next(s, i, c);
      ReachableStep(workers, s, i, c);
      TimeoutStep(s, i, c);
      LoopStep(s, i, c);
    }

    method OnTimer(i: nat, code: ErrorCode, ghost c: Choice)
      requires Valid() && At(i, Loop(TimerExpired(code)), c)
      modifies this
      ensures Model() == Next(old(Model()), i, c)
      ensures Valid()
      ensures code.Success? ==> Sole(Listens, Loop(Listen), tasks)
      ensures !code.Success? ==> stopped && Tally(Listens, tasks) == 0
    {
      ghost var s := Model();
      tasks := tasks[..i] + tasks[i + 1..];
      if code.Success? {
        tasks := tasks + [Loop(Listen)];
      } else {
        stopped := true;
      }
      assert Model() == Next(s, i, c);
      ReachableStep(workers, s, i, c);
      LoopStep(s, i, c);
    }

    /**
     get_random_spare_id: redraw until the id is not active. The generator is a stream of draws
     that contains a spare id somewhere; the result is the first spare one.
     */
    method GetRandomSpareId(draws: nat -> ClientId, ghost spare: nat) returns (id: ClientId, ghost k: nat)
      requires draws(spare) !in activeClientIds
      ensures id == draws(k) && id !in activeClientIds
      ensures forall j: nat :: j < k ==> draws(j) in activeClientIds
    {
      k := 0;
      var n := 0;
      id := draws(0);
      while id in activeClientIds
        invariant n == k <= spare && id == draws(n)
        invariant forall j: nat :: j < k ==> draws(j) in activeClientIds
        decreases spare - n
      {
        n := n + 1;
        k := n;
        id := draws(n);
      }
    }

    method BeginDraw(i: nat, k: nat, ghost c: Choice)
      requires Valid() && At(i, Draw(k, false), c)
      modifies this
      ensures Model() == Next(old(Model()), i, c)
      ensures Valid()
      ensures k == rounds && k !in futures && Sole(Draws, Draw(k, true), tasks)
    {
      ghost var s := Model();
      tasks := tasks[..i] + tasks[i + 1..] + [Draw(k, true)];
      assert Model() == Next(s, i, c);
      ReachableStep(workers, s, i, c);
      DrawStep(s, i, c);
    }

    method FinishDraw(i: nat, k: nat, draws: nat -> ClientId, ghost spare: nat) returns (c: Choice)
      requires Valid() && i < |tasks| && tasks[i] == Draw(k, true) && draws(spare) !in activeClientIds
      modifies this
      ensures Enabled(old(Model()), i, c) && Model() == Next(old(Model()), i, c)
      ensures Valid()
      ensures k !in old(futures) && k in futures && futures[k] !in activeClientIds && Tally(Draws, tasks) == 0
    {
      ghost var s := Model();
      var id, _ := GetRandomSpareId(draws, spare);
      c := Choice(Success, id, 0, []);
      futures := futures[k := id];
      tasks := tasks[..i] + tasks[i + 1..];
      assert Model() == Next(s, i, c);
      ReachableStep(workers, s, i, c);
      DrawStep(s, i, c);
    }

    method OnConnectionAttempt(i: nat, k: nat, code: ErrorCode, ghost c: Choice)
      requires Valid() && At(i, Loop(Accepted(k, code)), c)
      modifies this
      ensures Model() == Next(old(Model()), i, c)
      ensures Valid()
      ensures k == rounds
      ensures code.Success? ==> Sole(Listens, Loop(AwaitId(k)), tasks)
      ensures !code.Success? ==> stopped && Tally(Listens, tasks) == 0
    {
      ghost var s := Model();
      tasks := tasks[..i] + tasks[i + 1..];
      if code.Success? {
        tasks := tasks + [Loop(AwaitId(k))];
      } else {
        stopped := true;
      }
      assert Model() == Next(s, i, c);
      AfterAccept(s, i, c, k, code, Model());
    }

    /** future.get(): enabled only once the id task has finished. The id was drawn earlier and is still spare. */
    method GetFuture(i: nat, k: nat, ghost c: Choice) returns (id: ClientId)
      requires Valid() && At(i, Loop(AwaitId(k)), c)
      modifies this
      ensures Model() == Next(old(Model()), i, c)
      ensures Valid()
      ensures id !in activeClientIds && Sole(Listens, Loop(InsertId(k, id)), tasks)
    {
      ghost var s := Model();
      id := futures[k];
      tasks := tasks[..i] + tasks[i + 1..] + [Loop(InsertId(k, id))];
      assert Model() == Next(s, i, c);
      ReachableStep(workers, s, i, c);
      RoundIsCurrent(s, i);
      LoopStep(s, i, c);
    }

    method InsertClient(i: nat, k: nat, id: ClientId, ghost c: Choice)
      requires Valid() && At(i, Loop(InsertId(k, id)), c)
      modifies this
      ensures Model() == Next(old(Model()), i, c)
      ensures Valid()
      ensures id !in old(activeClientIds) && Tally(Owns(id), old(tasks)) == 0
      ensures id in activeClientIds && Sole(Owns(id), Loop(PostHandshake(id)), tasks)
    {
      ghost var s := Model();
      InsertNext(s, i, c, k, id);
      activeClientIds := activeClientIds + {id};
      history := With(id, Joined);
      tasks := tasks[..i] + tasks[i + 1..] + [Loop(PostHandshake(id))];
      assert Model() == Next(s, i, c);
      ReachableStep(workers, s, i, c);
      InsertStep(s, i, c, id);
    }

    method PostAfterInsert(i: nat, id: ClientId, ghost c: Choice)
      requires Valid() && At(i, Loop(PostHandshake(id)), c)
      modifies this
      ensures Model() == Next(old(Model()), i, c)
      ensures Valid()
      ensures id in activeClientIds && Sole(Owns(id), Client(id, AttemptHandshake), tasks)
      ensures Sole(Listens, Loop(PostListen), tasks)
    {
      ghost var s := Model();
      tasks := tasks[..i] + tasks[i + 1..] + [Client(id, AttemptHandshake), Loop(PostListen)];
      assert Model() == Next(s, i, c);
      ReachableStep(workers, s, i, c);
      HandOverStep(s, i, c, id);
      LoopStep(s, i, c);
    }

    method PostListenAgain(i: nat, ghost c: Choice)
      requires Valid() && At(i, Loop(PostListen), c)
      modifies this
      ensures Model() == Next(old(Model()), i, c)
      ensures Valid()
      ensures Sole(Listens, Loop(Listen), tasks)
    {
      ghost var s := Model();
      tasks := tasks[..i] + tasks[i + 1..] + [Loop(Listen)];
      assert Model() == Next(s, i, c);
      ReachableStep(workers, s, i, c);
      LoopStep(s, i, c);
    }

    // ---- the chain of one client ----

    /** Bodies that only post the next handler or start the next operation. */
    method Forward(i: nat, id: ClientId, p: Phase, ghost c: Choice)
      requires Valid() && At(i, Client(id, p), c) && (p.AttemptHandshake? || p.StartReading? || p.ReadMessage?)
      modifies this
      ensures Model() == Next(old(Model()), i, c)
      ensures Valid()
      ensures id in activeClientIds && Tally(Owns(id), old(tasks)) == 1
      ensures p.AttemptHandshake? ==> Sole(Owns(id), Client(id, Handshaking), tasks)
      ensures p.StartReading? ==> Sole(Owns(id), Client(id, ReadMessage), tasks)
      ensures p.ReadMessage? ==> Sole(Owns(id), Client(id, WaitingRead), tasks)
    {
      ghost var s := Model();
      var next := if p.AttemptHandshake? then Handshaking else if p.StartReading? then ReadMessage else WaitingRead;
      tasks := tasks[..i] + tasks[i + 1..] + [Client(id, next)];
      assert Model() == Next(s, i, c);
      ReachableStep(workers, s, i, c);
      OwnerStep(s, i, c, id);
    }

    method OnHandshake(i: nat, id: ClientId, code: ErrorCode, ghost c: Choice)
      requires Valid() && At(i, Client(id, HandshakeDone(code)), c)
      modifies this
      ensures Model() == Next(old(Model()), i, c)
      ensures Valid()
      ensures Net(Model()) == old(Net(Model())) + if code.Success? then 1 else 0
      ensures Sole(Owns(id), Client(id, if code.Success? then StartReading else ShutdownSocket(false)), tasks)
    {
      ghost var s := Model();
      HandshakeNext(s, i, c, id, code);
      tasks := tasks[..i] + tasks[i + 1..];
      if code.Success? {
        activeConnections := Increment(activeConnections);
        handshakes := handshakes + 1;
        history := With(id, HandshakeOk);
        tasks := tasks + [Client(id, StartReading)];
      } else {
        history := With(id, ShutdownPosted);
        tasks := tasks + [Client(id, ShutdownSocket(false))];
      }
      assert Model() == Next(s, i, c);
      AfterHandshake(s, i, c, id, code, Model());
    }

    method OnReadWaitOver(i: nat, id: ClientId, code: ErrorCode, available: nat, ghost c: Choice)
      requires Valid() && At(i, Client(id, ReadReady(code)), c) && c.size == available
      modifies this
      ensures Model() == Next(old(Model()), i, c)
      ensures Valid()
      ensures id in activeClientIds && receivedMessages == old(receivedMessages)
      ensures Sole(Owns(id), Client(id, if code.Success? then Reading(available) else ShutdownSocket(true)), tasks)
    {
      ghost var s := Model();
      ReadWaitNext(s, i, c, id, code);
      tasks := tasks[..i] + tasks[i + 1..];
      if code.Success? {
        history := With(id, ReadStarted(available));
        tasks := tasks + [Client(id, Reading(available))];
      } else {
        history := With(id, ShutdownPosted);
        tasks := tasks + [Client(id, ShutdownSocket(true))];
      }
      assert Model() == Next(s, i, c);
      AfterReadWait(s, i, c, id, code, Model());
    }

    /** on_read: the whole buffer is handed on, the bytes that arrived and then NULs. */
    method OnRead(i: nat, id: ClientId, size: nat, data: seq<Byte>, code: ErrorCode, ghost c: Choice)
      requires Valid() && At(i, Client(id, ReadDone(size, data, code)), c)
      modifies this
      ensures Model() == Next(old(Model()), i, c)
      ensures Valid()
      ensures |data| <= size
      ensures var p := if |data| > 0 && code != OtherError then ProcessMessage(data + Zeros(size - |data|), code)
                       else ShutdownSocket(true);
              Sole(Owns(id), Client(id, p), tasks)
    {
      ghost var s := Model();
      ReadNext(s, i, c, id, size, data, code);
      tasks := tasks[..i] + tasks[i + 1..];
      if ValidMessage(data, code) {
        tasks := tasks + [Client(id, ProcessMessage(Padded(size, data), code))];
      } else {
        history := With(id, ShutdownPosted);
        tasks := tasks + [Client(id, ShutdownSocket(true))];
      }
      assert Model() == Next(s, i, c);
      AfterRead(s, i, c, id, size, data, code, Model());
    }

    /** process_message, first part: under the exclusive lock. */
    method StoreMessage(i: nat, id: ClientId, content: seq<Byte>, code: ErrorCode, ghost c: Choice)
      requires Valid() && At(i, Client(id, ProcessMessage(content, code)), c)
      modifies this
      ensures Model() == Next(old(Model()), i, c)
      ensures Valid()
      ensures receivedMessages == old(receivedMessages)[id := Stored(id)]
      ensures Sole(Owns(id), Client(id, StartReply(code)), tasks)
    {
      ghost var s := Model();
      StoreNext(s, i, c, id, content, code);
      if id in receivedMessages {
        receivedMessages := receivedMessages[id := receivedMessages[id] + content];
      } else {
        receivedMessages := receivedMessages[id := content];
      }
      history := With(id, Event.Stored(code, content));
      tasks := tasks[..i] + tasks[i + 1..] + [Client(id, StartReply(code))];
      assert Model() == Next(s, i, c);
      AfterStore(s, i, c, id, content, code, Model());
    }

    /** process_message, second part: start the reply under the shared lock, or read on. */
    method Reply(i: nat, id: ClientId, code: ErrorCode, ghost c: Choice)
      requires Valid() && At(i, Client(id, StartReply(code)), c)
      modifies this
      ensures Model() == Next(old(Model()), i, c)
      ensures Valid()
      ensures receivedMessages == old(receivedMessages) && Lookup(receivedMessages, id) == Some(Stored(id))
      ensures Sole(Owns(id), Client(id, if code.Success? then ReadMessage else Writing(Stored(id))), tasks)
    {
      ghost var s := Model();
      ReplyNext(s, i, c, id, code);
      tasks := tasks[..i] + tasks[i + 1..];
      if !code.Success? {
        receivedMessages := Touched(receivedMessages, id);
        history := With(id, WriteStarted(receivedMessages[id]));
        tasks := tasks + [Client(id, Writing(receivedMessages[id]))];
      } else {
        tasks := tasks + [Client(id, ReadMessage)];
      }
      assert Model() == Next(s, i, c);
      AfterReply(s, i, c, id, code, Model());
    }

    /** on_write, first part: the lookup under the shared lock, and the assert after it. */
    method OnWrite(i: nat, id: ClientId, bytes: seq<Byte>, code: ErrorCode, ghost c: Choice)
      requires Valid() && At(i, Client(id, WriteDone(bytes, code)), c)
      modifies this
      ensures Model() == Next(old(Model()), i, c)
      ensures Valid()
      ensures receivedMessages == old(receivedMessages) && Lookup(receivedMessages, id) == Some(bytes)
      ensures bytes == Stored(id)
      ensures Sole(Owns(id), Client(id, if code.Success? then LogReply(bytes) else ShutdownSocket(true)), tasks)
    {
      ghost var s := Model();
      WriteNext(s, i, c, id, bytes, code);
      tasks := tasks[..i] + tasks[i + 1..];
      if code.Success? {
        receivedMessages := Touched(receivedMessages, id);
        assert id in receivedMessages;
        tasks := tasks + [Client(id, LogReply(bytes))];
      } else {
        history := With(id, ShutdownPosted);
        tasks := tasks + [Client(id, ShutdownSocket(true))];
      }
      assert Model() == Next(s, i, c);
      AfterWrite(s, i, c, id, bytes, code, Model());
    }

    /** on_write, second part: the unlocked read of the stored string for the log finds what was sent. */
    method LogSentBytes(i: nat, id: ClientId, bytes: seq<Byte>, ghost c: Choice) returns (logged: seq<Byte>)
      requires Valid() && At(i, Client(id, LogReply(bytes)), c)
      modifies this
      ensures Model() == Next(old(Model()), i, c)
      ensures Valid()
      ensures logged == bytes == Stored(id)
      ensures Sole(Owns(id), Client(id, ShutdownSocket(true)), tasks)
    {
      ghost var s := Model();
      ReplyStep(s, i, c, id);
      logged := receivedMessages[id];
      history := With(id, ShutdownPosted);
      tasks := tasks[..i] + tasks[i + 1..] + [Client(id, ShutdownSocket(true))];
      assert Model() == Next(s, i, c);
      ReachableStep(workers, s, i, c);
      OwnerStep(s, i, c, id);
    }

    /** shutdown_socket, first part: the assert and the erase, under the exclusive lock. */
    method EraseClient(i: nat, id: ClientId, established: bool, ghost c: Choice)
      requires Valid() && At(i, Client(id, ShutdownSocket(established)), c)
      modifies this
      ensures Model() == Next(old(Model()), i, c)
      ensures Valid()
      ensures id in old(activeClientIds) && id !in activeClientIds && Tally(Owns(id), tasks) == 0
    {
      ghost var s := Model();
      EraseNext(s, i, c, id, established);
      EraseStep(s, i, c, id);
      assert id in activeClientIds;
      activeClientIds := activeClientIds - {id};
      history := With(id, Closed);
      tasks := tasks[..i] + tasks[i + 1..] + [Drop(established)];
      assert Model() == Next(s, i, c);
      ReachableStep(workers, s, i, c);
    }

    /** shutdown_socket, last part: --m_active_connections on an unsigned 32-bit atomic. */
    method DropConnection(i: nat, established: bool, ghost c: Choice)
      requires Valid() && At(i, Drop(established), c)
      modifies this
      ensures Model() == Next(old(Model()), i, c)
      ensures Valid()
      ensures Net(Model()) == old(Net(Model())) - 1
    {
      ghost var s := Model();
      activeConnections := Decrement(activeConnections);
      drops := drops + 1;
      failedDrops := if established then failedDrops else failedDrops + 1;
      tasks := tasks[..i] + tasks[i + 1..];
      assert Model() == Next(s, i, c);
      AfterDrop(s, i, c, established, Model());
    }
  }
}
