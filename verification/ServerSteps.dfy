/** What one step of a handler can rely on and what it leaves to the rest of the server. */
module ServerSteps {
  import opened Bytes
  import opened Session
  import opened Server
  import opened ServerInvariant

  /** t is the one task of ts that plays the role. */
  ghost predicate Sole(r: Role, t: Task, ts: seq<Task>) {
    t in ts && Plays(r, t) && Tally(r, ts) == 1
  }

  /** Where one task alone plays a role, it stands at one position only. */
  lemma SoleIsUnique(r: Role, t: Task, ts: seq<Task>, i: nat, j: nat)
    requires Sole(r, t, ts) && i < |ts| && j < |ts| && Plays(r, ts[i]) && Plays(r, ts[j])
    ensures i == j && ts[i] == t
  {
    var k :| 0 <= k < |ts| && ts[k] == t;
    if i != j { TallyPair(r, ts, i, j); }
    if i != k { TallyPair(r, ts, i, k); }
  }

  /** Established clients less shutdowns after failed handshakes: what the counter shows modulo 2^32. */
  function Net(s: State): int {
    Tally(Past, s.tasks) - s.failedDrops
  }

  /** The guard of listen, on that difference. */
  predicate Admits(net: int) {
    net % COUNTER_RANGE <= MAX_CONNECTIONS
  }

  /** The counter is the number of established clients less the shutdowns after failed handshakes. */
  predicate Balanced(s: State) {
    s.connections == Net(s) % COUNTER_RANGE
  }

  lemma InvBalanced(s: State)
    requires Reachable(s.workers, s)
    ensures Balanced(s)
  {
    ReachableInv(s.workers, s);
    assert Tally(Past, s.tasks) - s.failedDrops == s.handshakes - s.drops;
  }

  lemma ListenStep(s: State, i: nat, c: Choice)
    requires Reachable(s.workers, s) && Enabled(s, i, c) && s.tasks[i] == Loop(Listen)
    ensures Sole(Listens, Loop(Decided(Admits(Net(s)))), Next(s, i, c).tasks)
  {
    InvBalanced(s);
    LoopStep(s, i, c);
  }

  /** Connection_timeout's cancel leaves every other task in its place. */
  lemma TimeoutStep(s: State, i: nat, c: Choice)
    requires Reachable(s.workers, s) && Enabled(s, i, c) && s.tasks[i] == Loop(ConnectionTimeout)
    ensures Next(s, i, c).tasks == s.tasks[..i] + s.tasks[i + 1..] + [Loop(Timer)]
  {
    ReachableInv(s.workers, s);
    CancelFindsNothing(s, i);
  }

  /** A task of the accept loop hands the listener's place to its last successor, or gives it up on an error. */
  lemma LoopStep(s: State, i: nat, c: Choice)
    requires Reachable(s.workers, s) && Enabled(s, i, c) && s.tasks[i].Loop?
    ensures var left, s' := Spawn(s, s.tasks[i], c), Next(s, i, c);
      if Stops(s.tasks[i]) then s'.stopped && Tally(Listens, s'.tasks) == 0
      else |left| > 0 && Sole(Listens, left[|left| - 1], s'.tasks)
  {
    ReachableInv(s.workers, s);
    TallyAt(Listens, s.tasks, i);
    LoopPreserved(s, i, c);
  }

  /** While listen decides, no id is being drawn; when it opens, one is, for a round without a future. */
  lemma AfterDecision(s: State, i: nat, c: Choice, open: bool, s': State)
    requires Reachable(s.workers, s) && Step(s, i, c, s') && s.tasks[i] == Loop(Decided(open))
    ensures Reachable(s'.workers, s')
    ensures Tally(Draws, s.tasks) == 0 && Tally(Draws, s'.tasks) == if open then 1 else 0
    ensures open ==> s'.round !in s'.futures
    ensures Sole(Listens, if open then Loop(StartAccept(s'.round)) else Loop(ConnectionTimeout), s'.tasks)
  {
    ReachableStep(s.workers, s, i, c);
    ReachableInv(s.workers, s);
    assert TaskOk(s, s.tasks[i]);
    LoopPreserved(s, i, c);
    LoopStep(s, i, c);
  }

  /** An accept, its completion and the wait in get() are of the current round. */
  lemma RoundIsCurrent(s: State, i: nat)
    requires Reachable(s.workers, s) && i < |s.tasks| && s.tasks[i].Loop?
    ensures var l := s.tasks[i].loop;
      (l.StartAccept? || l.Accepting? || l.Accepted? || l.AwaitId? || l.InsertId?) ==>
        l.round == s.round && (s.round in s.futures ==> s.futures[s.round] !in s.ids)
  {
    ReachableInv(s.workers, s);
    assert TaskOk(s, s.tasks[i]);
  }

  /** The id task is the only one, works for the current round, and leaves a spare id behind. */
  lemma DrawStep(s: State, i: nat, c: Choice)
    requires Reachable(s.workers, s) && Enabled(s, i, c) && s.tasks[i].Draw?
    ensures var t, s' := s.tasks[i], Next(s, i, c);
      && t.round == s.round && t.round !in s.futures && Tally(Draws, s.tasks) == 1
      && (!t.begun ==> Sole(Draws, Draw(t.round, true), s'.tasks))
      && (t.begun ==> Tally(Draws, s'.tasks) == 0 && t.round in s'.futures && s'.futures[t.round] !in s'.ids)
  {
    ReachableInv(s.workers, s);
    assert TaskOk(s, s.tasks[i]);
    TallyAt(Draws, s.tasks, i);
    LoopPreserved(s, i, c);
  }

  /** The id in hand is spare, nothing works for it, and after the insertion the accept loop does. */
  lemma InsertStep(s: State, i: nat, c: Choice, id: ClientId)
    requires Reachable(s.workers, s) && Enabled(s, i, c)
    requires s.tasks[i].Loop? && s.tasks[i].loop.InsertId? && s.tasks[i].loop.id == id
    ensures id !in s.ids && Tally(Owns(id), s.tasks) == 0
    ensures Sole(Owns(id), Loop(PostHandshake(id)), Next(s, i, c).tasks)
  {
    ReachableInv(s.workers, s);
    assert TaskOk(s, s.tasks[i]) && Owned(s, id);
    OwnershipPreserved(s, i, c, id);
  }

  /** The handshake task takes an active client over from the accept loop. */
  lemma HandOverStep(s: State, i: nat, c: Choice, id: ClientId)
    requires Reachable(s.workers, s) && Enabled(s, i, c) && s.tasks[i] == Loop(PostHandshake(id))
    ensures id in s.ids && Sole(Owns(id), Client(id, AttemptHandshake), Next(s, i, c).tasks)
  {
    ReachableInv(s.workers, s);
    OwnerActive(s, i);
    OwnershipPreserved(s, i, c, id);
    assert Next(s, i, c).tasks[|s.tasks| - 1] == Client(id, AttemptHandshake);
  }

  /** An active client passes from its one task to the task of its next phase. */
  lemma OwnerStep(s: State, i: nat, c: Choice, id: ClientId)
    requires Reachable(s.workers, s) && Enabled(s, i, c)
    requires s.tasks[i].Client? && s.tasks[i].id == id && !s.tasks[i].phase.ShutdownSocket?
    ensures id in s.ids && Tally(Owns(id), s.tasks) == 1
    ensures Sole(Owns(id), Client(id, NextPhase(s.tasks[i].phase, c, Lookup(s.messages, id))), Next(s, i, c).tasks)
  {
    ReachableInv(s.workers, s);
    OwnerActive(s, i);
    assert Owned(s, id);
    OwnershipPreserved(s, i, c, id);
  }

  /** A closing client is active, and afterwards no task works for it. */
  lemma EraseStep(s: State, i: nat, c: Choice, id: ClientId)
    requires Reachable(s.workers, s) && Enabled(s, i, c)
    requires s.tasks[i].Client? && s.tasks[i].id == id && s.tasks[i].phase.ShutdownSocket?
    ensures id in s.ids && Tally(Owns(id), Next(s, i, c).tasks) == 0
  {
    ReachableInv(s.workers, s);
    OwnerActive(s, i);
    OwnershipPreserved(s, i, c, id);
  }

  /** How a step moves the number of established clients, which the counter follows. */
  lemma CounterStep(s: State, i: nat, c: Choice)
    requires Reachable(s.workers, s) && Enabled(s, i, c)
    ensures var t, s' := s.tasks[i], Next(s, i, c);
      && Balanced(s')
      && Tally(Past, s'.tasks)
         == Tally(Past, s.tasks) + (if Counts(t) then 1 else 0) - (if t == Drop(true) then 1 else 0)
  {
    ReachableInv(s.workers, s);
    TallyNext(Past, s, i, c);
    PastBalance(s, s.tasks[i], c);
    ReachableStep(s.workers, s, i, c);
    InvBalanced(Next(s, i, c));
  }

  /** A store makes the entry of its client all it ever stored; other clients keep theirs. */
  lemma StoreStep(s: State, i: nat, c: Choice, id: ClientId)
    requires Reachable(s.workers, s) && Enabled(s, i, c)
    requires s.tasks[i].Client? && s.tasks[i].id == id && s.tasks[i].phase.ProcessMessage?
    ensures Next(s, i, c).messages == s.messages[id := StoredBytes(HistoryOf(Next(s, i, c), id))]
  {
    ReachableInv(s.workers, s);
    ClientPreserved(s, i, c, id);
    ClientFrame(s, i, c, id);
  }

  /** A replying client finds its entry: everything it ever stored, which is what is sent. */
  lemma ReplyStep(s: State, i: nat, c: Choice, id: ClientId)
    requires Reachable(s.workers, s) && Enabled(s, i, c) && s.tasks[i].Client? && s.tasks[i].id == id
    requires s.tasks[i].phase.StartReply? || Replying(s.tasks[i].phase)
    ensures Next(s, i, c).messages == s.messages
    ensures Lookup(s.messages, id) == Some(StoredBytes(HistoryOf(Next(s, i, c), id)))
    ensures Replying(s.tasks[i].phase) ==> Lookup(s.messages, id) == Some(s.tasks[i].phase.bytes)
  {
    ReachableInv(s.workers, s);
    assert TaskOk(s, s.tasks[i]);
    ClientPreserved(s, i, c, id);
    ClientFrame(s, i, c, id);
  }

  /** The buffer of a completed read: what arrived fits, stands in front, and only NULs follow. */
  lemma ReadFits(s: State, i: nat, id: ClientId, size: nat, data: seq<Byte>, code: ErrorCode)
    requires Reachable(s.workers, s) && i < |s.tasks| && s.tasks[i] == Client(id, ReadDone(size, data, code))
    ensures |data| <= size && Padded(size, data) == data + Zeros(size - |data|)
    ensures code.Success? ==> Padded(size, data) == data
  {
    ReachableInv(s.workers, s);
    var h := HistoryOf(s, id);
    assert TaskOk(s, s.tasks[i]) && ClientOk(s, id);
    assert Linked(h, |h| - 1);
  }

  // ---- completions: what the environment answers is what the handler gets ----

  /** An accept holds no worker and completes, with any code; its handler gets that code. */
  lemma AcceptCompletes(s: State, i: nat, k: nat, c: Choice)
    requires Reachable(s.workers, s) && i < |s.tasks| && s.tasks[i] == Loop(Accepting(k))
    ensures Enabled(s, i, c) && !Plays(Busy, s.tasks[i])
    ensures Sole(Listens, Loop(Accepted(k, c.code)), Next(s, i, c).tasks)
  {
    LoopStep(s, i, c);
  }

  lemma TimerCompletes(s: State, i: nat, c: Choice)
    requires Reachable(s.workers, s) && i < |s.tasks| && s.tasks[i] == Loop(Timer)
    ensures Enabled(s, i, c) && !Plays(Busy, s.tasks[i])
    ensures Sole(Listens, Loop(TimerExpired(c.code)), Next(s, i, c).tasks)
  {
    LoopStep(s, i, c);
  }

  lemma HandshakeCompletes(s: State, i: nat, id: ClientId, c: Choice)
    requires Reachable(s.workers, s) && i < |s.tasks| && s.tasks[i] == Client(id, Handshaking)
    ensures Enabled(s, i, c) && !Plays(Busy, s.tasks[i])
    ensures Sole(Owns(id), Client(id, HandshakeDone(c.code)), Next(s, i, c).tasks)
    ensures HistoryOf(Next(s, i, c), id) == HistoryOf(s, id)
  {
    OwnerStep(s, i, c, id);
  }

  lemma WaitCompletes(s: State, i: nat, id: ClientId, c: Choice)
    requires Reachable(s.workers, s) && i < |s.tasks| && s.tasks[i] == Client(id, WaitingRead)
    ensures Enabled(s, i, c) && !Plays(Busy, s.tasks[i])
    ensures Sole(Owns(id), Client(id, ReadReady(c.code)), Next(s, i, c).tasks)
    ensures HistoryOf(Next(s, i, c), id) == HistoryOf(s, id)
  {
    OwnerStep(s, i, c, id);
  }

  /**
   A read completes with any bytes that fit its buffer and any code, as long as it fills the buffer
   when there is no error; the handler gets, and the history records, exactly these.
   */
  lemma ReadCompletes(s: State, i: nat, id: ClientId, size: nat, c: Choice)
    requires Reachable(s.workers, s) && i < |s.tasks| && s.tasks[i] == Client(id, Reading(size))
    ensures !Plays(Busy, s.tasks[i])
    ensures Enabled(s, i, c) <==> |c.data| <= size && (c.code == Success ==> |c.data| == size)
    ensures Enabled(s, i, c) ==>
              && Sole(Owns(id), Client(id, ReadDone(size, c.data, c.code)), Next(s, i, c).tasks)
              && HistoryOf(Next(s, i, c), id) == HistoryOf(s, id) + [ReadEnded(size, c.data, c.code)]
              && Next(s, i, c).messages == s.messages
  {
    if Enabled(s, i, c) { OwnerStep(s, i, c, id); }
  }

  lemma WriteCompletes(s: State, i: nat, id: ClientId, bytes: seq<Byte>, c: Choice)
    requires Reachable(s.workers, s) && i < |s.tasks| && s.tasks[i] == Client(id, Writing(bytes))
    ensures Enabled(s, i, c) && !Plays(Busy, s.tasks[i])
    ensures Sole(Owns(id), Client(id, WriteDone(bytes, c.code)), Next(s, i, c).tasks)
    ensures HistoryOf(Next(s, i, c), id) == HistoryOf(s, id) + [WriteEnded(c.code)]
  {
    OwnerStep(s, i, c, id);
  }

  /** A posted handler or a completion can be taken up whenever a worker is free. */
  lemma QueuedCanStart(s: State, i: nat, c: Choice)
    requires i < |s.tasks| && Queued(s.tasks[i]) && Tally(Busy, s.tasks) < s.workers
    ensures Enabled(s, i, c)
  {
  }

  // ---- what the branching handlers leave behind ----

  lemma AfterAccept(s: State, i: nat, c: Choice, k: nat, code: ErrorCode, s': State)
    requires Reachable(s.workers, s) && Step(s, i, c, s') && s.tasks[i] == Loop(Accepted(k, code))
    ensures Reachable(s'.workers, s') && k == s'.round
    ensures code.Success? ==> Sole(Listens, Loop(AwaitId(k)), s'.tasks)
    ensures !code.Success? ==> s'.stopped && Tally(Listens, s'.tasks) == 0
  {
    ReachableStep(s.workers, s, i, c);
    RoundIsCurrent(s, i);
    LoopStep(s, i, c);
  }

  lemma AfterHandshake(s: State, i: nat, c: Choice, id: ClientId, code: ErrorCode, s': State)
    requires Reachable(s.workers, s) && Step(s, i, c, s') && s.tasks[i] == Client(id, HandshakeDone(code))
    ensures Reachable(s'.workers, s') && Net(s') == Net(s) + if code.Success? then 1 else 0
    ensures Sole(Owns(id), Client(id, if code.Success? then StartReading else ShutdownSocket(false)), s'.tasks)
  {
    ReachableStep(s.workers, s, i, c);
    CounterStep(s, i, c);
    OwnerStep(s, i, c, id);
  }

  lemma AfterReadWait(s: State, i: nat, c: Choice, id: ClientId, code: ErrorCode, s': State)
    requires Reachable(s.workers, s) && Step(s, i, c, s') && s.tasks[i] == Client(id, ReadReady(code))
    ensures Reachable(s'.workers, s') && id in s'.ids
    ensures Sole(Owns(id), Client(id, if code.Success? then Reading(c.size) else ShutdownSocket(true)), s'.tasks)
  {
    ReachableStep(s.workers, s, i, c);
    OwnerStep(s, i, c, id);
  }

  lemma AfterRead(s: State, i: nat, c: Choice, id: ClientId, size: nat, data: seq<Byte>, code: ErrorCode, s': State)
    requires Reachable(s.workers, s) && Step(s, i, c, s') && s.tasks[i] == Client(id, ReadDone(size, data, code))
    ensures Reachable(s'.workers, s')
    ensures |data| <= size
    ensures var p := if |data| > 0 && code != OtherError then ProcessMessage(data + Zeros(size - |data|), code)
                     else ShutdownSocket(true);
            Sole(Owns(id), Client(id, p), s'.tasks)
  {
    ReachableStep(s.workers, s, i, c);
    OwnerStep(s, i, c, id);
    ReadFits(s, i, id, size, data, code);
  }

  lemma AfterStore(s: State, i: nat, c: Choice, id: ClientId, content: seq<Byte>, code: ErrorCode, s': State)
    requires Reachable(s.workers, s) && Step(s, i, c, s') && s.tasks[i] == Client(id, ProcessMessage(content, code))
    ensures Reachable(s'.workers, s')
    ensures s'.messages == s.messages[id := StoredBytes(HistoryOf(s', id))]
    ensures Sole(Owns(id), Client(id, StartReply(code)), s'.tasks)
  {
    ReachableStep(s.workers, s, i, c);
    StoreStep(s, i, c, id);
    OwnerStep(s, i, c, id);
  }

  lemma AfterReply(s: State, i: nat, c: Choice, id: ClientId, code: ErrorCode, s': State)
    requires Reachable(s.workers, s) && Step(s, i, c, s') && s.tasks[i] == Client(id, StartReply(code))
    ensures Reachable(s'.workers, s') && s'.messages == s.messages
    ensures Lookup(s'.messages, id) == Some(StoredBytes(HistoryOf(s', id)))
    ensures Sole(Owns(id), Client(id, if code.Success? then ReadMessage
                                      else Writing(StoredBytes(HistoryOf(s', id)))), s'.tasks)
  {
    ReachableStep(s.workers, s, i, c);
    ReplyStep(s, i, c, id);
    OwnerStep(s, i, c, id);
  }

  lemma AfterWrite(s: State, i: nat, c: Choice, id: ClientId, bytes: seq<Byte>, code: ErrorCode, s': State)
    requires Reachable(s.workers, s) && Step(s, i, c, s') && s.tasks[i] == Client(id, WriteDone(bytes, code))
    ensures Reachable(s'.workers, s') && s'.messages == s.messages
    ensures Lookup(s'.messages, id) == Some(bytes) && bytes == StoredBytes(HistoryOf(s', id))
    ensures Sole(Owns(id), Client(id, if code.Success? then LogReply(bytes) else ShutdownSocket(true)), s'.tasks)
  {
    ReachableStep(s.workers, s, i, c);
    ReplyStep(s, i, c, id);
    OwnerStep(s, i, c, id);
  }

  lemma AfterDrop(s: State, i: nat, c: Choice, established: bool, s': State)
    requires Reachable(s.workers, s) && Step(s, i, c, s') && s.tasks[i] == Drop(established)
    ensures Reachable(s'.workers, s') && Net(s') == Net(s) - 1
  {
    ReachableStep(s.workers, s, i, c);
    CounterStep(s, i, c);
  }

  // ---- the steps with the most fields, spelled out ----

  lemma InsertNext(s: State, i: nat, c: Choice, k: nat, id: ClientId)
    requires Enabled(s, i, c) && s.tasks[i] == Loop(InsertId(k, id))
    ensures Next(s, i, c) == s.(
      tasks := s.tasks[..i] + s.tasks[i + 1..] + [Loop(PostHandshake(id))],
      ids := s.ids + {id},
      history := s.history[id := (if id in s.history then s.history[id] else []) + [Joined]])
  {
  }

  lemma HandshakeNext(s: State, i: nat, c: Choice, id: ClientId, code: ErrorCode)
    requires Enabled(s, i, c) && s.tasks[i] == Client(id, HandshakeDone(code))
    ensures Next(s, i, c) == if code.Success? then s.(
      tasks := s.tasks[..i] + s.tasks[i + 1..] + [Client(id, StartReading)],
      history := s.history[id := (if id in s.history then s.history[id] else []) + [HandshakeOk]],
      connections := Increment(s.connections),
      handshakes := s.handshakes + 1)
      else s.(
      tasks := s.tasks[..i] + s.tasks[i + 1..] + [Client(id, ShutdownSocket(false))],
      history := s.history[id := (if id in s.history then s.history[id] else []) + [ShutdownPosted]])
  {
  }

  lemma ReadWaitNext(s: State, i: nat, c: Choice, id: ClientId, code: ErrorCode)
    requires Enabled(s, i, c) && s.tasks[i] == Client(id, ReadReady(code))
    ensures Next(s, i, c) == if code.Success? then s.(
      tasks := s.tasks[..i] + s.tasks[i + 1..] + [Client(id, Reading(c.size))],
      history := s.history[id := (if id in s.history then s.history[id] else []) + [ReadStarted(c.size)]])
      else s.(
      tasks := s.tasks[..i] + s.tasks[i + 1..] + [Client(id, ShutdownSocket(true))],
      history := s.history[id := (if id in s.history then s.history[id] else []) + [ShutdownPosted]])
  {
  }

  lemma ReadNext(s: State, i: nat, c: Choice, id: ClientId, size: nat, data: seq<Byte>, code: ErrorCode)
    requires Enabled(s, i, c) && s.tasks[i] == Client(id, ReadDone(size, data, code))
    ensures Next(s, i, c) == if ValidMessage(data, code) then s.(
      tasks := s.tasks[..i] + s.tasks[i + 1..] + [Client(id, ProcessMessage(Padded(size, data), code))])
      else s.(
      tasks := s.tasks[..i] + s.tasks[i + 1..] + [Client(id, ShutdownSocket(true))],
      history := s.history[id := (if id in s.history then s.history[id] else []) + [ShutdownPosted]])
  {
  }

  lemma StoreNext(s: State, i: nat, c: Choice, id: ClientId, content: seq<Byte>, code: ErrorCode)
    requires Enabled(s, i, c) && s.tasks[i] == Client(id, ProcessMessage(content, code))
    ensures Next(s, i, c) == s.(
      tasks := s.tasks[..i] + s.tasks[i + 1..] + [Client(id, StartReply(code))],
      history := s.history[id := (if id in s.history then s.history[id] else []) + [Stored(code, content)]],
      messages := s.messages[id := (if id in s.messages then s.messages[id] + content else content)])
  {
  }

  lemma ReplyNext(s: State, i: nat, c: Choice, id: ClientId, code: ErrorCode)
    requires Reachable(s.workers, s) && Enabled(s, i, c) && s.tasks[i] == Client(id, StartReply(code))
    ensures id in s.messages
    ensures Next(s, i, c) == if code.Success? then s.(
      tasks := s.tasks[..i] + s.tasks[i + 1..] + [Client(id, ReadMessage)])
      else s.(
      tasks := s.tasks[..i] + s.tasks[i + 1..] + [Client(id, Writing(s.messages[id]))],
      history := s.history[id := (if id in s.history then s.history[id] else []) + [WriteStarted(s.messages[id])]])
  {
    ReplyStep(s, i, c, id);
  }

  lemma WriteNext(s: State, i: nat, c: Choice, id: ClientId, bytes: seq<Byte>, code: ErrorCode)
    requires Reachable(s.workers, s) && Enabled(s, i, c) && s.tasks[i] == Client(id, WriteDone(bytes, code))
    ensures id in s.messages
    ensures Next(s, i, c) == if code.Success? then s.(
      tasks := s.tasks[..i] + s.tasks[i + 1..] + [Client(id, LogReply(bytes))])
      else s.(
      tasks := s.tasks[..i] + s.tasks[i + 1..] + [Client(id, ShutdownSocket(true))],
      history := s.history[id := (if id in s.history then s.history[id] else []) + [ShutdownPosted]])
  {
    ReplyStep(s, i, c, id);
  }

  lemma EraseNext(s: State, i: nat, c: Choice, id: ClientId, established: bool)
    requires Reachable(s.workers, s) && Enabled(s, i, c) && s.tasks[i] == Client(id, ShutdownSocket(established))
    ensures id in s.ids
    ensures Next(s, i, c) == s.(
      tasks := s.tasks[..i] + s.tasks[i + 1..] + [Drop(established)],
      history := s.history[id := (if id in s.history then s.history[id] else []) + [Closed]],
      ids := s.ids - {id})
  {
    EraseStep(s, i, c, id);
  }
}
