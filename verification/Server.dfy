/**
 The connection protocol of Tcp_server as a state machine. A task is a posted handler, an
 operation in flight, or the rest of a handler body that a worker thread has begun; a step
 replaces one task by its successors and updates the shared fields. Bodies are cut wherever
 they release a lock, touch an atomic or post, so two workers interleave at every such point.
 */
module Server {
  import opened Bytes
  import opened Session

  type ClientId = x: int | 0 <= x < 0x1_0000_0000_0000_0000

  const MAX_CONNECTIONS := 100
  const COUNTER_RANGE := 0x1_0000_0000

  /** std::uint32_t */
  type Counter = x: int | 0 <= x < COUNTER_RANGE

  /** The accept loop: exactly one of these exists while the server can still hear. */
  datatype LoopTask =
    | Listen                                      // posted
    | ConnectionTimeout                           // posted
    | Timer                                       // in flight
    | TimerExpired(code: ErrorCode)               // completed
    | Decided(open: bool)                         // listen on a worker, counter read
    | StartAccept(round: nat)                     //   id task posted
    | Accepting(round: nat)                       // in flight
    | Accepted(round: nat, code: ErrorCode)       // completed
    | AwaitId(round: nat)                         // on_connection_attempt on a worker, in future.get()
    | InsertId(round: nat, id: ClientId)          //   id in hand
    | PostHandshake(id: ClientId)                 //   id inserted, lock released
    | PostListen                                  //   handshake posted

  /**
   The chain of handlers and operations that serves one client. Two annotations are not in the
   source: `bytes` is what the string held when the write started (the operation itself only refers
   to the string), and `established` is whether the handshake had succeeded.
   */
  datatype Phase =
    | AttemptHandshake                                             // posted
    | Handshaking                                                  // in flight
    | HandshakeDone(code: ErrorCode)                               // completed
    | StartReading                                                 // on_handshake on a worker, counted
    | ReadMessage                                                  // posted
    | WaitingRead                                                  // in flight
    | ReadReady(code: ErrorCode)                                   // completed
    | Reading(size: nat)                                           // in flight
    | ReadDone(size: nat, data: seq<Byte>, code: ErrorCode)        // completed
    | ProcessMessage(content: seq<Byte>, code: ErrorCode)          // posted
    | StartReply(code: ErrorCode)                                  // process_message on a worker, stored
    | Writing(bytes: seq<Byte>)                                    // in flight
    | WriteDone(bytes: seq<Byte>, code: ErrorCode)                 // completed
    | LogReply(bytes: seq<Byte>)                                   // on_write on a worker, lock released
    | ShutdownSocket(established: bool)                            // posted

  datatype Task =
    | Loop(loop: LoopTask)
    | Draw(round: nat, begun: bool)               // the id task: posted, or on a worker
    | Client(id: ClientId, phase: Phase)
    | Drop(established: bool)                     // shutdown_socket on a worker, id erased

  /** What the environment supplies to a step; a step reads only the fields it needs. */
  datatype Choice = Choice(code: ErrorCode, id: ClientId, size: nat, data: seq<Byte>)

  datatype State = State(
    workers: nat,
    tasks: seq<Task>,                      // queued tasks appear in posting order
    ids: set<ClientId>,                    // m_active_client_ids
    messages: map<ClientId, seq<Byte>>,    // m_received_messages
    connections: Counter,                  // m_active_connections, wraps modulo 2^32
    round: nat,                            // how many id tasks listen has created
    futures: map<nat, ClientId>,           // results of finished id tasks
    // History: never read by a handler.
    history: map<ClientId, History>,
    assertsHeld: bool,                     // no assert of the source has failed
    stopped: bool,                         // an accept or a timer has failed
    handshakes: nat,                       // increments of the counter
    drops: nat,                            // decrements of the counter
    failedDrops: nat                       // of these, after a failed handshake
  )

  function Init(workers: nat): State {
    State(workers, [Loop(Listen)], {}, map[], 0, 0, map[], map[], true, false, 0, 0, 0)
  }

  /** Waiting in the io_context queue for a worker: posted handlers and completions. */
  predicate Queued(t: Task) {
    match t
    case Loop(l) => l.Listen? || l.ConnectionTimeout? || l.TimerExpired? || l.Accepted?
    case Draw(_, begun) => !begun
    case Client(_, p) =>
      || p.AttemptHandshake? || p.HandshakeDone? || p.ReadMessage? || p.ReadReady? || p.ReadDone?
      || p.ProcessMessage? || p.WriteDone? || p.ShutdownSocket?
    case Drop(_) => false
  }

  /** An asynchronous operation that has not completed. */
  predicate InFlight(t: Task) {
    match t
    case Loop(l) => l.Timer? || l.Accepting?
    case Client(_, p) => p.Handshaking? || p.WaitingRead? || p.Reading? || p.Writing?
    case _ => false
  }

  // ---- counting tasks ----

  /** The roles in which tasks are counted. */
  datatype Role =
    | Owns(id: ClientId) | Listens | Draws | Busy
    | Past          // established
    | Hopeful       // established, or may still become so
    | Failing       // the handshake failed or may still fail, not yet dropped
    | Dropping      // about to decrement the counter
    | Resting       // in the back-off loop, and will listen again
    | Away          // in the accept part of the loop

  /** The client a task works for. */
  function Owner(t: Task): Option<ClientId> {
    match t
    case Client(id, _) => Some(id)
    case Loop(PostHandshake(id)) => Some(id)
    case _ => None
  }

  predicate Plays(r: Role, t: Task) {
    match r
    case Owns(id) => Owner(t) == Some(id)
    case Listens => t.Loop?
    case Draws => t.Draw?
    case Busy => !Queued(t) && !InFlight(t)
    case Past => PastHandshake(t)
    case Hopeful => PastHandshake(t) || BeforeHandshake(t) || Counts(t)
    case Failing => BeforeHandshake(t) || FailedHandshake(t)
    case Dropping => t.Drop?
    case Resting => Backoff(t) && !Stops(t)
    case Away => t.Loop? && !Backoff(t)
  }

  /** A client that completed its handshake and whose connection has not been dropped. */
  predicate PastHandshake(t: Task) {
    match t
    case Client(_, p) =>
      if p.ShutdownSocket? then p.established
      else !p.AttemptHandshake? && !p.Handshaking? && !p.HandshakeDone?
    case Drop(established) => established
    case _ => false
  }

  predicate BeforeHandshake(t: Task) {
    t.Client? && (t.phase.AttemptHandshake? || t.phase.Handshaking?)
  }

  /** A client whose handshake failed and whose connection has not been dropped. */
  predicate FailedHandshake(t: Task) {
    match t
    case Client(_, HandshakeDone(code)) => !code.Success?
    case Client(_, ShutdownSocket(established)) => !established
    case Drop(established) => !established
    case _ => false
  }

  /** The part of the accept loop that waits for the counter to go down, until listen decides to accept. */
  predicate Backoff(t: Task) {
    match t
    case Loop(l) =>
      || l.Listen? || l == Decided(false) || l.ConnectionTimeout? || l.Timer? || l.TimerExpired? || l.PostListen?
    case _ => false
  }

  function Weight(r: Role, t: Task): nat {
    if Plays(r, t) then 1 else 0
  }

  function Tally(r: Role, ts: seq<Task>): nat {
    if |ts| == 0 then 0 else Tally(r, ts[..|ts| - 1]) + Weight(r, ts[|ts| - 1])
  }

  // ---- the chain of one client ----

  /** The phase after p; m is the client's entry in the message map. */
  function NextPhase(p: Phase, c: Choice, m: Option<seq<Byte>>): Phase
    requires !p.ShutdownSocket?
  {
    match p
    case AttemptHandshake => Handshaking
    case Handshaking => HandshakeDone(c.code)
    case HandshakeDone(code) => if code.Success? then StartReading else ShutdownSocket(false)
    case StartReading => ReadMessage
    case ReadMessage => WaitingRead
    case WaitingRead => ReadReady(c.code)
    case ReadReady(code) => if code.Success? then Reading(c.size) else ShutdownSocket(true)
    case Reading(size) => ReadDone(size, c.data, c.code)
    case ReadDone(size, data, code) =>
      if ValidMessage(data, code) then ProcessMessage(Padded(size, data), code) else ShutdownSocket(true)
    case ProcessMessage(_, code) => StartReply(code)
    case StartReply(code) => if code.Success? then ReadMessage else Writing(Subscript(m))
    case Writing(bytes) => WriteDone(bytes, c.code)
    case WriteDone(bytes, code) => if code.Success? then LogReply(bytes) else ShutdownSocket(true)
    case LogReply(_) => ShutdownSocket(true)
  }

  /** std::map::operator[]: an absent key stands for, and is inserted with, the empty string. */
  function Subscript(m: Option<seq<Byte>>): seq<Byte> {
    if m.Some? then m.value else []
  }

  /** What operator[] leaves in the map. */
  function Touched(m: map<ClientId, seq<Byte>>, id: ClientId): map<ClientId, seq<Byte>> {
    if id in m then m else m[id := []]
  }

  /** The client's entry in the message map after a step of phase p. */
  function NextMessage(p: Phase, m: Option<seq<Byte>>): Option<seq<Byte>> {
    match p
    case ProcessMessage(content, _) => Some(if m.Some? then m.value + content else content)
    case StartReply(code) => if code.Success? then m else Some(Subscript(m))
    case WriteDone(_, code) => if code.Success? then Some(Subscript(m)) else m
    case _ => m
  }

  /** What a step of phase p adds to the client's history. */
  function Events(p: Phase, c: Choice, m: Option<seq<Byte>>): History {
    match p
    case HandshakeDone(code) => [if code.Success? then HandshakeOk else ShutdownPosted]
    case ReadReady(code) => [if code.Success? then ReadStarted(c.size) else ShutdownPosted]
    case Reading(size) => [ReadEnded(size, c.data, c.code)]
    case ReadDone(_, data, code) => if ValidMessage(data, code) then [] else [ShutdownPosted]
    case ProcessMessage(content, code) => [Stored(code, content)]
    case StartReply(code) => if code.Success? then [] else [WriteStarted(Subscript(m))]
    case Writing(_) => [WriteEnded(c.code)]
    case WriteDone(_, code) => if code.Success? then [] else [ShutdownPosted]
    case LogReply(_) => [ShutdownPosted]
    case ShutdownSocket(_) => [Closed]
    case _ => []
  }

  // ---- steps ----

  function Lookup<V>(m: map<ClientId, V>, id: ClientId): Option<V> {
    if id in m then Some(m[id]) else None
  }

  function HistoryOf(s: State, id: ClientId): History {
    if id in s.history then s.history[id] else []
  }

  function Remove(ts: seq<Task>, i: nat): seq<Task>
    requires i < |ts|
  {
    ts[..i] + ts[i + 1..]
  }

  /** m_acceptor.cancel(): every accept in flight completes with an error. */
  function CancelAccepts(ts: seq<Task>): seq<Task> {
    seq(|ts|, i requires 0 <= i < |ts| =>
      if ts[i].Loop? && ts[i].loop.Accepting? then Loop(Accepted(ts[i].loop.round, OtherError)) else ts[i])
  }

  /** A body blocks only in future.get(); the other conditions are contracts of the environment. */
  predicate Permitted(s: State, t: Task, c: Choice) {
    match t
    case Loop(AwaitId(k)) => k in s.futures
    case Draw(_, begun) => begun ==> c.id !in s.ids
    case Client(_, Reading(size)) => ReadContract(size, c.data, c.code)
    case _ => true
  }

  /** When task i may take a step with environment input c. */
  predicate Enabled(s: State, i: nat, c: Choice) {
    && i < |s.tasks| && Permitted(s, s.tasks[i], c)
    && (Queued(s.tasks[i]) ==> Tally(Busy, s.tasks) < s.workers)
  }

  /** The tasks that one step of t leaves behind, in posting order. */
  function Spawn(s: State, t: Task, c: Choice): (r: seq<Task>)
    requires Permitted(s, t, c)
    ensures |r| <= 2
  {
    match t
    case Loop(l) => SpawnLoop(s, l, c)
    case Draw(k, begun) => if begun then [] else [Draw(k, true)]
    case Client(id, p) =>
      if p.ShutdownSocket? then [Drop(p.established)]
      else [Client(id, NextPhase(p, c, Lookup(s.messages, id)))]
    case Drop(_) => []
  }

  function SpawnLoop(s: State, l: LoopTask, c: Choice): (r: seq<Task>)
    requires Permitted(s, Loop(l), c)
    ensures |r| <= 2
  {
    match l
    case Listen => [Loop(Decided(s.connections <= MAX_CONNECTIONS))]
    case Decided(open) =>
      if open then [Draw(s.round + 1, false), Loop(StartAccept(s.round + 1))] else [Loop(ConnectionTimeout)]
    case ConnectionTimeout => [Loop(Timer)]
    case Timer => [Loop(TimerExpired(c.code))]
    case TimerExpired(code) => if code.Success? then [Loop(Listen)] else []
    case StartAccept(k) => [Loop(Accepting(k))]
    case Accepting(k) => [Loop(Accepted(k, c.code))]
    case Accepted(k, code) => if code.Success? then [Loop(AwaitId(k))] else []
    case AwaitId(k) => [Loop(InsertId(k, s.futures[k]))]
    case InsertId(_, id) => [Loop(PostHandshake(id))]
    case PostHandshake(id) => [Client(id, AttemptHandshake), Loop(PostListen)]
    case PostListen => [Loop(Listen)]
  }

  // The shared fields after one step of t, field by field.

  function NextIds(s: State, t: Task): set<ClientId> {
    match t
    case Loop(InsertId(_, id)) => s.ids + {id}
    case Client(id, ShutdownSocket(_)) => s.ids - {id}
    case _ => s.ids
  }

  function NextMessages(s: State, t: Task): map<ClientId, seq<Byte>> {
    if t.Client? then
      var m := Lookup(s.messages, t.id);
      var m' := NextMessage(t.phase, m);
      if m'.None? || m' == m then s.messages else s.messages[t.id := m'.value]
    else s.messages
  }

  function NextHistory(s: State, t: Task, c: Choice): map<ClientId, History> {
    match t
    case Loop(InsertId(_, id)) => s.history[id := HistoryOf(s, id) + [Joined]]
    case Client(id, p) =>
      var es := Events(p, c, Lookup(s.messages, id));
      if |es| == 0 then s.history else s.history[id := HistoryOf(s, id) + es]
    case _ => s.history
  }

  /** on_handshake increments the counter, the end of shutdown_socket decrements it, both modulo 2^32. */
  function NextConnections(s: State, t: Task): Counter {
    if Counts(t) then Increment(s.connections)
    else if t.Drop? then Decrement(s.connections)
    else s.connections
  }

  /** ++ on a 32-bit unsigned atomic. */
  function Increment(n: Counter): Counter {
    if n == COUNTER_RANGE - 1 then 0 else n + 1
  }

  /** -- on a 32-bit unsigned atomic: zero wraps to 2^32 - 1. */
  function Decrement(n: Counter): Counter {
    if n == 0 then COUNTER_RANGE - 1 else n - 1
  }

  predicate Counts(t: Task) {
    t.Client? && t.phase == HandshakeDone(Success)
  }

  /** listen goes on to accept. */
  predicate Opens(t: Task) {
    t == Loop(Decided(true))
  }

  /** A failed accept or timer, after which nobody posts listen again. */
  predicate Stops(t: Task) {
    match t
    case Loop(TimerExpired(code)) => !code.Success?
    case Loop(Accepted(_, code)) => !code.Success?
    case _ => false
  }

  /** The asserts of shutdown_socket and on_write. */
  predicate AssertHolds(s: State, t: Task) {
    match t
    case Client(id, ShutdownSocket(_)) => id in s.ids
    case Client(id, WriteDone(_, Success)) => id in NextMessages(s, t)
    case _ => true
  }

  function Next(s: State, i: nat, c: Choice): State
    requires Enabled(s, i, c)
  {
    var t := s.tasks[i];
    var rest := Remove(s.tasks, i);
    var kept := if t == Loop(ConnectionTimeout) then CancelAccepts(rest) else rest;
    State(
      s.workers,
      kept + Spawn(s, t, c),
      NextIds(s, t),
      NextMessages(s, t),
      NextConnections(s, t),
      if Opens(t) then s.round + 1 else s.round,
      if t.Draw? && t.begun then s.futures[t.round := c.id] else s.futures,
      NextHistory(s, t, c),
      s.assertsHeld && AssertHolds(s, t),
      s.stopped || Stops(t),
      if Counts(t) then s.handshakes + 1 else s.handshakes,
      if t.Drop? then s.drops + 1 else s.drops,
      if t == Drop(false) then s.failedDrops + 1 else s.failedDrops)
  }

  predicate Step(s: State, i: nat, c: Choice, s': State) {
    Enabled(s, i, c) && s' == Next(s, i, c)
  }

  /** First-in-first-out dispatch: a worker takes the queued task that was posted first. */
  ghost predicate FifoChoice(s: State, i: nat) {
    i < |s.tasks| && Queued(s.tasks[i]) ==> forall j :: 0 <= j < i ==> !Queued(s.tasks[j])
  }

  ghost predicate FifoStep(s: State, i: nat, c: Choice, s': State) {
    Step(s, i, c, s') && FifoChoice(s, i)
  }

  ghost predicate CanStep(s: State, s': State) {
    exists i: nat, c: Choice :: Step(s, i, c, s')
  }

  ghost predicate CanFifoStep(s: State, s': State) {
    exists i: nat, c: Choice :: FifoStep(s, i, c, s')
  }

  /** A run under any dispatch order, from one start of a server with the given worker count. */
  ghost predicate Run(workers: nat, run: seq<State>) {
    && |run| > 0 && run[0] == Init(workers)
    && forall k: nat {:trigger run[k + 1]} :: k + 1 < |run| ==> CanStep(run[k], run[k + 1])
  }

  /** A state of some run. */
  ghost predicate Reachable(workers: nat, s: State) {
    exists run: seq<State> :: Run(workers, run) && run[|run| - 1] == s
  }

  /** A run in which dispatch is first-in-first-out. */
  ghost predicate FifoRun(workers: nat, run: seq<State>) {
    && |run| > 0 && run[0] == Init(workers)
    && forall k: nat {:trigger run[k + 1]} :: k + 1 < |run| ==> CanFifoStep(run[k], run[k + 1])
  }
}
