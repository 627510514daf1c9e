/** The invariant of the connection protocol and its preservation by every step. */
module ServerInvariant {
  import opened Bytes
  import opened Session
  import opened Server

  // ---- tallies ----

  lemma {:induction false} TallyConcat(r: Role, a: seq<Task>, b: seq<Task>)
    ensures Tally(r, a + b) == Tally(r, a) + Tally(r, b)
  {
    if |b| == 0 {
      assert a + b == a;
    } else {
      TallyConcat(r, a, b[..|b| - 1]);
      assert (a + b)[..|a + b| - 1] == a + b[..|b| - 1];
    }
  }

  lemma TallySingle(r: Role, t: Task)
    ensures Tally(r, [t]) == Weight(r, t)
  {
    assert [t][..0] == [];
  }

  lemma TallyAt(r: Role, ts: seq<Task>, i: nat)
    requires i < |ts|
    ensures Tally(r, ts) == Tally(r, ts[..i]) + Weight(r, ts[i]) + Tally(r, ts[i + 1..])
    ensures Tally(r, Remove(ts, i)) == Tally(r, ts) - Weight(r, ts[i])
  {
    assert ts == ts[..i] + ([ts[i]] + ts[i + 1..]);
    TallyConcat(r, ts[..i], [ts[i]] + ts[i + 1..]);
    TallyConcat(r, [ts[i]], ts[i + 1..]);
    TallySingle(r, ts[i]);
    TallyConcat(r, ts[..i], ts[i + 1..]);
  }

  /** Two different positions that play a role are both counted. */
  lemma TallyPair(r: Role, ts: seq<Task>, i: nat, j: nat)
    requires i < |ts| && j < |ts| && i != j && Plays(r, ts[i]) && Plays(r, ts[j])
    ensures Tally(r, ts) >= 2
  {
    var k := if j < i then j else j - 1;
    TallyAt(r, ts, i);
    TallyAt(r, Remove(ts, i), k);
    assert Remove(ts, i)[k] == ts[j];
  }

  lemma {:induction false} TallyWitness(r: Role, ts: seq<Task>) returns (i: nat)
    requires Tally(r, ts) > 0
    ensures i < |ts| && Plays(r, ts[i])
  {
    if Plays(r, ts[|ts| - 1]) {
      i := |ts| - 1;
    } else {
      i := TallyWitness(r, ts[..|ts| - 1]);
    }
  }

  function SpawnWeight(r: Role, ts: seq<Task>): nat {
    if |ts| == 0 then 0
    else if |ts| == 1 then Weight(r, ts[0])
    else Weight(r, ts[0]) + Weight(r, ts[1])
  }

  lemma TallySpawn(r: Role, ts: seq<Task>)
    requires |ts| <= 2
    ensures Tally(r, ts) == SpawnWeight(r, ts)
  {
    if |ts| == 1 {
      assert ts == [ts[0]];
      TallySingle(r, ts[0]);
    } else if |ts| == 2 {
      assert ts[..1] == [ts[0]];
      TallySingle(r, ts[0]);
    }
  }

  // ---- the invariant ----

  /** The event that a client's phase stands on top of. */
  predicate Fits(p: Phase, e: Event) {
    match p
    case AttemptHandshake => e.Joined?
    case Handshaking => e.Joined?
    case HandshakeDone(_) => e.Joined?
    case StartReading => e.HandshakeOk?
    case ReadMessage => e.HandshakeOk? || (e.Stored? && e.code.Success?)
    case WaitingRead => e.HandshakeOk? || (e.Stored? && e.code.Success?)
    case ReadReady(_) => e.HandshakeOk? || (e.Stored? && e.code.Success?)
    case Reading(size) => e == ReadStarted(size)
    case ReadDone(size, data, code) => e == ReadEnded(size, data, code)
    case ProcessMessage(content, code) =>
      e.ReadEnded? && ValidMessage(e.data, e.code) && e.code == code && content == Padded(e.size, e.data)
    case StartReply(code) => e.Stored? && e.code == code
    case Writing(bytes) => e == WriteStarted(bytes)
    case WriteDone(_, _) => e.WriteEnded?
    case LogReply(_) => e.WriteEnded?
    case ShutdownSocket(_) => e.ShutdownPosted?
  }

  /** A reply is being sent from the client's stored string. */
  predicate Replying(p: Phase) {
    p.Writing? || p.WriteDone? || p.LogReply?
  }

  /** A client's phase agrees with its history and its stored message. */
  ghost predicate PhaseOk(p: Phase, h: History, m: Option<seq<Byte>>) {
    && |h| > 0 && Fits(p, h[|h| - 1])
    && (p.StartReply? ==> m.Some?)
    && (Replying(p) ==> m == Some(p.bytes))
  }

  /** The accept loop works on the current round, and the id it has drawn is still spare. */
  ghost predicate LoopTaskOk(s: State, l: LoopTask) {
    match l
    case StartAccept(k) => RoundOk(s, k)
    case Accepting(k) => RoundOk(s, k)
    case Accepted(k, _) => RoundOk(s, k)
    case AwaitId(k) => RoundOk(s, k)
    case InsertId(k, id) => RoundOk(s, k) && k in s.futures && s.futures[k] == id
    case PostHandshake(id) => RoundDone(s) && |HistoryOf(s, id)| > 0 && HistoryOf(s, id)[|HistoryOf(s, id)| - 1].Joined?
    case _ => RoundDone(s)
  }

  ghost predicate RoundOk(s: State, k: nat) {
    k == s.round > 0 && (k in s.futures ==> s.futures[k] !in s.ids)
  }

  ghost predicate RoundDone(s: State) {
    s.round == 0 || s.round in s.futures
  }

  ghost predicate TaskOk(s: State, t: Task) {
    match t
    case Loop(l) => LoopTaskOk(s, l)
    case Draw(k, _) => k == s.round > 0
    case Client(id, p) => PhaseOk(p, HistoryOf(s, id), Lookup(s.messages, id))
    case Drop(_) => true
  }

  /** A history obeys the grammar, and the map entry is everything it ever stored. */
  ghost predicate HistoryOk(h: History, m: Option<seq<Byte>>) {
    && Chain(h) && RepliesAreStored(h)
    && (m.Some? <==> HasStored(h))
    && (m.Some? ==> m.value == StoredBytes(h))
  }

  ghost predicate ClientOk(s: State, id: ClientId) {
    var h := HistoryOf(s, id);
    HistoryOk(h, Lookup(s.messages, id)) && (id !in s.ids && |h| > 0 ==> h[|h| - 1].Closed?)
  }

  ghost predicate Owned(s: State, id: ClientId) {
    Tally(Owns(id), s.tasks) == if id in s.ids then 1 else 0
  }

  ghost predicate CountersOk(s: State) {
    && s.connections == (s.handshakes - s.drops) % COUNTER_RANGE
    && Tally(Past, s.tasks) == s.handshakes - s.drops + s.failedDrops
    && Tally(Busy, s.tasks) <= s.workers
  }

  ghost predicate LoopOk(s: State) {
    && Tally(Listens, s.tasks) == (if s.stopped then 0 else 1)
    && Tally(Draws, s.tasks) == (if s.round > 0 && s.round !in s.futures then 1 else 0)
    && (forall k :: k in s.futures ==> k <= s.round)
  }

  ghost predicate Inv(s: State) {
    && (forall id: ClientId :: Owned(s, id))
    && (forall id: ClientId :: ClientOk(s, id))
    && (forall i {:trigger TaskOk(s, s.tasks[i])} :: 0 <= i < |s.tasks| ==> TaskOk(s, s.tasks[i]))
    && LoopOk(s) && CountersOk(s) && s.assertsHeld
  }

  // ---- consequences used in the proof ----

  lemma OwnerUnique(s: State, i: nat, j: nat)
    requires Inv(s) && i < |s.tasks| && j < |s.tasks| && i != j
    ensures Owner(s.tasks[i]).Some? ==> Owner(s.tasks[i]) != Owner(s.tasks[j])
  {
    if Owner(s.tasks[i]).Some? && Owner(s.tasks[i]) == Owner(s.tasks[j]) {
      var id := Owner(s.tasks[i]).value;
      assert Owned(s, id);
      TallyPair(Owns(id), s.tasks, i, j);
    }
  }

  lemma OwnerActive(s: State, i: nat)
    requires Inv(s) && i < |s.tasks| && Owner(s.tasks[i]).Some?
    ensures Owner(s.tasks[i]).value in s.ids
  {
    var id := Owner(s.tasks[i]).value;
    assert Owned(s, id);
    TallyAt(Owns(id), s.tasks, i);
  }

  lemma ListenerUnique(s: State, i: nat, j: nat)
    requires Inv(s) && i < |s.tasks| && j < |s.tasks| && i != j && Plays(Listens, s.tasks[i])
    ensures !Plays(Listens, s.tasks[j]) && !s.stopped
  {
    TallyAt(Listens, s.tasks, i);
    if Plays(Listens, s.tasks[j]) { TallyPair(Listens, s.tasks, i, j); }
  }

  /** A cancel aborts every accept in flight, with an error, and touches nothing else. */
  lemma CancelAborts(ts: seq<Task>, j: nat)
    requires j < |ts|
    ensures |CancelAccepts(ts)| == |ts|
    ensures forall k: nat :: ts[j] == Loop(Accepting(k)) ==> CancelAccepts(ts)[j] == Loop(Accepted(k, OtherError))
    ensures (forall k: nat :: ts[j] != Loop(Accepting(k))) ==> CancelAccepts(ts)[j] == ts[j]
  {
    if ts[j].Loop? && ts[j].loop.Accepting? { assert ts[j] == Loop(Accepting(ts[j].loop.round)); }
  }

  /** connection_timeout's cancel finds no accept in flight. */
  lemma CancelFindsNothing(s: State, i: nat)
    requires Inv(s) && i < |s.tasks| && s.tasks[i] == Loop(ConnectionTimeout)
    ensures CancelAccepts(Remove(s.tasks, i)) == Remove(s.tasks, i)
  {
    var rest := Remove(s.tasks, i);
    forall j | 0 <= j < |rest| ensures !rest[j].Loop? {
      ListenerUnique(s, i, if j < i then j else j + 1);
    }
  }

  /** How a step changes a tally. */
  lemma TallyNext(r: Role, s: State, i: nat, c: Choice)
    requires Inv(s) && Enabled(s, i, c)
    ensures Next(s, i, c).tasks == Remove(s.tasks, i) + Spawn(s, s.tasks[i], c)
    ensures Tally(r, Next(s, i, c).tasks)
         == Tally(r, s.tasks) - Weight(r, s.tasks[i]) + SpawnWeight(r, Spawn(s, s.tasks[i], c))
  {
    if s.tasks[i] == Loop(ConnectionTimeout) { CancelFindsNothing(s, i); }
    TallyAt(r, s.tasks, i);
    TallyConcat(r, Remove(s.tasks, i), Spawn(s, s.tasks[i], c));
    TallySpawn(r, Spawn(s, s.tasks[i], c));
  }

  // ---- preservation ----

  /** How one step changes the number of clients past the handshake. */
  lemma PastBalance(s: State, t: Task, c: Choice)
    requires Permitted(s, t, c)
    ensures SpawnWeight(Past, Spawn(s, t, c))
         == Weight(Past, t) + (if Counts(t) then 1 else 0) - (if t == Drop(true) then 1 else 0)
  {
  }

  /** A task gives way to at most one body on a worker, and only a queued task takes a new worker. */
  lemma BusyBalance(s: State, t: Task, c: Choice)
    requires Permitted(s, t, c)
    ensures SpawnWeight(Busy, Spawn(s, t, c)) <= 1
    ensures !Queued(t) ==> SpawnWeight(Busy, Spawn(s, t, c)) <= Weight(Busy, t)
  {
  }

  lemma CounterPreserved(s: State, t: Task)
    requires s.connections == (s.handshakes - s.drops) % COUNTER_RANGE
    ensures NextConnections(s, t)
         == (s.handshakes + (if Counts(t) then 1 else 0) - s.drops - (if t.Drop? then 1 else 0)) % COUNTER_RANGE
  {
  }

  lemma PastPreserved(s: State, i: nat, c: Choice)
    requires Inv(s) && Enabled(s, i, c)
    ensures var s' := Next(s, i, c); Tally(Past, s'.tasks) == s'.handshakes - s'.drops + s'.failedDrops
  {
    TallyNext(Past, s, i, c);
    PastBalance(s, s.tasks[i], c);
  }

  lemma BusyPreserved(s: State, i: nat, c: Choice)
    requires Inv(s) && Enabled(s, i, c)
    ensures Tally(Busy, Next(s, i, c).tasks) <= s.workers
  {
    TallyNext(Busy, s, i, c);
    BusyBalance(s, s.tasks[i], c);
    TallyAt(Busy, s.tasks, i);
  }

  lemma LoopBalance(s: State, t: Task, c: Choice)
    requires Permitted(s, t, c)
    ensures SpawnWeight(Listens, Spawn(s, t, c)) == Weight(Listens, t) - (if Stops(t) then 1 else 0)
    ensures SpawnWeight(Draws, Spawn(s, t, c))
         == Weight(Draws, t) + (if Opens(t) then 1 else 0) - (if t.Draw? && t.begun then 1 else 0)
  {
  }

  lemma LoopPreserved(s: State, i: nat, c: Choice)
    requires Inv(s) && Enabled(s, i, c)
    ensures LoopOk(Next(s, i, c))
  {
    var t := s.tasks[i];
    TallyNext(Listens, s, i, c);
    TallyNext(Draws, s, i, c);
    LoopBalance(s, t, c);
    TallyAt(Listens, s.tasks, i);
    TallyAt(Draws, s.tasks, i);
    assert TaskOk(s, t);
  }

  lemma OwnsBalance(s: State, t: Task, c: Choice, id: ClientId)
    requires Permitted(s, t, c) && TaskOk(s, t)
    requires Owner(t) == Some(id) ==> id in s.ids
    ensures SpawnWeight(Owns(id), Spawn(s, t, c)) - Weight(Owns(id), t)
         == (if id in NextIds(s, t) then 1 else 0) - (if id in s.ids then 1 else 0)
  {
  }

  lemma OwnershipPreserved(s: State, i: nat, c: Choice, id: ClientId)
    requires Inv(s) && Enabled(s, i, c)
    ensures Owned(Next(s, i, c), id)
  {
    var t := s.tasks[i];
    TallyNext(Owns(id), s, i, c);
    assert Owned(s, id) && TaskOk(s, t);
    if Owner(t) == Some(id) { OwnerActive(s, i); }
    OwnsBalance(s, t, c, id);
  }

  lemma AssertsPreserved(s: State, i: nat, c: Choice)
    requires Inv(s) && Enabled(s, i, c)
    ensures AssertHolds(s, s.tasks[i])
  {
    if s.tasks[i].Client? { OwnerActive(s, i); }
  }

  /** One step of a client's chain keeps its history inside the grammar and its entry exact. */
  lemma HistoryStep(p: Phase, c: Choice, h: History, m: Option<seq<Byte>>)
    requires HistoryOk(h, m) && PhaseOk(p, h, m)
    requires p.Reading? ==> ReadContract(p.size, c.data, c.code)
    ensures HistoryOk(h + Events(p, c, m), NextMessage(p, m))
  {
    var es := Events(p, c, m);
    if |es| == 0 {
      assert h + es == h;
    } else {
      assert es == [es[0]];
      if m.None? { NothingStored(h, |h|); }
      Extend(h, es[0]);
      ExtendReplies(h, es[0]);
    }
  }

  lemma PhaseStep(p: Phase, c: Choice, h: History, m: Option<seq<Byte>>)
    requires PhaseOk(p, h, m) && !p.ShutdownSocket?
    ensures PhaseOk(NextPhase(p, c, m), h + Events(p, c, m), NextMessage(p, m))
  {
  }

  lemma OwnEntry(s: State, i: nat, c: Choice)
    requires Enabled(s, i, c) && s.tasks[i].Client?
    ensures var id, p, s' := s.tasks[i].id, s.tasks[i].phase, Next(s, i, c);
      && HistoryOf(s', id) == HistoryOf(s, id) + Events(p, c, Lookup(s.messages, id))
      && Lookup(s'.messages, id) == NextMessage(p, Lookup(s.messages, id))
  {
    assert HistoryOf(s, s.tasks[i].id) + [] == HistoryOf(s, s.tasks[i].id);
  }

  predicate Touches(t: Task, id: ClientId) {
    (t.Client? && t.id == id) || (t.Loop? && t.loop.InsertId? && t.loop.id == id)
  }

  lemma OtherEntry(s: State, i: nat, c: Choice, id: ClientId)
    requires Enabled(s, i, c) && !Touches(s.tasks[i], id)
    ensures HistoryOf(Next(s, i, c), id) == HistoryOf(s, id)
    ensures Lookup(Next(s, i, c).messages, id) == Lookup(s.messages, id)
  {
  }

  /** A step of client id rewrites only that client's entry. */
  lemma ClientFrame(s: State, i: nat, c: Choice, id: ClientId)
    requires Enabled(s, i, c)
    ensures var s' := Next(s, i, c);
      var t := s.tasks[i];
      && (t.Client? && t.id == id ==>
            && HistoryOf(s', id) == HistoryOf(s, id) + Events(t.phase, c, Lookup(s.messages, id))
            && Lookup(s'.messages, id) == NextMessage(t.phase, Lookup(s.messages, id)))
      && (t.Loop? && t.loop.InsertId? && t.loop.id == id ==>
            HistoryOf(s', id) == HistoryOf(s, id) + [Joined] && Lookup(s'.messages, id) == Lookup(s.messages, id))
      && (!Touches(t, id) ==>
            HistoryOf(s', id) == HistoryOf(s, id) && Lookup(s'.messages, id) == Lookup(s.messages, id))
  {
    if s.tasks[i].Client? && s.tasks[i].id == id { OwnEntry(s, i, c); }
    if !Touches(s.tasks[i], id) { OtherEntry(s, i, c, id); }
  }

  lemma ClientStepped(s: State, i: nat, c: Choice)
    requires Inv(s) && Enabled(s, i, c) && s.tasks[i].Client?
    ensures ClientOk(Next(s, i, c), s.tasks[i].id)
  {
    var id, p := s.tasks[i].id, s.tasks[i].phase;
    assert ClientOk(s, id) && TaskOk(s, s.tasks[i]);
    ClientFrame(s, i, c, id);
    HistoryStep(p, c, HistoryOf(s, id), Lookup(s.messages, id));
    OwnerActive(s, i);
  }

  lemma ClientJoined(s: State, i: nat, c: Choice)
    requires Inv(s) && Enabled(s, i, c) && s.tasks[i].Loop? && s.tasks[i].loop.InsertId?
    ensures ClientOk(Next(s, i, c), s.tasks[i].loop.id)
  {
    var id := s.tasks[i].loop.id;
    assert ClientOk(s, id) && TaskOk(s, s.tasks[i]);
    ClientFrame(s, i, c, id);
    Extend(HistoryOf(s, id), Joined);
    ExtendReplies(HistoryOf(s, id), Joined);
  }

  lemma ClientPreserved(s: State, i: nat, c: Choice, id: ClientId)
    requires Inv(s) && Enabled(s, i, c)
    ensures ClientOk(Next(s, i, c), id)
  {
    var t := s.tasks[i];
    if t.Client? && t.id == id {
      ClientStepped(s, i, c);
    } else if t.Loop? && t.loop.InsertId? && t.loop.id == id {
      ClientJoined(s, i, c);
    } else {
      assert ClientOk(s, id);
      ClientFrame(s, i, c, id);
    }
  }

  lemma KeptClient(s: State, i: nat, c: Choice, j: nat)
    requires Inv(s) && Enabled(s, i, c) && j < |s.tasks| && j != i && s.tasks[j].Client?
    ensures TaskOk(Next(s, i, c), s.tasks[j])
  {
    assert TaskOk(s, s.tasks[i]) && TaskOk(s, s.tasks[j]);
    OwnerUnique(s, j, i);
    OwnerActive(s, j);
    ClientFrame(s, i, c, s.tasks[j].id);
  }

  lemma KeptLoop(s: State, i: nat, c: Choice, j: nat)
    requires Inv(s) && Enabled(s, i, c) && j < |s.tasks| && j != i && s.tasks[j].Loop?
    ensures TaskOk(Next(s, i, c), s.tasks[j])
  {
    assert TaskOk(s, s.tasks[i]) && TaskOk(s, s.tasks[j]);
    ListenerUnique(s, j, i);
    TallyAt(Draws, s.tasks, i);
    if s.tasks[j].loop.PostHandshake? {
      OwnerUnique(s, j, i);
      ClientFrame(s, i, c, s.tasks[j].loop.id);
    }
  }

  /** The tasks that a step leaves alone stay in order. */
  lemma KeptPreserved(s: State, i: nat, c: Choice, j: nat)
    requires Inv(s) && Enabled(s, i, c) && j < |s.tasks| && j != i
    ensures TaskOk(Next(s, i, c), s.tasks[j])
  {
    match s.tasks[j]
    case Client(_, _) => KeptClient(s, i, c, j);
    case Loop(_) => KeptLoop(s, i, c, j);
    case Draw(_, _) =>
      assert TaskOk(s, s.tasks[i]) && TaskOk(s, s.tasks[j]);
      TallyAt(Draws, s.tasks, j);
    case Drop(_) =>
  }

  lemma SpawnedClient(s: State, i: nat, c: Choice, u: Task)
    requires Inv(s) && Enabled(s, i, c) && u in Spawn(s, s.tasks[i], c) && s.tasks[i].Client?
    ensures TaskOk(Next(s, i, c), u)
  {
    var id, p := s.tasks[i].id, s.tasks[i].phase;
    assert TaskOk(s, s.tasks[i]);
    ClientFrame(s, i, c, id);
    if !p.ShutdownSocket? { PhaseStep(p, c, HistoryOf(s, id), Lookup(s.messages, id)); }
  }

  lemma SpawnedByLoop(s: State, i: nat, c: Choice, u: Task)
    requires Inv(s) && Enabled(s, i, c) && u in Spawn(s, s.tasks[i], c) && s.tasks[i].Loop?
    ensures TaskOk(Next(s, i, c), u)
  {
    var l := s.tasks[i].loop;
    assert TaskOk(s, s.tasks[i]);
    if l.InsertId? || l.PostHandshake? { ClientFrame(s, i, c, l.id); }
  }

  /** The tasks that a step leaves behind are in order. */
  lemma SpawnedPreserved(s: State, i: nat, c: Choice, u: Task)
    requires Inv(s) && Enabled(s, i, c) && u in Spawn(s, s.tasks[i], c)
    ensures TaskOk(Next(s, i, c), u)
  {
    match s.tasks[i]
    case Client(_, _) => SpawnedClient(s, i, c, u);
    case Loop(_) => SpawnedByLoop(s, i, c, u);
    case Draw(_, _) => assert TaskOk(s, s.tasks[i]);
    case Drop(_) =>
  }

  lemma TasksPreserved(s: State, i: nat, c: Choice, j: nat)
    requires Inv(s) && Enabled(s, i, c) && j < |Next(s, i, c).tasks|
    ensures TaskOk(Next(s, i, c), Next(s, i, c).tasks[j])
  {
    TallyNext(Busy, s, i, c);
    if j < i { KeptPreserved(s, i, c, j); }
    else if j < |s.tasks| - 1 { KeptPreserved(s, i, c, j + 1); }
    else { SpawnedPreserved(s, i, c, Next(s, i, c).tasks[j]); }
  }

  lemma ClientsPreserved(s: State, i: nat, c: Choice)
    requires Inv(s) && Enabled(s, i, c)
    ensures forall id: ClientId :: Owned(Next(s, i, c), id)
    ensures forall id: ClientId :: ClientOk(Next(s, i, c), id)
  {
    var s' := Next(s, i, c);
    forall id: ClientId ensures Owned(s', id) {
      OwnershipPreserved(s, i, c, id);
    }
    forall id: ClientId ensures ClientOk(s', id) {
      ClientPreserved(s, i, c, id);
    }
  }

  lemma AllTasksPreserved(s: State, i: nat, c: Choice)
    requires Inv(s) && Enabled(s, i, c)
    ensures forall j :: 0 <= j < |Next(s, i, c).tasks| ==> TaskOk(Next(s, i, c), Next(s, i, c).tasks[j])
  {
    var s' := Next(s, i, c);
    forall j | 0 <= j < |s'.tasks| ensures TaskOk(s', s'.tasks[j]) {
      TasksPreserved(s, i, c, j);
    }
  }

  lemma CountersPreserved(s: State, i: nat, c: Choice)
    requires Inv(s) && Enabled(s, i, c)
    ensures CountersOk(Next(s, i, c)) && Next(s, i, c).assertsHeld
  {
    CounterPreserved(s, s.tasks[i]);
    PastPreserved(s, i, c);
    BusyPreserved(s, i, c);
    AssertsPreserved(s, i, c);
  }

  /** Every step of every handler, with every input of the environment, keeps the invariant. */
  lemma StepPreserves(s: State, i: nat, c: Choice)
    requires Inv(s) && Enabled(s, i, c)
    ensures Inv(Next(s, i, c))
  {
    ClientsPreserved(s, i, c);
    AllTasksPreserved(s, i, c);
    LoopPreserved(s, i, c);
    CountersPreserved(s, i, c);
  }

  lemma InitInv(workers: nat)
    ensures Inv(Init(workers))
  {
    var s := Init(workers);
    forall r: Role ensures Tally(r, s.tasks) == Weight(r, Loop(Listen)) {
      TallySingle(r, Loop(Listen));
    }
    forall id: ClientId ensures Owned(s, id) && ClientOk(s, id) {
      assert Tally(Owns(id), s.tasks) == 0;
    }
  }

  /** Every state of every run satisfies the invariant, whatever the dispatch order and interleaving. */
  lemma {:induction false} RunInv(workers: nat, run: seq<State>, k: nat)
    requires Run(workers, run) && k < |run|
    ensures Inv(run[k]) && run[k].workers == workers
  {
    if k == 0 {
      InitInv(workers);
    } else {
      RunInv(workers, run, k - 1);
      var j := k - 1;
      assert CanStep(run[j], run[j + 1]);
      var i: nat, c: Choice :| Step(run[j], i, c, run[j + 1]);
      StepPreserves(run[j], i, c);
    }
  }

  /** Every reachable state satisfies the invariant. */
  lemma ReachableInv(workers: nat, s: State)
    requires Reachable(workers, s)
    ensures Inv(s) && s.workers == workers
  {
    var run: seq<State> :| Run(workers, run) && run[|run| - 1] == s;
    RunInv(workers, run, |run| - 1);
  }

  /** A set of states that no step leaves. */
  ghost predicate StepClosed(reach: iset<State>) {
    forall s, s' :: s in reach && CanStep(s, s') ==> s' in reach
  }

  lemma OneMore(workers: nat, run: seq<State>, s: State) returns (run': seq<State>)
    requires Run(workers, run) && CanStep(run[|run| - 1], s)
    ensures Run(workers, run') && run'[|run'| - 1] == s
  {
    run' := run + [s];
    forall k: nat {:trigger run'[k + 1]} | k + 1 < |run'| ensures CanStep(run'[k], run'[k + 1]) {
      if k + 1 < |run| { assert CanStep(run[k], run[k + 1]); }
    }
  }

  lemma ReachableStep(workers: nat, s: State, i: nat, c: Choice)
    requires Reachable(workers, s) && Enabled(s, i, c)
    ensures Reachable(workers, Next(s, i, c))
  {
    var run: seq<State> :| Run(workers, run) && run[|run| - 1] == s;
    assert Step(s, i, c, Next(s, i, c));
    var run' := OneMore(workers, run, Next(s, i, c));
  }
}
