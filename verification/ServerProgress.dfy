/** The blocking future.get() of on_connection_attempt: when it can and cannot deadlock the workers. */
module ServerProgress {
  import opened Bytes
  import opened Session
  import opened Server
  import opened ServerInvariant
  import opened ServerTheorems

  predicate PostedDraw(t: Task) {
    t.Draw? && !t.begun
  }

  predicate Waits(t: Task) {
    t.Loop? && (t.loop.AwaitId? || t.loop.InsertId?)
  }

  predicate Ordered(ts: seq<Task>, i: nat, j: nat) {
    i < |ts| && j < |ts| && PostedDraw(ts[i]) && ts[j].Loop? ==> i < j && !Waits(ts[j])
  }

  /** A posted id task precedes every task of the accept loop, and no accept waits for it yet. */
  ghost predicate DrawComesFirst(s: State) {
    forall i: nat, j: nat :: Ordered(s.tasks, i, j)
  }

  /** A worker, rather than the completion of an operation, can take a step. */
  ghost predicate WorkerCanStep(s: State) {
    exists i: nat, c: Choice :: Enabled(s, i, c) && !InFlight(s.tasks[i])
  }

  /** The same, when workers take queued tasks first-in-first-out. */
  ghost predicate WorkerCanFifoStep(s: State) {
    exists i: nat, c: Choice :: Enabled(s, i, c) && FifoChoice(s, i) && !InFlight(s.tasks[i])
  }

  /** Something is queued or begun. */
  ghost predicate HasWork(s: State) {
    exists i :: 0 <= i < |s.tasks| && !InFlight(s.tasks[i])
  }

  ghost predicate SpareIdExists(s: State) {
    exists id: ClientId :: id !in s.ids
  }

  lemma FifoRunIsRun(workers: nat, run: seq<State>)
    requires FifoRun(workers, run)
    ensures Run(workers, run)
  {
    forall k: nat {:trigger run[k + 1]} | k + 1 < |run| ensures CanStep(run[k], run[k + 1]) {
      assert CanFifoStep(run[k], run[k + 1]);
      var i: nat, c: Choice :| FifoStep(run[k], i, c, run[k + 1]);
      assert Step(run[k], i, c, run[k + 1]);
    }
  }

  lemma SpawnedInOrder(s: State, t: Task, c: Choice, u: Task)
    requires Permitted(s, t, c) && u in Spawn(s, t, c)
    ensures u.Loop? ==> t.Loop? && (Waits(u) ==> Waits(t) || t.loop.Accepted?)
    ensures PostedDraw(u) ==> t == Loop(Decided(true))
    ensures Ordered(Spawn(s, t, c), 0, 0) && Ordered(Spawn(s, t, c), 0, 1)
    ensures Ordered(Spawn(s, t, c), 1, 0) && Ordered(Spawn(s, t, c), 1, 1)
  {
  }

  lemma KeptDrawStaysFirst(s: State, i: nat, c: Choice, a: nat, u: Task)
    requires Inv(s) && DrawComesFirst(s) && Enabled(s, i, c) && FifoChoice(s, i)
    requires a < |s.tasks| && PostedDraw(s.tasks[a]) && a != i && u in Spawn(s, s.tasks[i], c) && u.Loop?
    ensures !Waits(u)
  {
    assert Ordered(s.tasks, a, i);
    SpawnedInOrder(s, s.tasks[i], c, u);
  }

  lemma SpawnedDrawHasNoListener(s: State, i: nat, c: Choice, u: Task, b: nat)
    requires Inv(s) && Enabled(s, i, c) && u in Spawn(s, s.tasks[i], c) && PostedDraw(u)
    requires b < |s.tasks| && b != i
    ensures !s.tasks[b].Loop?
  {
    SpawnedInOrder(s, s.tasks[i], c, u);
    ListenerUnique(s, i, b);
  }

  lemma PairStaysOrdered(s: State, i: nat, c: Choice, a: nat, b: nat)
    requires Inv(s) && DrawComesFirst(s) && Enabled(s, i, c) && FifoChoice(s, i)
    ensures Ordered(Remove(s.tasks, i) + Spawn(s, s.tasks[i], c), a, b)
  {
    var n, left := |s.tasks| - 1, Spawn(s, s.tasks[i], c);
    var ts := Remove(s.tasks, i) + left;
    var a0, b0 := (if a < i then a else a + 1), (if b < i then b else b + 1);
    if a < |ts| && b < |ts| && PostedDraw(ts[a]) && ts[b].Loop? {
      if a < n && b < n {
        assert Ordered(s.tasks, a0, b0);
      } else if a < n {
        KeptDrawStaysFirst(s, i, c, a0, left[b - n]);
      } else if b < n {
        SpawnedDrawHasNoListener(s, i, c, left[a - n], b0);
      } else {
        SpawnedInOrder(s, s.tasks[i], c, left[a - n]);
        assert Ordered(left, a - n, b - n);
      }
    }
  }

  lemma FifoStepKeepsOrder(s: State, i: nat, c: Choice)
    requires Inv(s) && DrawComesFirst(s) && Enabled(s, i, c) && FifoChoice(s, i)
    ensures DrawComesFirst(Next(s, i, c))
  {
    TallyNext(Busy, s, i, c);
    forall a: nat, b: nat ensures Ordered(Next(s, i, c).tasks, a, b) {
      PairStaysOrdered(s, i, c, a, b);
    }
  }

  lemma FifoSuccessorKeepsOrder(s: State, s': State)
    requires Inv(s) && DrawComesFirst(s) && CanFifoStep(s, s')
    ensures DrawComesFirst(s')
  {
    var i: nat, c: Choice :| FifoStep(s, i, c, s');
    FifoStepKeepsOrder(s, i, c);
  }

  lemma {:induction false} FifoRunOrder(workers: nat, run: seq<State>, k: nat)
    requires FifoRun(workers, run) && k < |run|
    ensures DrawComesFirst(run[k])
  {
    if k > 0 {
      var j := k - 1;
      FifoRunOrder(workers, run, j);
      assert Inv(run[j]) by {
        FifoRunIsRun(workers, run);
        RunInv(workers, run, j);
      }
      FifoSuccessorKeepsOrder(run[j], run[j + 1]);
    }
  }

  /** A body on a worker can go on, unless it waits for an id that has not been drawn. */
  lemma BusyCanStep(s: State, i: nat) returns (c: Choice)
    requires i < |s.tasks| && Plays(Busy, s.tasks[i]) && SpareIdExists(s)
    requires s.tasks[i].Loop? && s.tasks[i].loop.AwaitId? ==> s.tasks[i].loop.round in s.futures
    ensures Enabled(s, i, c)
  {
    var id: ClientId :| id !in s.ids;
    c := Choice(Success, id, 0, []);
  }

  /** A body waiting in get() has its id task posted or being drawn. */
  lemma WaitHasDraw(s: State, i: nat) returns (d: nat)
    requires Inv(s) && i < |s.tasks| && s.tasks[i].Loop? && s.tasks[i].loop.AwaitId?
    requires s.tasks[i].loop.round !in s.futures
    ensures d < |s.tasks| && s.tasks[d].Draw? && s.tasks[d].round == s.tasks[i].loop.round
  {
    assert TaskOk(s, s.tasks[i]);
    d := TallyWitness(Draws, s.tasks);
    assert TaskOk(s, s.tasks[d]);
  }

  lemma {:induction false} FirstQueued(ts: seq<Task>, k: nat) returns (i: nat)
    requires k < |ts| && Queued(ts[k])
    ensures i <= k && Queued(ts[i]) && forall j :: 0 <= j < i ==> !Queued(ts[j])
    decreases k
  {
    if exists j :: 0 <= j < k && Queued(ts[j]) {
      var j :| 0 <= j < k && Queued(ts[j]);
      i := FirstQueued(ts, j);
    } else {
      i := k;
    }
  }

  lemma IdleCanStep(s: State) returns (i: nat, c: Choice)
    requires Tally(Busy, s.tasks) == 0 < s.workers && HasWork(s)
    ensures Enabled(s, i, c) && FifoChoice(s, i) && !InFlight(s.tasks[i])
  {
    var w :| 0 <= w < |s.tasks| && !InFlight(s.tasks[w]);
    TallyAt(Busy, s.tasks, w);
    i := FirstQueued(s.tasks, w);
    c := Choice(Success, 0, 0, []);
  }

  /** A body that waits in get() for an id that is not drawn yet. */
  predicate Blocked(s: State, i: nat) {
    i < |s.tasks| && s.tasks[i].Loop? && s.tasks[i].loop.AwaitId? && s.tasks[i].loop.round !in s.futures
  }

  /**
   With first-in-first-out dispatch and any number of workers, the blocking get() never deadlocks
   the server: while anything is queued or begun, some worker can take a step.
   */
  lemma FifoNeverDeadlocks(workers: nat, run: seq<State>, k: nat)
    requires FifoRun(workers, run) && k < |run| && workers >= 1
    requires HasWork(run[k]) && SpareIdExists(run[k])
    ensures WorkerCanFifoStep(run[k])
  {
    var s := run[k];
    FifoRunIsRun(workers, run);
    RunInv(workers, run, k);
    if Tally(Busy, s.tasks) == 0 {
      var i, c := IdleCanStep(s);
    } else {
      var i := TallyWitness(Busy, s.tasks);
      if Blocked(s, i) {
        var d := WaitHasDraw(s, i);
        FifoRunOrder(workers, run, k);
        assert Ordered(s.tasks, d, i);
        var c := BusyCanStep(s, d);
      } else {
        var c := BusyCanStep(s, i);
      }
    }
  }

  /** With two or more workers no dispatch order deadlocks: at most one worker ever blocks. */
  lemma TwoWorkersNeverDeadlock(workers: nat, run: seq<State>, k: nat)
    requires Run(workers, run) && k < |run| && workers >= 2
    requires HasWork(run[k]) && SpareIdExists(run[k])
    ensures WorkerCanStep(run[k])
  {
    var s := run[k];
    RunInv(workers, run, k);
    if Tally(Busy, s.tasks) == 0 {
      var i, c := IdleCanStep(s);
    } else {
      var i := TallyWitness(Busy, s.tasks);
      if Blocked(s, i) {
        UnblockedStep(s, i);
      } else {
        var c := BusyCanStep(s, i);
      }
    }
  }

  lemma UnblockedStep(s: State, i: nat)
    requires Inv(s) && Blocked(s, i) && s.workers >= 2 && SpareIdExists(s)
    ensures WorkerCanStep(s)
  {
    var d := WaitHasDraw(s, i);
    if s.tasks[d].begun {
      var c := BusyCanStep(s, d);
    } else if Tally(Busy, s.tasks) < s.workers {
      assert Enabled(s, d, Choice(Success, 0, 0, []));
    } else {
      var j := OtherBusy(s, i);
      var c := BusyCanStep(s, j);
    }
  }

  lemma OtherBusy(s: State, i: nat) returns (j: nat)
    requires Inv(s) && i < |s.tasks| && s.tasks[i].Loop? && Tally(Busy, s.tasks) >= 2
    ensures j < |s.tasks| && Plays(Busy, s.tasks[j]) && !s.tasks[j].Loop?
  {
    TallyAt(Busy, s.tasks, i);
    var m := TallyWitness(Busy, Remove(s.tasks, i));
    j := if m < i then m else m + 1;
    assert s.tasks[j] == Remove(s.tasks, i)[m];
    ListenerUnique(s, i, j);
  }

  // ---- where the properties end ----

  /** A step from a state with at most two tasks, spelled out. */
  lemma SmallStep(s: State, i: nat, c: Choice, rest: seq<Task>, left: seq<Task>)
    requires i < |s.tasks| <= 2 && Permitted(s, s.tasks[i], c)
    requires s.workers > SpawnWeight(Busy, s.tasks) || !Queued(s.tasks[i])
    requires rest == if |s.tasks| == 1 then [] else [s.tasks[1 - i]]
    requires left == Spawn(s, s.tasks[i], c)
    requires s.tasks[i] != Loop(ConnectionTimeout)
    ensures Enabled(s, i, c) && Next(s, i, c).tasks == rest + left
  {
    TallySpawn(Busy, s.tasks);
    assert Remove(s.tasks, i) == rest;
  }

  /** One step from a state with at most two tasks, field by field. */
  lemma Go(reach: iset<State>, s: State, i: nat, c: Choice, rest: seq<Task>) returns (s': State)
    requires StepClosed(reach) && s in reach
    requires i < |s.tasks| <= 2 && Permitted(s, s.tasks[i], c) && s.tasks[i] != Loop(ConnectionTimeout)
    requires s.workers > SpawnWeight(Busy, s.tasks) || !Queued(s.tasks[i])
    requires rest == if |s.tasks| == 1 then [] else [s.tasks[1 - i]]
    ensures s' in reach
    ensures var t := s.tasks[i];
      && s'.workers == s.workers && s'.tasks == rest + Spawn(s, t, c) && s'.ids == NextIds(s, t)
      && s'.connections == NextConnections(s, t)
      && s'.messages == NextMessages(s, t) && s'.history == NextHistory(s, t, c)
      && s'.round == (if Opens(t) then s.round + 1 else s.round)
      && s'.futures == (if t.Draw? && t.begun then s.futures[t.round := c.id] else s.futures)
  {
    SmallStep(s, i, c, rest, Spawn(s, s.tasks[i], c));
    s' := Next(s, i, c);
    assert Step(s, i, c, s');
  }

  /** An idle server in its listening state. */
  ghost predicate Idle(reach: iset<State>, s: State) {
    && StepClosed(reach) && s in reach && s.workers == 2 && s.tasks == [Loop(Listen)]
    && s.ids == {} && s.connections == 0
  }

  lemma DrawsId(reach: iset<State>, s: State, id: ClientId) returns (s': State)
    requires Idle(reach, s)
    ensures s' in reach && s'.workers == 2 && s'.tasks == [Loop(StartAccept(s.round + 1))]
    ensures s.round + 1 in s'.futures && s'.futures[s.round + 1] == id
    ensures s'.ids == {} && s'.connections == 0 && s'.messages == s.messages && s'.history == s.history
  {
    var c := Choice(Success, id, 0, []);
    s' := Go(reach, s, 0, c, []);
    s' := Go(reach, s', 0, c, []);
    s' := Go(reach, s', 0, c, [s'.tasks[1]]);
    s' := Go(reach, s', 1, c, [s'.tasks[0]]);
  }

  lemma Accepts(reach: iset<State>, s: State, k: nat, id: ClientId) returns (s': State)
    requires StepClosed(reach) && s in reach && s.workers == 2 && s.tasks == [Loop(StartAccept(k))]
    requires k in s.futures && s.futures[k] == id && s.ids == {} && s.connections == 0
    ensures s' in reach && s'.workers == 2 && s'.tasks == [Loop(InsertId(k, id))]
    ensures s'.ids == {} && s'.connections == 0 && s'.messages == s.messages && s'.history == s.history
  {
    var c := Choice(Success, id, 0, []);
    s' := Go(reach, s, 0, c, []);
    s' := Go(reach, s', 0, c, []);
    s' := Go(reach, s', 0, c, []);
    s' := Go(reach, s', 0, c, []);
  }

  lemma FirstHandshakeFails(reach: iset<State>, id: ClientId) returns (s: State)
    requires StepClosed(reach) && Init(2) in reach
    ensures s in reach && s.workers == 2 && s.tasks == [Loop(PostListen), Client(id, HandshakeDone(OtherError))]
    ensures s.connections == 0
  {
    var c, l := Choice(OtherError, id, 0, []), [Loop(PostListen)];
    s := DrawsId(reach, Init(2), id);
    s := Accepts(reach, s, 1, id);
    s := Go(reach, s, 0, c, []);
    s := Go(reach, s, 0, c, []);
    s := Go(reach, s, 0, c, l);
    s := Go(reach, s, 1, c, l);
  }

  lemma CounterWraps(reach: iset<State>, id: ClientId) returns (s: State)
    requires StepClosed(reach) && Init(2) in reach
    ensures s in reach && Deaf(s) && s.connections == 0xffff_ffff
  {
    var c, l := Choice(OtherError, id, 0, []), [Loop(PostListen)];
    s := FirstHandshakeFails(reach, id);
    s := Go(reach, s, 1, c, l);
    s := Go(reach, s, 1, c, l);
    s := Go(reach, s, 1, c, l);
    s := Go(reach, s, 0, c, []);
    assert s.tasks == [Loop(Listen)];
  }

  lemma AcceptOvertakesDraw(reach: iset<State>) returns (s: State)
    requires StepClosed(reach) && Init(1) in reach
    ensures s in reach && s.workers == 1 && s.tasks == [Draw(1, false), Loop(AwaitId(1))]
    ensures s.ids == {} && s.futures == map[]
  {
    var c, d := Choice(Success, 0, 0, []), [Draw(1, false)];
    s := Go(reach, Init(1), 0, c, []);
    s := Go(reach, s, 0, c, []);
    s := Go(reach, s, 1, c, d);
    s := Go(reach, s, 1, c, d);
    s := Go(reach, s, 1, c, d);
  }

  lemma ReachableClosed(workers: nat) returns (reach: iset<State>)
    ensures reach == iset s | Reachable(workers, s)
    ensures Init(workers) in reach && StepClosed(reach)
  {
    reach := iset s | Reachable(workers, s);
    assert Reachable(workers, Init(workers)) by {
      assert Run(workers, [Init(workers)]);
    }
    forall s, s' | s in reach && CanStep(s, s') ensures s' in reach {
      var run: seq<State> :| Run(workers, run) && run[|run| - 1] == s;
      var run' := OneMore(workers, run, s');
    }
  }

  /**
   One worker and a dispatch that is not first-in-first-out: the accept completion is taken before
   its own id task, and no worker can ever take a step again.
   */
  lemma OneWorkerCanDeadlock()
    ensures exists s :: Reachable(1, s) && HasWork(s) && SpareIdExists(s) && !WorkerCanStep(s)
  {
    var reach := ReachableClosed(1);
    var s := AcceptOvertakesDraw(reach);
    TallySpawn(Busy, s.tasks);
    assert !InFlight(s.tasks[0]);
    assert 0 !in s.ids;
    assert Reachable(1, s);
  }

  ghost predicate Deadlocked(s: State) {
    HasWork(s) && SpareIdExists(s) && !WorkerCanStep(s)
  }

  /** Under arbitrary dispatch a deadlock is reachable exactly for a server with a single worker. */
  lemma DeadlockExactlyWithOneWorker(workers: nat)
    requires workers >= 1
    ensures (exists s :: Reachable(workers, s) && Deadlocked(s)) <==> workers == 1
  {
    if workers == 1 {
      OneWorkerCanDeadlock();
      var s :| Reachable(1, s) && HasWork(s) && SpareIdExists(s) && !WorkerCanStep(s);
      assert Deadlocked(s);
    } else {
      forall s | Reachable(workers, s) ensures !Deadlocked(s) {
        var run: seq<State> :| Run(workers, run) && run[|run| - 1] == s;
        if HasWork(s) && SpareIdExists(s) {
          TwoWorkersNeverDeadlock(workers, run, |run| - 1);
        }
      }
    }
  }

  /**
   A single failed handshake can deafen an idle server for good: the shutdown that follows it
   decrements a counter that was never incremented, the counter wraps to 2^32 - 1, and every later
   listen takes the timeout (DeafForever).
   */
  lemma OneFailedHandshakeDeafens(id: ClientId)
    ensures exists s :: Reachable(2, s) && Deaf(s) && s.connections == 0xffff_ffff
  {
    var reach := ReachableClosed(2);
    var s := CounterWraps(reach, id);
    assert Reachable(2, s);
  }
}
