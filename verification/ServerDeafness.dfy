/**
 When a server that has stopped accepting will ever accept again. A failed handshake is followed by
 a decrement of the connection counter that no increment matches. Here the clients still being
 served decide: the exact condition for permanent deafness is proved for every reachable state whose
 accept loop is in back-off.
 */
module ServerDeafness {
  import opened Bytes
  import opened Session
  import opened Server
  import opened ServerInvariant
  import opened ServerSteps

  /** The accept loop, if it is still there, is in back-off. */
  predicate Waiting(s: State) {
    Tally(Away, s.tasks) == 0
  }

  /** A task of the back-off loop is left that will listen again, timers permitting. */
  predicate WillListen(s: State) {
    Tally(Resting, s.tasks) > 0
  }

  /** The least net number of clients yet to come: every pending handshake fails and everyone leaves. */
  function Lowest(s: State): int {
    -(Tally(Failing, s.tasks) + s.failedDrops)
  }

  function Top(s: State): int {
    Tally(Hopeful, s.tasks) - s.failedDrops
  }

  /**
   The greatest net number of clients that a listen yet to come can see: every pending handshake
   succeeds and nobody leaves, except one client if all workers are at its decrement already.
   */
  function Highest(s: State): int {
    if Tally(Dropping, s.tasks) >= s.workers then Top(s) - 1 else Top(s)
  }

  ghost predicate AllRefused(s: State) {
    forall v :: Lowest(s) <= v <= Highest(s) ==> !Admits(v)
  }

  /** s' can follow s, after any number of steps. */
  ghost predicate Leads(s: State, s': State) {
    exists run: seq<State> :: Path(run) && run[0] == s && run[|run| - 1] == s'
  }

  ghost predicate Path(run: seq<State>) {
    |run| > 0 && forall k: nat {:trigger run[k + 1]} :: k + 1 < |run| ==> CanStep(run[k], run[k + 1])
  }

  /** No state that can follow s begins a round of accepting. */
  ghost predicate DeafFromNowOn(s: State) {
    forall s' :: Leads(s, s') ==> s'.round == s.round
  }

  // ---- comparing tallies ----

  lemma {:induction false} TallyGap(r: Role, q: Role, ts: seq<Task>) returns (i: nat)
    requires Tally(r, ts) > Tally(q, ts)
    ensures i < |ts| && Plays(r, ts[i]) && !Plays(q, ts[i])
  {
    var last := |ts| - 1;
    if Plays(r, ts[last]) && !Plays(q, ts[last]) {
      i := last;
    } else {
      i := TallyGap(r, q, ts[..last]);
    }
  }

  lemma TallyOrder(ts: seq<Task>)
    ensures Tally(Past, ts) <= Tally(Hopeful, ts) && Tally(Dropping, ts) <= Tally(Busy, ts)
  {
    if Tally(Past, ts) > Tally(Hopeful, ts) { var i := TallyGap(Past, Hopeful, ts); }
    if Tally(Dropping, ts) > Tally(Busy, ts) { var i := TallyGap(Dropping, Busy, ts); }
  }

  /** The net number of clients lies between the bounds. */
  lemma NetWithinBounds(s: State)
    ensures Lowest(s) <= Net(s) <= Top(s)
  {
    TallyOrder(s.tasks);
  }

  // ---- deaf states stay deaf ----

  lemma QuietWeights(s: State, t: Task, c: Choice)
    requires Permitted(s, t, c) && !Plays(Away, t)
    ensures var left, failed := Spawn(s, t, c), if t == Drop(false) then 1 else 0;
      && SpawnWeight(Hopeful, left) <= Weight(Hopeful, t) + failed - Weight(Dropping, t)
      && SpawnWeight(Failing, left) + failed <= Weight(Failing, t)
      && SpawnWeight(Resting, left) <= Weight(Resting, t)
      && (SpawnWeight(Away, left) > 0 ==> t == Loop(Listen) && s.connections <= MAX_CONNECTIONS)
      && (t.Drop? ==> left == []) && !Opens(t)
  {
  }

  /** Without a new round the bounds only close in, and a loop without a listen ahead stays so. */
  lemma BoundsCloseIn(s: State, i: nat, c: Choice)
    requires Inv(s) && Enabled(s, i, c) && Waiting(s)
    ensures var s' := Next(s, i, c);
      && Lowest(s) <= Lowest(s') && Top(s') <= Top(s) - Weight(Dropping, s.tasks[i])
      && (WillListen(s') ==> WillListen(s))
      && (!Waiting(s') ==> s.tasks[i] == Loop(Listen) && s.connections <= MAX_CONNECTIONS)
      && s'.round == s.round
  {
    TallyAt(Away, s.tasks, i);
    QuietWeights(s, s.tasks[i], c);
    TallyNext(Hopeful, s, i, c);
    TallyNext(Failing, s, i, c);
    TallyNext(Resting, s, i, c);
    TallyNext(Away, s, i, c);
  }

  /** If every worker is at a decrement, no other handler can step. */
  lemma AllDropping(s: State, i: nat, c: Choice)
    requires Inv(s) && Enabled(s, i, c) && Tally(Dropping, s.tasks) >= s.workers
    ensures s.tasks[i].Drop? || InFlight(s.tasks[i])
  {
    TallyOrder(Remove(s.tasks, i));
    TallyAt(Busy, s.tasks, i);
    TallyAt(Dropping, s.tasks, i);
  }

  lemma HighestFalls(s: State, i: nat, c: Choice)
    requires Inv(s) && Enabled(s, i, c) && Waiting(s)
    ensures Highest(Next(s, i, c)) <= Highest(s)
  {
    BoundsCloseIn(s, i, c);
    if Tally(Dropping, s.tasks) >= s.workers && !s.tasks[i].Drop? {
      AllDropping(s, i, c);
      CompletionKeepsDrops(s, i, c);
    }
  }

  lemma CompletionWeights(s: State, t: Task, c: Choice)
    requires Permitted(s, t, c) && InFlight(t)
    ensures SpawnWeight(Dropping, Spawn(s, t, c)) == Weight(Dropping, t) == 0
  {
  }

  lemma CompletionKeepsDrops(s: State, i: nat, c: Choice)
    requires Inv(s) && Enabled(s, i, c) && InFlight(s.tasks[i])
    ensures Tally(Dropping, Next(s, i, c).tasks) == Tally(Dropping, s.tasks)
  {
    TallyNext(Dropping, s, i, c);
    CompletionWeights(s, s.tasks[i], c);
  }

  ghost predicate Hopeless(s: State) {
    Waiting(s) && (!WillListen(s) || AllRefused(s))
  }

  lemma RefusedNow(s: State, i: nat, c: Choice)
    requires Inv(s) && Enabled(s, i, c) && s.tasks[i] == Loop(Listen) && AllRefused(s)
    ensures s.connections > MAX_CONNECTIONS
  {
    TallyOrder(s.tasks);
    NetWithinBounds(s);
    assert !Admits(Net(s));
    assert Net(s) == s.handshakes - s.drops;
  }

  lemma HopelessStep(s: State, i: nat, c: Choice)
    requires Inv(s) && Enabled(s, i, c) && Hopeless(s)
    ensures Hopeless(Next(s, i, c)) && Next(s, i, c).round == s.round
  {
    BoundsCloseIn(s, i, c);
    HighestFalls(s, i, c);
    if s.tasks[i] == Loop(Listen) {
      TallyAt(Resting, s.tasks, i);
      RefusedNow(s, i, c);
    }
  }

  lemma {:induction false} HopelessPath(run: seq<State>, k: nat)
    requires Path(run) && k < |run| && Inv(run[0]) && Hopeless(run[0])
    ensures Inv(run[k]) && Hopeless(run[k]) && run[k].round == run[0].round
  {
    if k > 0 {
      var m := k - 1;
      HopelessPath(run, m);
      assert CanStep(run[m], run[m + 1]);
      var i: nat, c: Choice :| Step(run[m], i, c, run[m + 1]);
      StepPreserves(run[m], i, c);
      HopelessStep(run[m], i, c);
    }
  }

  // ---- every net number within the bounds can be reached ----

  /** A reachable state of a server that will listen again. */
  ghost predicate Live(reach: iset<State>, s: State) {
    StepClosed(reach) && s in reach && Inv(s) && Waiting(s) && WillListen(s)
  }

  /** Some worker is free. */
  ghost predicate Ready(reach: iset<State>, s: State) {
    Live(reach, s) && Tally(Busy, s.tasks) < s.workers
  }

  /** Task i has a worker or can get one. */
  ghost predicate Drivable(reach: iset<State>, s: State, i: nat) {
    Live(reach, s) && i < |s.tasks| && Tally(Busy, s.tasks) - Weight(Busy, s.tasks[i]) < s.workers
  }

  lemma Move(reach: iset<State>, s: State, i: nat, c: Choice) returns (s': State)
    requires StepClosed(reach) && s in reach && Inv(s) && Enabled(s, i, c)
    ensures s' == Next(s, i, c) && s' in reach && Inv(s')
    ensures s'.tasks == Remove(s.tasks, i) + Spawn(s, s.tasks[i], c)
  {
    s' := Next(s, i, c);
    assert Step(s, i, c, s');
    StepPreserves(s, i, c);
    TallyNext(Busy, s, i, c);
  }

  /** How one step changes each of the counts used here. */
  lemma CountsMove(s: State, i: nat, c: Choice)
    requires Inv(s) && Enabled(s, i, c)
    ensures var t, left, ts := s.tasks[i], Spawn(s, s.tasks[i], c), Next(s, i, c).tasks;
      && Tally(Busy, ts) == Tally(Busy, s.tasks) - Weight(Busy, t) + SpawnWeight(Busy, left)
      && Tally(Away, ts) == Tally(Away, s.tasks) - Weight(Away, t) + SpawnWeight(Away, left)
      && Tally(Resting, ts) == Tally(Resting, s.tasks) - Weight(Resting, t) + SpawnWeight(Resting, left)
      && Tally(Past, ts) == Tally(Past, s.tasks) - Weight(Past, t) + SpawnWeight(Past, left)
      && Tally(Hopeful, ts) == Tally(Hopeful, s.tasks) - Weight(Hopeful, t) + SpawnWeight(Hopeful, left)
      && Tally(Failing, ts) == Tally(Failing, s.tasks) - Weight(Failing, t) + SpawnWeight(Failing, left)
  {
    TallyNext(Busy, s, i, c);
    TallyNext(Away, s, i, c);
    TallyNext(Resting, s, i, c);
    TallyNext(Past, s, i, c);
    TallyNext(Hopeful, s, i, c);
    TallyNext(Failing, s, i, c);
  }

  predicate SameLoopPart(t: Task, u: Task) {
    !Plays(Away, t) && !Plays(Away, u) && Weight(Resting, t) == Weight(Resting, u)
  }

  /** One step of task i, whose only successor u stays drivable. */
  lemma Push(reach: iset<State>, s: State, i: nat, c: Choice, u: Task) returns (s': State)
    requires Drivable(reach, s, i) && Permitted(s, s.tasks[i], c)
    requires Spawn(s, s.tasks[i], c) == [u] && SameLoopPart(s.tasks[i], u)
    ensures |s'.tasks| > 0 && s'.tasks[|s'.tasks| - 1] == u && Drivable(reach, s', |s'.tasks| - 1)
    ensures s'.round == s.round && s'.failedDrops == s.failedDrops
    ensures Tally(Past, s'.tasks) == Tally(Past, s.tasks) - Weight(Past, s.tasks[i]) + Weight(Past, u)
    ensures Tally(Hopeful, s'.tasks) == Tally(Hopeful, s.tasks) - Weight(Hopeful, s.tasks[i]) + Weight(Hopeful, u)
    ensures Tally(Failing, s'.tasks) == Tally(Failing, s.tasks) - Weight(Failing, s.tasks[i]) + Weight(Failing, u)
  {
    s' := Move(reach, s, i, c);
    CountsMove(s, i, c);
  }

  // -- down: a client leaves --

  function Leaving(): Choice {
    Choice(OtherError, 0, 0, [])
  }

  /** How many steps a client is away from its decrement, when every operation fails. */
  function StepsToDrop(t: Task): nat {
    if !t.Client? then 0 else
      match t.phase
      case ShutdownSocket(_) => 1
      case LogReply(_) => 2
      case WriteDone(_, _) => 3
      case Writing(_) => 4
      case ReadDone(_, data, code) => if ValidMessage(data, code) then 10 else 2
      case Reading(_) => 3
      case ReadReady(_) => 4
      case WaitingRead => 5
      case ReadMessage => 6
      case StartReading => 7
      case StartReply(_) => 8
      case ProcessMessage(_, _) => 9
      case HandshakeDone(_) => 2
      case Handshaking => 3
      case AttemptHandshake => 4
  }

  lemma OneStepToDrop(s: State, t: Task) returns (u: Task)
    requires t.Client? && (Plays(Past, t) || Plays(Failing, t))
    ensures Permitted(s, t, Leaving()) && Spawn(s, t, Leaving()) == [u]
    ensures (u.Client? || u.Drop?) && StepsToDrop(u) < StepsToDrop(t)
    ensures Weight(Past, u) == Weight(Past, t) && Weight(Failing, u) == Weight(Failing, t)
  {
    u := Spawn(s, t, Leaving())[0];
  }

  lemma Decrease(reach: iset<State>, s: State, i: nat) returns (s': State)
    requires Drivable(reach, s, i) && s.tasks[i].Drop?
    ensures Ready(reach, s') && Net(s') == Net(s) - 1 && Lowest(s') == Lowest(s) && Top(s') == Top(s) - 1
    ensures s'.round == s.round
  {
    var c := Leaving();
    s' := Move(reach, s, i, c);
    CountsMove(s, i, c);
  }

  /** A client that is established, or whose handshake failed or may fail, can leave at once. */
  lemma {:induction false} Lower(reach: iset<State>, s: State, i: nat) returns (s': State)
    requires Drivable(reach, s, i) && (Plays(Past, s.tasks[i]) || Plays(Failing, s.tasks[i]))
    ensures Ready(reach, s') && Net(s') == Net(s) - 1 && Lowest(s') == Lowest(s) && s'.round == s.round
    decreases StepsToDrop(s.tasks[i])
  {
    if s.tasks[i].Drop? {
      s' := Decrease(reach, s, i);
    } else {
      var u := OneStepToDrop(s, s.tasks[i]);
      s' := Push(reach, s, i, Leaving(), u);
      s' := Lower(reach, s', |s'.tasks| - 1);
    }
  }

  // -- up: a handshake succeeds --

  function Succeeding(): Choice {
    Choice(Success, 0, 0, [])
  }

  lemma Establish(reach: iset<State>, s: State, i: nat) returns (s': State)
    requires Ready(reach, s) && i < |s.tasks| && Counts(s.tasks[i])
    ensures Ready(reach, s') && Net(s') == Net(s) + 1 && Top(s') == Top(s) && s'.round == s.round
  {
    var id := s.tasks[i].id;
    s' := Push(reach, s, i, Succeeding(), Client(id, StartReading));
    s' := Push(reach, s', |s'.tasks| - 1, Succeeding(), Client(id, ReadMessage));
  }

  function StepsToSuccess(t: Task): nat {
    if !t.Client? then 0 else if t.phase.AttemptHandshake? then 2 else if t.phase.Handshaking? then 1 else 0
  }

  lemma OneStepToSuccess(s: State, t: Task) returns (u: Task)
    requires BeforeHandshake(t)
    ensures Permitted(s, t, Succeeding()) && Spawn(s, t, Succeeding()) == [u]
    ensures u.Client? && (BeforeHandshake(u) || Counts(u)) && StepsToSuccess(u) < StepsToSuccess(t)
  {
    u := Spawn(s, t, Succeeding())[0];
  }

  /** A client whose handshake is pending can become established. */
  lemma {:induction false} Raise(reach: iset<State>, s: State, i: nat) returns (s': State)
    requires Ready(reach, s) && i < |s.tasks| && (BeforeHandshake(s.tasks[i]) || Counts(s.tasks[i]))
    ensures Ready(reach, s') && Net(s') == Net(s) + 1 && Top(s') == Top(s) && s'.round == s.round
    decreases StepsToSuccess(s.tasks[i])
  {
    if Counts(s.tasks[i]) {
      s' := Establish(reach, s, i);
    } else {
      var u := OneStepToSuccess(s, s.tasks[i]);
      s' := Push(reach, s, i, Succeeding(), u);
      s' := Raise(reach, s', |s'.tasks| - 1);
    }
  }

  /** Every net number within the bounds is reached without a new round. */
  lemma {:induction false} Steer(reach: iset<State>, s: State, v: int) returns (s': State)
    requires Ready(reach, s) && Lowest(s) <= v <= Top(s)
    ensures Ready(reach, s') && Net(s') == v && s'.round == s.round
    decreases if v < Net(s) then Net(s) - v else v - Net(s)
  {
    s' := s;
    if v < Net(s) {
      var i := TallyWitness(if Tally(Past, s.tasks) > 0 then Past else Failing, s.tasks);
      s' := Lower(reach, s, i);
      NetWithinBounds(s');
      s' := Steer(reach, s', v);
    } else if v > Net(s) {
      var i := TallyGap(Hopeful, Past, s.tasks);
      s' := Raise(reach, s, i);
      NetWithinBounds(s');
      s' := Steer(reach, s', v);
    }
  }

  // -- freeing a worker --

  /** A body on a worker that is not at a decrement moves on without changing the counts. */
  lemma BodyMovesOn(reach: iset<State>, s: State, i: nat) returns (s': State)
    requires Live(reach, s) && i < |s.tasks| && Plays(Busy, s.tasks[i]) && !s.tasks[i].Drop?
    ensures Ready(reach, s') && Lowest(s') == Lowest(s) && Top(s') == Top(s) && s'.round == s.round
  {
    var t, c := s.tasks[i], Succeeding();
    var r := TallyWitness(Resting, s.tasks);
    assert TaskOk(s, s.tasks[r]);
    TallyAt(Draws, s.tasks, i);
    TallyAt(Away, s.tasks, i);
    BodyWeights(s, t, c);
    s' := Push(reach, s, i, c, Spawn(s, t, c)[0]);
  }

  lemma BodyWeights(s: State, t: Task, c: Choice)
    requires Plays(Busy, t) && !t.Drop? && !t.Draw? && !Plays(Away, t)
    ensures Permitted(s, t, c) && Spawn(s, t, c) == [Spawn(s, t, c)[0]]
    ensures var u := Spawn(s, t, c)[0];
      && SameLoopPart(t, u) && !Plays(Busy, u)
      && Weight(Hopeful, u) == Weight(Hopeful, t) && Weight(Failing, u) == Weight(Failing, t)
  {
  }

  /** A worker can be freed; only when all are at a decrement does this cost one client. */
  lemma FreeWorker(reach: iset<State>, s: State) returns (s': State)
    requires Live(reach, s) && s.workers >= 1
    ensures Ready(reach, s') && Lowest(s') == Lowest(s) && Top(s') == Highest(s) && s'.round == s.round
  {
    s' := s;
    TallyOrder(s.tasks);
    if Tally(Dropping, s.tasks) >= s.workers {
      var i := TallyWitness(Dropping, s.tasks);
      s' := Decrease(reach, s, i);
    } else if Tally(Busy, s.tasks) >= s.workers {
      var i := TallyGap(Busy, Dropping, s.tasks);
      s' := BodyMovesOn(reach, s, i);
    }
  }

  // -- listening --

  function StepsToListen(t: Task): nat {
    if !t.Loop? || t.loop.Listen? then 0
    else if t.loop.TimerExpired? || t.loop.PostListen? then 1
    else if t.loop.Timer? then 2
    else if t.loop.ConnectionTimeout? then 3
    else 4
  }

  lemma OneStepToListen(s: State, t: Task) returns (u: Task)
    requires Plays(Resting, t) && t != Loop(Listen)
    ensures Permitted(s, t, Succeeding()) && Spawn(s, t, Succeeding()) == [u]
    ensures Plays(Resting, u) && StepsToListen(u) < StepsToListen(t)
    ensures SameLoopPart(t, u) && Weight(Past, t) == Weight(Past, u)
  {
    u := Spawn(s, t, Succeeding())[0];
  }

  lemma Accept(reach: iset<State>, s: State, i: nat) returns (s': State)
    requires Drivable(reach, s, i) && s.tasks[i] == Loop(Listen) && Admits(Net(s))
    ensures s' in reach && s'.round == s.round + 1
  {
    assert Net(s) == s.handshakes - s.drops;
    s' := Move(reach, s, i, Succeeding());
    assert s'.tasks[|s'.tasks| - 1] == Loop(Decided(true));
    s' := Move(reach, s', |s'.tasks| - 1, Succeeding());
  }

  /** The back-off loop comes round to a listen that accepts. */
  lemma {:induction false} Relisten(reach: iset<State>, s: State, i: nat) returns (s': State)
    requires Drivable(reach, s, i) && Plays(Resting, s.tasks[i]) && Admits(Net(s))
    ensures s' in reach && s'.round == s.round + 1
    decreases StepsToListen(s.tasks[i])
  {
    if s.tasks[i] == Loop(Listen) {
      s' := Accept(reach, s, i);
    } else {
      var u := OneStepToListen(s, s.tasks[i]);
      s' := Push(reach, s, i, Succeeding(), u);
      s' := Relisten(reach, s', |s'.tasks| - 1);
    }
  }

  // ---- the exact condition ----

  lemma HearsAgain(reach: iset<State>, s: State, v: int) returns (s': State)
    requires Live(reach, s) && s.workers >= 1 && Lowest(s) <= v <= Highest(s) && Admits(v)
    ensures s' in reach && s'.round == s.round + 1
  {
    s' := FreeWorker(reach, s);
    s' := Steer(reach, s', v);
    var i := TallyWitness(Resting, s'.tasks);
    s' := Relisten(reach, s', i);
  }

  lemma LeadsClosed(s: State) returns (reach: iset<State>)
    ensures reach == iset s' | Leads(s, s')
    ensures s in reach && StepClosed(reach)
  {
    reach := iset s' | Leads(s, s');
    assert Leads(s, s) by { assert Path([s]); }
    forall x, x' | x in reach && CanStep(x, x') ensures x' in reach {
      var run: seq<State> :| Path(run) && run[0] == s && run[|run| - 1] == x;
      LongerPath(run, x');
    }
  }

  lemma LongerPath(run: seq<State>, s: State)
    requires Path(run) && CanStep(run[|run| - 1], s)
    ensures Leads(run[0], s)
  {
    var longer := run + [s];
    forall k: nat {:trigger longer[k + 1]} | k + 1 < |longer| ensures CanStep(longer[k], longer[k + 1]) {
      if k + 1 < |run| { assert CanStep(run[k], run[k + 1]); }
    }
    assert Path(longer);
  }

  /**
   A server in back-off never accepts again if and only if its loop will not listen again, or every
   net number of clients between the two bounds is one that listen refuses.
   */
  lemma DeafExactly(workers: nat, s: State)
    requires Reachable(workers, s) && workers >= 1 && Waiting(s)
    ensures DeafFromNowOn(s) <==> !WillListen(s) || AllRefused(s)
  {
    ReachableInv(workers, s);
    if Hopeless(s) {
      forall s' | Leads(s, s') ensures s'.round == s.round {
        var run: seq<State> :| Path(run) && run[0] == s && run[|run| - 1] == s';
        HopelessPath(run, |run| - 1);
      }
    } else {
      var v :| Lowest(s) <= v <= Highest(s) && Admits(v);
      var reach := LeadsClosed(s);
      var s' := HearsAgain(reach, s, v);
      assert Leads(s, s');
    }
  }

  /**
   In terms of clients, as long as fewer than 2^32 - 100 handshakes have failed or may yet fail: deaf
   from now on if and only if the established clients and those still in their handshake, less one
   when all workers are at a decrement, are outnumbered by the shutdowns after failed handshakes.
   */
  lemma DeafWhenOutnumbered(workers: nat, s: State)
    requires Reachable(workers, s) && workers >= 1 && Waiting(s) && WillListen(s)
    requires Tally(Failing, s.tasks) + s.failedDrops < COUNTER_RANGE - MAX_CONNECTIONS
    ensures DeafFromNowOn(s) <==> Highest(s) < 0
  {
    DeafExactly(workers, s);
    if Highest(s) >= 0 {
      assert Admits(0);
    } else {
      forall v | Lowest(s) <= v <= Highest(s) ensures !Admits(v) {
        assert v % COUNTER_RANGE == v + COUNTER_RANGE;
      }
    }
  }
}
