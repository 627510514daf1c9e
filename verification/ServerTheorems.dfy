/** What holds in every state of every run of the server. */
module ServerTheorems {
  import opened Bytes
  import opened Session
  import opened Server
  import opened ServerInvariant

  predicate WorksFor(s: State, i: nat, id: ClientId) {
    i < |s.tasks| && Owner(s.tasks[i]) == Some(id)
  }

  /**
   Token passing: an id is active exactly when some task works for it, and then exactly one does.
   So no handler ever runs for a closed client, and no client is served twice at once.
   */
  lemma OneTaskPerClient(workers: nat, run: seq<State>, k: nat, id: ClientId)
    requires Run(workers, run) && k < |run|
    ensures id in run[k].ids <==> exists i: nat :: WorksFor(run[k], i, id)
    ensures forall i: nat, j: nat :: WorksFor(run[k], i, id) && WorksFor(run[k], j, id) ==> i == j
  {
    var s := run[k];
    RunInv(workers, run, k);
    assert Owned(s, id);
    if id in s.ids {
      var i := TallyWitness(Owns(id), s.tasks);
      assert WorksFor(s, i, id);
    }
    forall i: nat | WorksFor(s, i, id) ensures id in s.ids {
      OwnerActive(s, i);
    }
    forall i: nat, j: nat | WorksFor(s, i, id) && WorksFor(s, j, id) ensures i == j {
      if i != j { OwnerUnique(s, i, j); }
    }
  }

  /** No assert of the source fails in any run. */
  lemma AssertsNeverFail(workers: nat, run: seq<State>, k: nat)
    requires Run(workers, run) && k < |run|
    ensures run[k].assertsHeld
  {
    RunInv(workers, run, k);
  }

  /**
   Single listener: exactly one task of the accept loop exists until an accept or a timer fails,
   and none afterwards; at most one id is being drawn; and cancelling the acceptor in
   connection_timeout changes nothing.
   */
  lemma SingleListener(workers: nat, run: seq<State>, k: nat)
    requires Run(workers, run) && k < |run|
    ensures var s := run[k];
      && (!s.stopped ==> exists i :: 0 <= i < |s.tasks| && s.tasks[i].Loop?)
      && (forall i :: 0 <= i < |s.tasks| && s.tasks[i].Loop? ==> !s.stopped)
      && (forall i, j :: 0 <= i < |s.tasks| && 0 <= j < |s.tasks| && s.tasks[i].Loop? && s.tasks[j].Loop? ==> i == j)
      && (forall i, j :: 0 <= i < |s.tasks| && 0 <= j < |s.tasks| && s.tasks[i].Draw? && s.tasks[j].Draw? ==> i == j)
      && (forall i {:trigger s.tasks[i]} :: 0 <= i < |s.tasks| && s.tasks[i] == Loop(ConnectionTimeout) ==>
            CancelAccepts(Remove(s.tasks, i)) == Remove(s.tasks, i))
  {
    var s := run[k];
    RunInv(workers, run, k);
    if !s.stopped {
      var i := TallyWitness(Listens, s.tasks);
      assert s.tasks[i].Loop?;
    }
    forall i | 0 <= i < |s.tasks| && s.tasks[i].Loop? ensures !s.stopped {
      TallyAt(Listens, s.tasks, i);
    }
    forall i, j | 0 <= i < |s.tasks| && 0 <= j < |s.tasks| && s.tasks[i].Loop? && s.tasks[j].Loop? ensures i == j {
      if i != j { ListenerUnique(s, i, j); }
    }
    forall i, j | 0 <= i < |s.tasks| && 0 <= j < |s.tasks| && s.tasks[i].Draw? && s.tasks[j].Draw? ensures i == j {
      if i != j { TallyPair(Draws, s.tasks, i, j); }
    }
    forall i | 0 <= i < |s.tasks| && s.tasks[i] == Loop(ConnectionTimeout)
      ensures CancelAccepts(Remove(s.tasks, i)) == Remove(s.tasks, i)
    {
      CancelFindsNothing(s, i);
    }
  }

  /** A step of the run at which a failed accept or timer completion is handled. */
  ghost predicate FailsAt(run: seq<State>, j: nat) {
    j + 1 < |run| && StopStep(run[j], run[j + 1])
  }

  ghost predicate StopStep(s: State, s': State) {
    exists i: nat, c: Choice :: Step(s, i, c, s') && Stops(s.tasks[i])
  }

  /** The listener is gone only after a failed accept or timer completion has been handled. */
  lemma {:induction false} StoppedByFailure(workers: nat, run: seq<State>, k: nat)
    requires Run(workers, run) && k < |run| && run[k].stopped
    ensures exists j: nat :: j < k && FailsAt(run, j)
  {
    if k > 0 {
      var m := k - 1;
      assert CanStep(run[m], run[m + 1]);
      var i: nat, c: Choice :| Step(run[m], i, c, run[m + 1]);
      if run[m].stopped {
        StoppedByFailure(workers, run, m);
      } else {
        assert FailsAt(run, m);
      }
    }
  }

  /** Once such a failure has been handled, no task of the accept loop ever exists again. */
  lemma FailureStops(workers: nat, run: seq<State>, j: nat, k: nat)
    requires Run(workers, run) && j < k < |run| && FailsAt(run, j)
    ensures run[k].stopped && forall i :: 0 <= i < |run[k].tasks| ==> !run[k].tasks[i].Loop?
  {
    StoppedForGood(workers, run, j + 1, k);
  }

  /** A stopped listener never resumes. */
  lemma {:induction false} StoppedForGood(workers: nat, run: seq<State>, j: nat, k: nat)
    requires Run(workers, run) && j <= k < |run| && run[j].stopped
    ensures run[k].stopped && forall i :: 0 <= i < |run[k].tasks| ==> !run[k].tasks[i].Loop?
  {
    if j < k {
      StoppedForGood(workers, run, j, k - 1);
      var m := k - 1;
      assert CanStep(run[m], run[m + 1]);
    }
    SingleListener(workers, run, k);
  }

  /** The id about to be inserted is not active, however long ago it was drawn. */
  lemma InsertedIdIsSpare(workers: nat, run: seq<State>, k: nat, i: nat)
    requires Run(workers, run) && k < |run| && i < |run[k].tasks|
    requires run[k].tasks[i].Loop? && run[k].tasks[i].loop.InsertId?
    ensures run[k].tasks[i].loop.id !in run[k].ids
  {
    RunInv(workers, run, k);
    assert TaskOk(run[k], run[k].tasks[i]);
  }

  /**
   The message map: an entry is everything ever stored under its id, in order; and the history of
   every id obeys the session grammar.
   */
  lemma MessagesAreHistories(workers: nat, run: seq<State>, k: nat, id: ClientId)
    requires Run(workers, run) && k < |run|
    ensures var s := run[k];
      && Chain(HistoryOf(s, id)) && RepliesAreStored(HistoryOf(s, id))
      && (id in s.messages <==> HasStored(HistoryOf(s, id)))
      && (id in s.messages ==> s.messages[id] == StoredBytes(HistoryOf(s, id)))
  {
    RunInv(workers, run, k);
    assert ClientOk(run[k], id);
  }

  /**
   Echo: the bytes handed to async_write are the entry the map held when this connection joined
   (empty for a fresh key), then all bytes the connection received, then the NULs that pad its
   last read up to the size of its buffer. That last read ended the stream and carried a byte.
   */
  lemma EchoesWhatItReceived(workers: nat, run: seq<State>, k: nat, id: ClientId, a: nat, w: nat)
    requires Run(workers, run) && k < |run|
    requires var h := HistoryOf(run[k], id); w < |h| && h[w].WriteStarted? && SessionStart(h, a, w)
    ensures var h := HistoryOf(run[k], id);
      && w >= 2 && h[w - 2].ReadEnded? && |h[w - 2].data| > 0 && (h[w - 2].code.Eof? || h[w - 2].code.NoPermission?)
      && h[w].bytes == StoredUpTo(h, a) + ReceivedIn(h, a, w) + Zeros(LastPadding(h, w))
      && LastPadding(h, w) == h[w - 2].size - |h[w - 2].data|
      && forall j :: |StoredUpTo(h, a) + ReceivedIn(h, a, w)| <= j < |h[w].bytes| ==> h[w].bytes[j] == 0
  {
    MessagesAreHistories(workers, run, k, id);
    WritePreamble(HistoryOf(run[k], id), a, w);
    ReplyBytes(HistoryOf(run[k], id), a, w);
  }

  /**
   on_read, as a session shows it: a read that brought a byte and ended without error, with eof or
   with no_permission is stored whole, its bytes and then NULs; every other read ends the session.
   */
  lemma ReadsAreProcessed(workers: nat, run: seq<State>, k: nat, id: ClientId, j: nat)
    requires Run(workers, run) && k < |run|
    requires var h := HistoryOf(run[k], id); j + 1 < |h| && h[j].ReadEnded?
    ensures var h := HistoryOf(run[k], id);
      && |h[j].data| <= h[j].size
      && h[j + 1] == if |h[j].data| > 0 && h[j].code != OtherError
                     then Stored(h[j].code, h[j].data + Zeros(h[j].size - |h[j].data|)) else ShutdownPosted
  {
    MessagesAreHistories(workers, run, k, id);
    ProcessedExactly(HistoryOf(run[k], id), j);
  }

  /**
   The entry of an id is never erased, and an id may be drawn again after it was closed: the reply is
   this connection's bytes and padding if and only if no earlier session of the id stored anything.
   */
  lemma EchoesOnlyItsOwn(workers: nat, run: seq<State>, k: nat, id: ClientId, a: nat, w: nat)
    requires Run(workers, run) && k < |run|
    requires var h := HistoryOf(run[k], id); w < |h| && h[w].WriteStarted? && SessionStart(h, a, w)
    ensures var h := HistoryOf(run[k], id);
      h[w].bytes == ReceivedIn(h, a, w) + Zeros(LastPadding(h, w)) <==> forall j :: 0 <= j < a ==> !h[j].Stored?
  {
    MessagesAreHistories(workers, run, k, id);
    OwnReply(HistoryOf(run[k], id), a, w);
  }

  /** Per connection: at most one write, no read after it, one shutdown after it, at most one close. */
  lemma SessionsAreOrderly(workers: nat, run: seq<State>, k: nat, id: ClientId)
    requires Run(workers, run) && k < |run|
    ensures var h := HistoryOf(run[k], id);
      && (forall w, m :: 0 <= w < m < |h| && h[w].WriteStarted? && (h[m].WriteStarted? || h[m].ReadStarted?) ==>
            exists x :: w < x < m && h[x].Joined?)
      && (forall w {:trigger h[w].WriteStarted?} :: 0 <= w < |h| && h[w].WriteStarted? ==>
            && (w + 1 < |h| ==> h[w + 1].WriteEnded?)
            && (w + 2 < |h| ==> h[w + 2].ShutdownPosted?)
            && (w + 3 < |h| ==> h[w + 3].Closed?)
            && (w + 4 < |h| ==> h[w + 4].Joined?))
      && (forall w, m :: 0 <= w < m < |h| && h[w].Closed? && h[m].Closed? ==> exists x :: w < x < m && h[x].Joined?)
  {
    var h := HistoryOf(run[k], id);
    MessagesAreHistories(workers, run, k, id);
    forall w, m | 0 <= w < m < |h| && h[w].WriteStarted? && (h[m].WriteStarted? || h[m].ReadStarted?)
      ensures exists x :: w < x < m && h[x].Joined?
    {
      OneWritePerSession(h, w, m);
    }
    forall w | 0 <= w < |h| && h[w].WriteStarted?
      ensures && (w + 1 < |h| ==> h[w + 1].WriteEnded?)
              && (w + 2 < |h| ==> h[w + 2].ShutdownPosted?)
              && (w + 3 < |h| ==> h[w + 3].Closed?)
              && (w + 4 < |h| ==> h[w + 4].Joined?)
    {
      WriteThenShutdown(h, w);
    }
    forall w, m | 0 <= w < m < |h| && h[w].Closed? && h[m].Closed?
      ensures exists x :: w < x < m && h[x].Joined?
    {
      OneClosePerSession(h, w, m);
    }
  }

  /**
   While a client's reply is being sent or logged, its stored string is the one being sent, and no
   step of any handler changes it: the unlocked reads of the string are safe.
   */
  lemma ReplyStringIsStable(workers: nat, run: seq<State>, k: nat, j: nat, i: nat, c: Choice)
    requires Run(workers, run) && k < |run|
    requires j < |run[k].tasks| && run[k].tasks[j].Client? && Replying(run[k].tasks[j].phase)
    requires Enabled(run[k], i, c)
    ensures var s := run[k];
      var id := s.tasks[j].id;
      && Lookup(s.messages, id) == Some(s.tasks[j].phase.bytes)
      && Lookup(Next(s, i, c).messages, id) == Lookup(s.messages, id)
  {
    var s := run[k];
    RunInv(workers, run, k);
    assert TaskOk(s, s.tasks[j]);
    if i != j { OwnerUnique(s, j, i); }
    ClientFrame(s, i, c, s.tasks[j].id);
  }

  /** A step whose only lock is the shared one: it calls operator[] on the message map. */
  predicate SharedSection(t: Task) {
    match t
    case Client(_, StartReply(code)) => !code.Success?
    case Client(_, WriteDone(_, code)) => code.Success?
    case _ => false
  }

  /** operator[] under the shared lock always finds its key, so these sections never change the map. */
  lemma SharedSectionsOnlyRead(workers: nat, run: seq<State>, k: nat, i: nat, c: Choice)
    requires Run(workers, run) && k < |run| && Enabled(run[k], i, c) && SharedSection(run[k].tasks[i])
    ensures run[k].tasks[i].id in run[k].messages
    ensures Next(run[k], i, c).messages == run[k].messages
  {
    RunInv(workers, run, k);
    assert TaskOk(run[k], run[k].tasks[i]);
  }

  // ---- the connection counter ----

  /** Clients past the handshake whose connection has not been dropped. */
  function Established(s: State): nat {
    Tally(Past, s.tasks)
  }

  /**
   Conservation: modulo 2^32 the counter is completed handshakes minus executed shutdowns. It
   equals the number of established clients exactly when the shutdowns that followed a failed
   handshake are a multiple of 2^32: in practice, when there were none.
   */
  lemma CounterConservation(workers: nat, run: seq<State>, k: nat)
    requires Run(workers, run) && k < |run|
    ensures var s := run[k];
      && s.connections == (s.handshakes - s.drops) % COUNTER_RANGE
      && s.connections == (Established(s) - s.failedDrops) % COUNTER_RANGE
      && (Established(s) < COUNTER_RANGE ==>
            (s.connections == Established(s) <==> s.failedDrops % COUNTER_RANGE == 0))
  {
    RunInv(workers, run, k);
    assert Established(run[k]) - run[k].failedDrops == run[k].handshakes - run[k].drops;
  }

  /**
   When listen goes on to accept: exactly when established clients minus shutdowns after failed
   handshakes, modulo 2^32, do not exceed the limit.
   */
  lemma ListenAcceptsExactly(workers: nat, run: seq<State>, k: nat, c: Choice)
    requires Run(workers, run) && k < |run|
    ensures SpawnLoop(run[k], Listen, c) == [Loop(Decided(true))]
       <==> (Established(run[k]) - run[k].failedDrops) % COUNTER_RANGE <= 100
    ensures SpawnLoop(run[k], Listen, c) in {[Loop(Decided(true))], [Loop(Decided(false))]}
  {
    CounterConservation(workers, run, k);
  }

  /** Whenever failed handshakes outnumber established clients, listen refuses to accept. */
  lemma DeafWhenFailuresOutnumber(workers: nat, run: seq<State>, k: nat, c: Choice)
    requires Run(workers, run) && k < |run|
    requires Established(run[k]) < run[k].failedDrops <= Established(run[k]) + COUNTER_RANGE - MAX_CONNECTIONS - 1
    ensures SpawnLoop(run[k], Listen, c) == [Loop(Decided(false))]
  {
    CounterConservation(workers, run, k);
  }

  /** Nothing is left but an accept loop that sees too large a counter. */
  ghost predicate Deaf(s: State) {
    && s.connections > MAX_CONNECTIONS
    && forall i :: 0 <= i < |s.tasks| ==> Backoff(s.tasks[i])
  }

  lemma DeafStep(s: State, i: nat, c: Choice)
    requires Deaf(s) && Enabled(s, i, c)
    ensures Deaf(Next(s, i, c)) && Next(s, i, c).round == s.round
  {
    var t, s' := s.tasks[i], Next(s, i, c);
    assert Backoff(t);
    var rest := Remove(s.tasks, i);
    assert forall j :: 0 <= j < |rest| ==> Backoff(rest[j]);
    assert forall j :: 0 <= j < |CancelAccepts(rest)| ==> CancelAccepts(rest)[j] == rest[j];
    assert forall u :: u in SpawnLoop(s, t.loop, c) ==> Backoff(u);
  }

  /** Deafness is permanent: for the rest of the run no round of accepting begins. */
  lemma {:induction false} DeafForever(workers: nat, run: seq<State>, j: nat, k: nat)
    requires Run(workers, run) && j <= k < |run| && Deaf(run[j])
    ensures Deaf(run[k]) && run[k].round == run[j].round
  {
    if j < k {
      DeafForever(workers, run, j, k - 1);
      var m := k - 1;
      assert CanStep(run[m], run[m + 1]);
      var i: nat, c: Choice :| Step(run[m], i, c, run[m + 1]);
      DeafStep(run[m], i, c);
    }
  }
}
