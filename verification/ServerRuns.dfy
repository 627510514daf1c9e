/**
 Runs with literal bytes: a client whose message arrives in two reads and is echoed, and a client
 that is sent the bytes of an earlier one that drew the same id.
 */
module ServerRuns {
  import opened Bytes
  import opened Session
  import opened Server
  import opened ServerInvariant
  import opened ServerProgress

  /** A server that serves one client, in the given phase, while listen is queued. */
  ghost predicate Serves(reach: iset<State>, s: State, id: ClientId, p: Phase, h: History, m: Option<seq<Byte>>) {
    && StepClosed(reach) && s in reach && s.workers == 2 && s.tasks == [Loop(Listen), Client(id, p)]
    && s.ids == {id} && HistoryOf(s, id) == h && Lookup(s.messages, id) == m
  }

  // ---- a client joins ----

  lemma Inserts(reach: iset<State>, s: State, k: nat, id: ClientId) returns (s': State)
    requires StepClosed(reach) && s in reach && s.workers == 2 && s.tasks == [Loop(InsertId(k, id))]
    requires s.ids == {} && s.connections == 0
    ensures s' in reach && s'.workers == 2 && s'.tasks == [Client(id, AttemptHandshake), Loop(Listen)]
    ensures s'.ids == {id} && s'.connections == 0 && s'.messages == s.messages
    ensures HistoryOf(s', id) == HistoryOf(s, id) + [Joined]
  {
    var c := Choice(Success, id, 0, []);
    s' := Go(reach, s, 0, c, []);
    s' := Go(reach, s', 0, c, []);
    s' := Go(reach, s', 1, c, [s'.tasks[0]]);
  }

  lemma Joins(reach: iset<State>, s: State, id: ClientId) returns (s': State)
    requires Idle(reach, s)
    ensures Serves(reach, s', id, Handshaking, HistoryOf(s, id) + [Joined], Lookup(s.messages, id))
    ensures s'.connections == 0
  {
    s' := DrawsId(reach, s, id);
    s' := Accepts(reach, s', s.round + 1, id);
    s' := Inserts(reach, s', s.round + 1, id);
    s' := Go(reach, s', 0, Choice(Success, id, 0, []), [Loop(Listen)]);
  }

  // ---- the client is served ----

  /** One step of the client. */
  lemma Serve(reach: iset<State>, s: State, id: ClientId, p: Phase, h: History, m: Option<seq<Byte>>, c: Choice)
    returns (s': State)
    requires Serves(reach, s, id, p, h, m) && !p.ShutdownSocket? && Permitted(s, Client(id, p), c)
    ensures Serves(reach, s', id, NextPhase(p, c, m), h + Events(p, c, m), NextMessage(p, m))
    ensures s'.connections == NextConnections(s, Client(id, p))
  {
    SmallStep(s, 1, c, [Loop(Listen)], Spawn(s, s.tasks[1], c));
    s' := Go(reach, s, 1, c, [Loop(Listen)]);
    ClientFrame(s, 1, c, id);
    assert HistoryOf(s', id) == HistoryOf(Next(s, 1, c), id);
  }

  lemma ToWait(reach: iset<State>, s: State, id: ClientId, h: History, m: Option<seq<Byte>>) returns (s': State)
    requires Serves(reach, s, id, Handshaking, h, m) && s.connections == 0
    ensures Serves(reach, s', id, ReadMessage, h + [HandshakeOk], m) && s'.connections == 1
  {
    var c, g := Choice(Success, id, 0, []), h + [HandshakeOk];
    s' := Serve(reach, s, id, Handshaking, h, m, c);
    assert h + [] == h;
    s' := Serve(reach, s', id, HandshakeDone(Success), h, m, c);
    s' := Serve(reach, s', id, StartReading, g, m, c);
    assert g + [] == g;
  }

  lemma ToRead(reach: iset<State>, s: State, id: ClientId, h: History, m: Option<seq<Byte>>, size: nat)
    returns (s': State)
    requires Serves(reach, s, id, ReadMessage, h, m) && s.connections == 1
    ensures Serves(reach, s', id, Reading(size), h + [ReadStarted(size)], m) && s'.connections == 1
  {
    var c := Choice(Success, id, size, []);
    s' := Serve(reach, s, id, ReadMessage, h, m, c);
    assert h + [] == h;
    s' := Serve(reach, s', id, WaitingRead, h, m, c);
    s' := Serve(reach, s', id, ReadReady(Success), h, m, c);
  }

  /** The events of a read and of the store of its buffer. */
  function ReadEvents(size: nat, data: seq<Byte>, code: ErrorCode, buffer: seq<Byte>): History {
    [ReadEnded(size, data, code), Stored(code, buffer)]
  }

  lemma ToStore(reach: iset<State>, s: State, id: ClientId, h: History, m: Option<seq<Byte>>,
                size: nat, data: seq<Byte>, code: ErrorCode, buffer: seq<Byte>)
    returns (s': State)
    requires Serves(reach, s, id, Reading(size), h, m) && s.connections == 1
    requires 0 < |data| <= size && (code.Success? ==> |data| == size) && code != OtherError
    requires buffer == data + Zeros(size - |data|)
    ensures Serves(reach, s', id, StartReply(code), h + ReadEvents(size, data, code, buffer),
                   Some(Subscript(m) + buffer))
    ensures s'.connections == 1
  {
    var c, e := Choice(code, id, 0, data), [ReadEnded(size, data, code)];
    s' := Serve(reach, s, id, Reading(size), h, m, c);
    s' := Serve(reach, s', id, ReadDone(size, data, code), h + e, m, c);
    assert h + e + [] == h + e && Padded(size, data) == buffer;
    s' := Serve(reach, s', id, ProcessMessage(buffer, code), h + e, m, c);
    assert h + e + [Stored(code, buffer)] == h + ReadEvents(size, data, code, buffer);
    assert m.None? ==> Subscript(m) + buffer == buffer;
  }

  /** After a read that did not end the stream the client is read again. */
  lemma ReadsOn(reach: iset<State>, s: State, id: ClientId, h: History, m: Option<seq<Byte>>) returns (s': State)
    requires Serves(reach, s, id, StartReply(Success), h, m) && s.connections == 1
    ensures Serves(reach, s', id, ReadMessage, h, m) && s'.connections == 1
  {
    s' := Serve(reach, s, id, StartReply(Success), h, m, Choice(Success, id, 0, []));
    assert h + [] == h;
  }

  lemma ToReply(reach: iset<State>, s: State, id: ClientId, h: History, reply: seq<Byte>) returns (s': State)
    requires Serves(reach, s, id, StartReply(Eof), h, Some(reply)) && s.connections == 1
    ensures Serves(reach, s', id, Writing(reply), h + [WriteStarted(reply)], Some(reply)) && s'.connections == 1
  {
    s' := Serve(reach, s, id, StartReply(Eof), h, Some(reply), Choice(Eof, id, 0, []));
  }

  lemma ToShutdown(reach: iset<State>, s: State, id: ClientId, h: History, reply: seq<Byte>) returns (s': State)
    requires Serves(reach, s, id, Writing(reply), h, Some(reply)) && s.connections == 1
    ensures Serves(reach, s', id, ShutdownSocket(true), h + [WriteEnded(Success)] + [ShutdownPosted], Some(reply))
    ensures s'.connections == 1
  {
    var c, g := Choice(Success, id, 0, []), h + [WriteEnded(Success)];
    s' := Serve(reach, s, id, Writing(reply), h, Some(reply), c);
    s' := Serve(reach, s', id, WriteDone(reply, Success), g, Some(reply), c);
    assert g + [] == g;
    s' := Serve(reach, s', id, LogReply(reply), g, Some(reply), c);
  }

  lemma ToIdle(reach: iset<State>, s: State, id: ClientId, h: History, reply: seq<Byte>) returns (s': State)
    requires Serves(reach, s, id, ShutdownSocket(true), h, Some(reply)) && s.connections == 1
    ensures Idle(reach, s') && HistoryOf(s', id) == h + [Closed] && Lookup(s'.messages, id) == Some(reply)
  {
    var c := Choice(Success, id, 0, []);
    s' := Go(reach, s, 1, c, [Loop(Listen)]);
    s' := Go(reach, s', 1, c, [Loop(Listen)]);
  }

  /** What a session that receives the single byte b and ends adds to its history. */
  function SessionEvents(b: Byte, reply: seq<Byte>): History {
    [Joined, HandshakeOk, ReadStarted(1), ReadEnded(1, [b], Eof), Stored(Eof, [b]), WriteStarted(reply)]
  }

  lemma OneSession(reach: iset<State>, s: State, id: ClientId, b: Byte) returns (s': State)
    requires Idle(reach, s)
    ensures var h, m := HistoryOf(s, id), Lookup(s.messages, id);
      var reply := Subscript(m) + [b];
      Serves(reach, s', id, Writing(reply), h + SessionEvents(b, reply), Some(reply))
    ensures s'.connections == 1
  {
    var h, m := HistoryOf(s, id), Lookup(s.messages, id);
    var reply := Subscript(m) + [b];
    var g := h + [Joined] + [HandshakeOk];
    s' := Joins(reach, s, id);
    s' := ToWait(reach, s', id, h + [Joined], m);
    s' := ToRead(reach, s', id, g, m, 1);
    s' := ToStore(reach, s', id, g + [ReadStarted(1)], m, 1, [b], Eof, [b]);
    s' := ToReply(reach, s', id, g + [ReadStarted(1)] + ReadEvents(1, [b], Eof, [b]), reply);
    assert g + [ReadStarted(1)] + ReadEvents(1, [b], Eof, [b]) + [WriteStarted(reply)] == h + SessionEvents(b, reply);
  }

  /** The session of id that starts at a is sent, at w, more than it received and its padding. */
  ghost predicate Leaks(s: State, id: ClientId, a: nat, w: nat) {
    var h := HistoryOf(s, id);
    && w < |h| && h[w].WriteStarted? && SessionStart(h, a, w)
    && h[w].bytes != ReceivedIn(h, a, w) + Zeros(LastPadding(h, w))
  }

  /** The second session of a drawn-again id receives [2] and is sent [1, 2]. */
  lemma EarlierBytesLeak(id: ClientId)
    ensures exists s, a: nat, w: nat ::
              Reachable(2, s) && Leaks(s, id, a, w) && HistoryOf(s, id)[w] == WriteStarted([1, 2])
  {
    var reach := ReachableClosed(2);
    var first, second := SessionEvents(1, [1]), SessionEvents(2, [1, 2]);
    var s := OneSession(reach, Init(2), id, 1);
    assert [] + first == first && Subscript(None) + [1] == [1];
    s := ToShutdown(reach, s, id, first, [1]);
    s := ToIdle(reach, s, id, first + [WriteEnded(Success)] + [ShutdownPosted], [1]);
    var h := first + [WriteEnded(Success)] + [ShutdownPosted] + [Closed];
    s := OneSession(reach, s, id, 2);
    var one: seq<Byte>, two: seq<Byte> := [1], [2];
    assert one + two == [1, 2];
    assert HistoryOf(s, id) == h + second;
    assert Reachable(2, s);
    SecondSession(h, second);
    assert Leaks(s, id, 9, 14);
  }

  lemma SecondSession(h: History, second: History)
    requires |h| == 9 && second == SessionEvents(2, [1, 2])
    ensures var g := h + second;
      SessionStart(g, 9, 14) && g[14] == WriteStarted([1, 2]) && ReceivedIn(g, 9, 14) == [2] && LastPadding(g, 14) == 0
  {
    var g := h + second;
    assert forall k :: 0 <= k < 6 ==> g[9 + k] == second[k];
    assert ReceivedIn(g, 9, 10) == [];
    assert ReceivedIn(g, 9, 11) == [];
    assert ReceivedIn(g, 9, 12) == [];
    assert ReceivedIn(g, 9, 13) == [] + [2];
  }

  // ---- two reads, one reply ----

  lemma FirstRead(reach: iset<State>, id: ClientId) returns (s: State)
    requires Idle(reach, Init(2))
    ensures Serves(reach, s, id, ReadMessage,
      [Joined, HandshakeOk, ReadStarted(2), ReadEnded(2, [1, 2], Success), Stored(Success, [1, 2])], Some([1, 2]))
    ensures s.connections == 1
  {
    var h := [] + [Joined] + [HandshakeOk] + [ReadStarted(2)];
    s := Joins(reach, Init(2), id);
    s := ToWait(reach, s, id, [] + [Joined], None);
    s := ToRead(reach, s, id, [] + [Joined] + [HandshakeOk], None, 2);
    s := ToStore(reach, s, id, h, None, 2, [1, 2], Success, [1, 2]);
    s := ReadsOn(reach, s, id, h + ReadEvents(2, [1, 2], Success, [1, 2]), Some([] + [1, 2]));
    assert [] + [1, 2] == [1, 2];
    assert h + ReadEvents(2, [1, 2], Success, [1, 2])
        == [Joined, HandshakeOk, ReadStarted(2), ReadEnded(2, [1, 2], Success), Stored(Success, [1, 2])];
  }

  lemma SecondRead(reach: iset<State>, s: State, id: ClientId, h: History) returns (s': State)
    requires Serves(reach, s, id, ReadMessage, h, Some([1, 2])) && s.connections == 1
    ensures Serves(reach, s', id, Writing([1, 2, 3, 0, 0]),
      h + [ReadStarted(3), ReadEnded(3, [3], Eof), Stored(Eof, [3, 0, 0]), WriteStarted([1, 2, 3, 0, 0])],
      Some([1, 2, 3, 0, 0]))
  {
    var one: seq<Byte>, two: seq<Byte>, all: seq<Byte> := [1, 2], [3, 0, 0], [1, 2, 3, 0, 0];
    var g := h + [ReadStarted(3)];
    s' := ToRead(reach, s, id, h, Some(one), 3);
    s' := ToStore(reach, s', id, g, Some(one), 3, [3], Eof, two);
    assert one + two == all;
    s' := ToReply(reach, s', id, g + ReadEvents(3, [3], Eof, two), all);
    assert g + ReadEvents(3, [3], Eof, two) + [WriteStarted(all)]
        == h + [ReadStarted(3), ReadEnded(3, [3], Eof), Stored(Eof, two), WriteStarted(all)];
  }

  /**
   A client sends 1 and 2, then 3 and the end of the stream into a buffer of three bytes: both reads
   are stored in order, the second with its padding, and all of it is sent back.
   */
  lemma TwoReadsAreEchoed(id: ClientId)
    ensures exists s ::
      && Reachable(2, s) && Client(id, Writing([1, 2, 3, 0, 0])) in s.tasks
      && HistoryOf(s, id) == [
           Joined, HandshakeOk, ReadStarted(2), ReadEnded(2, [1, 2], Success), Stored(Success, [1, 2]),
           ReadStarted(3), ReadEnded(3, [3], Eof), Stored(Eof, [3, 0, 0]), WriteStarted([1, 2, 3, 0, 0])]
  {
    var reach := ReachableClosed(2);
    var h := [Joined, HandshakeOk, ReadStarted(2), ReadEnded(2, [1, 2], Success), Stored(Success, [1, 2])];
    var s := FirstRead(reach, id);
    s := SecondRead(reach, s, id, h);
    assert s.tasks[1] == Client(id, Writing([1, 2, 3, 0, 0])) && Reachable(2, s);
    assert HistoryOf(s, id) == [
      Joined, HandshakeOk, ReadStarted(2), ReadEnded(2, [1, 2], Success), Stored(Success, [1, 2]),
      ReadStarted(3), ReadEnded(3, [3], Eof), Stored(Eof, [3, 0, 0]), WriteStarted([1, 2, 3, 0, 0])];
  }

  // ---- an accept that fails ----

  /** A failed accept is reached, and leaves an idle server without a listener. */
  lemma AcceptCanFail(id: ClientId)
    ensures exists s :: Reachable(2, s) && s.stopped && s.tasks == []
  {
    var reach := ReachableClosed(2);
    var c := Choice(OtherError, id, 0, []);
    var s := DrawsId(reach, Init(2), id);
    s := Go(reach, s, 0, c, []);
    s := Go(reach, s, 0, c, []);
    s := Go(reach, s, 0, c, []);
    assert Reachable(2, s);
    ReachableInv(2, s);
    assert Tally(Listens, s.tasks) == 0;
  }
}
