/**
 What one client id goes through, as a sequence of events, and the grammar that a correct
 sequence obeys. The grammar is stated on its own, without reference to the handlers:
 ServerInvariant proves that every run of the server stays inside it.
 */
module Session {
  import opened Bytes

  /** The completion codes that the handlers tell apart (src/tcp_server.cc:175). */
  datatype ErrorCode = Success | Eof | NoPermission | OtherError

  datatype Event =
    | Joined                                                      // id inserted into the active set
    | HandshakeOk
    | ReadStarted(size: nat)                                      // buffer of `available()` NULs
    | ReadEnded(size: nat, data: seq<Byte>, code: ErrorCode)      // data arrived at its front
    | Stored(code: ErrorCode, buffer: seq<Byte>)                  // whole buffer appended to the map
    | WriteStarted(bytes: seq<Byte>)
    | WriteEnded(code: ErrorCode)
    | ShutdownPosted
    | Closed                                                      // id erased from the active set

  type History = seq<Event>

  /** The whole read buffer: the bytes that arrived, then the NULs it was created with. */
  function Padded(size: nat, data: seq<Byte>): seq<Byte> {
    if |data| <= size then data + Zeros(size - |data|) else data
  }

  /** received_valid_message: a read whose buffer is handed on to be processed. */
  predicate ValidMessage(data: seq<Byte>, code: ErrorCode) {
    |data| > 0 && (code.Success? || code.Eof? || code.NoPermission?)
  }

  /** The contract of the asynchronous read: transfer everything unless an error ends it early. */
  predicate ReadContract(size: nat, data: seq<Byte>, code: ErrorCode) {
    |data| <= size && (code.Success? ==> |data| == size)
  }

  /** Which event may come straight after which. */
  predicate Follows(e: Event, f: Event) {
    match e
    case Joined => f.HandshakeOk? || f.ShutdownPosted?
    case HandshakeOk => f.ReadStarted? || f.ShutdownPosted?
    case ReadStarted(size) => f.ReadEnded? && f.size == size && ReadContract(size, f.data, f.code)
    case ReadEnded(size, data, code) =>
      if ValidMessage(data, code) then f == Stored(code, Padded(size, data)) else f.ShutdownPosted?
    case Stored(code, _) =>
      if code.Success? then f.ReadStarted? || f.ShutdownPosted? else f.WriteStarted?
    case WriteStarted(_) => f.WriteEnded?
    case WriteEnded(_) => f.ShutdownPosted?
    case ShutdownPosted => f.Closed?
    case Closed => f.Joined?
  }

  predicate Linked(h: History, k: nat) {
    0 < k < |h| ==> Follows(h[k - 1], h[k])
  }

  /** A history that the grammar admits. */
  ghost predicate Chain(h: History) {
    && (|h| > 0 ==> h[0].Joined?)
    && forall k: nat :: Linked(h, k)
  }

  /** The buffers stored by the first k events of a history, in order, as one byte string. */
  function StoredUpTo(h: History, k: nat): seq<Byte>
    requires k <= |h|
  {
    if k == 0 then []
    else if h[k - 1].Stored? then StoredUpTo(h, k - 1) + h[k - 1].buffer
    else StoredUpTo(h, k - 1)
  }

  function StoredBytes(h: History): seq<Byte> {
    StoredUpTo(h, |h|)
  }

  /** The bytes that arrived between positions a and k of a history, in order. */
  function ReceivedIn(h: History, a: nat, k: nat): seq<Byte>
    requires a <= k <= |h|
  {
    if k == a then []
    else if h[k - 1].ReadEnded? then ReceivedIn(h, a, k - 1) + h[k - 1].data
    else ReceivedIn(h, a, k - 1)
  }

  ghost predicate HasStored(h: History) {
    exists k :: 0 <= k < |h| && h[k].Stored?
  }

  predicate ReplyIsStored(h: History, k: nat) {
    k < |h| && h[k].WriteStarted? ==> h[k].bytes == StoredUpTo(h, k)
  }

  /** Every reply is exactly what had been stored by then. */
  ghost predicate RepliesAreStored(h: History) {
    forall k: nat :: ReplyIsStored(h, k)
  }

  /** a is where the session containing position k started. */
  ghost predicate SessionStart(h: History, a: nat, k: nat) {
    a < k <= |h| && h[a].Joined? && forall j :: a < j < k ==> !h[j].Joined?
  }

  // ---- growing a history ----

  lemma {:induction false} StoredPrefix(h: History, e: Event, k: nat)
    requires k <= |h|
    ensures StoredUpTo(h + [e], k) == StoredUpTo(h, k)
  {
    if k > 0 { StoredPrefix(h, e, k - 1); }
  }

  lemma Extend(h: History, e: Event)
    requires Chain(h)
    requires if |h| == 0 then e.Joined? else Follows(h[|h| - 1], e)
    ensures Chain(h + [e])
    ensures StoredBytes(h + [e]) == if e.Stored? then StoredBytes(h) + e.buffer else StoredBytes(h)
    ensures HasStored(h + [e]) <==> HasStored(h) || e.Stored?
  {
    var g := h + [e];
    StoredPrefix(h, e, |h|);
    forall k: nat ensures Linked(g, k) {
      assert Linked(h, k);
    }
    assert g[|h|] == e;
    if HasStored(h) {
      var k :| 0 <= k < |h| && h[k].Stored?;
      assert g[k].Stored?;
    }
  }

  lemma ExtendReplies(h: History, e: Event)
    requires RepliesAreStored(h)
    requires e.WriteStarted? ==> e.bytes == StoredBytes(h)
    ensures RepliesAreStored(h + [e])
  {
    forall k: nat ensures ReplyIsStored(h + [e], k) {
      assert ReplyIsStored(h, k);
      if k <= |h| { StoredPrefix(h, e, k); }
    }
  }

  lemma {:induction false} NothingStored(h: History, k: nat)
    requires !HasStored(h) && k <= |h|
    ensures StoredUpTo(h, k) == []
  {
    if k > 0 { NothingStored(h, k - 1); }
  }

  // ---- what the grammar implies ----

  /** From here on a session only winds down: no further read can start. */
  predicate Ending(e: Event) {
    match e
    case ReadEnded(_, _, code) => !code.Success?
    case Stored(code, _) => !code.Success?
    case WriteStarted(_) => true
    case WriteEnded(_) => true
    case ShutdownPosted => true
    case Closed => true
    case _ => false
  }

  lemma {:induction false} EndingStays(h: History, j: nat, m: nat)
    requires Chain(h) && j <= m < |h| && Ending(h[j])
    requires forall x :: j < x <= m ==> !h[x].Joined?
    ensures Ending(h[m])
  {
    if j < m {
      EndingStays(h, j, m - 1);
      assert Linked(h, m);
    }
  }

  /**
   While a session is still reading, the bytes it stored are the bytes it received, up to a read
   that has ended and is not stored yet: no padding and nothing lost or reordered.
   */
  lemma {:induction false} StoredKeepsUp(h: History, a: nat, k: nat)
    requires Chain(h) && SessionStart(h, a, k + 1) && !Ending(h[k])
    ensures h[k].ReadEnded? ==> StoredUpTo(h, k) + h[k].data == StoredUpTo(h, a) + ReceivedIn(h, a, k + 1)
    ensures !h[k].ReadEnded? ==> StoredUpTo(h, k + 1) == StoredUpTo(h, a) + ReceivedIn(h, a, k + 1)
  {
    if k > a {
      var before := h[k - 1];
      assert Linked(h, k);
      assert !Ending(before);
      StoredKeepsUp(h, a, k - 1);
      if h[k].ReadEnded? {
        assert StoredUpTo(h, k) + h[k].data == StoredUpTo(h, a) + (ReceivedIn(h, a, k) + h[k].data);
      } else if h[k].Stored? {
        assert Linked(h, k - 1);
        assert h[k].buffer == before.data + Zeros(0) == before.data;
      }
    }
  }

  /** A write is preceded by a read that ended the stream with at least one byte, and its store. */
  lemma WritePreamble(h: History, a: nat, k: nat)
    requires Chain(h) && k < |h| && h[k].WriteStarted? && SessionStart(h, a, k)
    ensures a + 4 <= k && h[k - 3].ReadStarted? && h[k - 2].ReadEnded?
    ensures |h[k - 2].data| <= h[k - 2].size
    ensures ValidMessage(h[k - 2].data, h[k - 2].code) && !h[k - 2].code.Success?
    ensures h[k - 1] == Stored(h[k - 2].code, Padded(h[k - 2].size, h[k - 2].data))
  {
    assert Linked(h, k);
    assert Linked(h, k - 1);
    assert Linked(h, k - 2);
    assert Linked(h, k - 3);
  }

  /** Which reads the grammar lets a session store, and what it stores of them. */
  lemma ProcessedExactly(h: History, j: nat)
    requires Chain(h) && j + 1 < |h| && h[j].ReadEnded?
    ensures |h[j].data| <= h[j].size
    ensures h[j + 1] == if |h[j].data| > 0 && h[j].code != OtherError
                        then Stored(h[j].code, h[j].data + Zeros(h[j].size - |h[j].data|)) else ShutdownPosted
  {
    assert Linked(h, j) && Linked(h, j + 1);
  }

  /** The NULs that pad the read before the store before position k. */
  function LastPadding(h: History, k: nat): nat {
    if 2 <= k <= |h| && h[k - 2].ReadEnded? && |h[k - 2].data| <= h[k - 2].size
    then h[k - 2].size - |h[k - 2].data| else 0
  }

  /**
   The reply of a session: what was in the map when the session began (nothing, for a fresh key),
   then everything this connection received, in order, then only the NULs that pad its last read.
   */
  lemma ReplyBytes(h: History, a: nat, k: nat)
    requires Chain(h) && RepliesAreStored(h)
    requires k < |h| && h[k].WriteStarted? && SessionStart(h, a, k)
    ensures h[k].bytes == StoredUpTo(h, a) + ReceivedIn(h, a, k) + Zeros(LastPadding(h, k))
  {
    WritePreamble(h, a, k);
    assert ReplyIsStored(h, k);
    StoredKeepsUp(h, a, k - 3);
    assert StoredUpTo(h, k - 1) == StoredUpTo(h, k - 2);
    assert ReceivedIn(h, a, k) == ReceivedIn(h, a, k - 1);
    Regroup(StoredUpTo(h, a), ReceivedIn(h, a, k - 2), h[k - 2].data, Zeros(LastPadding(h, k)));
  }

  /** A stored buffer holds at least one byte, so an entry is empty only if nothing was stored. */
  lemma {:induction false} EmptyEntry(h: History, a: nat)
    requires Chain(h) && a <= |h|
    ensures StoredUpTo(h, a) == [] <==> forall j :: 0 <= j < a ==> !h[j].Stored?
  {
    if a > 0 {
      EmptyEntry(h, a - 1);
      assert Linked(h, a - 1);
    }
  }

  /** The reply is this connection's own bytes and padding if and only if no earlier session stored anything. */
  lemma OwnReply(h: History, a: nat, k: nat)
    requires Chain(h) && RepliesAreStored(h)
    requires k < |h| && h[k].WriteStarted? && SessionStart(h, a, k)
    ensures h[k].bytes == ReceivedIn(h, a, k) + Zeros(LastPadding(h, k)) <==> forall j :: 0 <= j < a ==> !h[j].Stored?
  {
    ReplyBytes(h, a, k);
    EmptyEntry(h, a);
    var earlier, own := StoredUpTo(h, a), ReceivedIn(h, a, k) + Zeros(LastPadding(h, k));
    assert earlier + ReceivedIn(h, a, k) + Zeros(LastPadding(h, k)) == earlier + own;
    if earlier == [] {
      assert earlier + own == own;
    } else {
      assert |earlier + own| > |own|;
    }
  }

  lemma Regroup(a: seq<Byte>, b: seq<Byte>, c: seq<Byte>, d: seq<Byte>)
    ensures (a + b) + (c + d) == a + (b + c) + d
  {
  }

  /**
   A session starts at most one write, and no read follows it: between two writes, and between a
   write and a later read, the id was closed and joined again.
   */
  lemma OneWritePerSession(h: History, k: nat, m: nat)
    requires Chain(h) && k < m < |h| && h[k].WriteStarted?
    requires h[m].WriteStarted? || h[m].ReadStarted?
    ensures exists x :: k < x < m && h[x].Joined?
  {
    assert Linked(h, m);
    if forall x :: k < x < m ==> !h[x].Joined? {
      if h[m].ReadStarted? {
        EndingStays(h, k, m);
      } else if m - 1 > k {
        assert Linked(h, m - 1);
        assert Linked(h, m - 2);
        EndingStays(h, k, m - 3);
      }
    }
  }

  /** After a write starts it ends, then exactly one shutdown is posted, and the session closes. */
  lemma WriteThenShutdown(h: History, k: nat)
    requires Chain(h) && k < |h| && h[k].WriteStarted?
    ensures k + 1 < |h| ==> h[k + 1].WriteEnded?
    ensures k + 2 < |h| ==> h[k + 2].ShutdownPosted?
    ensures k + 3 < |h| ==> h[k + 3].Closed?
    ensures k + 4 < |h| ==> h[k + 4].Joined?
  {
    if k + 1 < |h| { assert Linked(h, k + 1); }
    if k + 2 < |h| { assert Linked(h, k + 2); }
    if k + 3 < |h| { assert Linked(h, k + 3); }
    if k + 4 < |h| { assert Linked(h, k + 4); }
  }

  /** shutdown_socket runs at most once per session: two closes are separated by a new join. */
  lemma OneClosePerSession(h: History, k: nat, m: nat)
    requires Chain(h) && k < m < |h| && h[k].Closed? && h[m].Closed?
    ensures k + 1 < m && h[k + 1].Joined?
  {
    assert Linked(h, k + 1);
  }
}
