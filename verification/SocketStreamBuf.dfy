/**
 basic_socket_streambuf: the get and put areas against the byte streams of a connected session.
 What the operating system answers to recv, send and poll is a script, one answer for each round
 of the loops; partial transfers, retries, expiry and errors are all possible answers.
 */
module SocketStreamBuf {
  import opened Bytes

  const BUFFER_SIZE := 512
  const PUTBACK_MAX := 8

  datatype SocketError = NoError | TimedOut | EndOfFile | OtherFailure

  datatype RecvAnswer =
    | Data(bytes: seq<Byte>)
    | EndOfStream
    | RecvFails
    | RecvWouldBlock(ready: bool)      // then poll_read: ready, or failed
    | RecvExpired

  datatype SendAnswer =
    | Takes(n: nat)
    | TakesNothing                     // 0 bytes and no error
    | SendFails
    | SendWouldBlock(ready: bool)      // then poll_write: ready, or failed
    | SendExpired

  // ---- what a script means ----

  /** Answer k is the first that is not a retry: before it the socket would block and became ready. */
  ghost predicate FirstAnswer(env: seq<RecvAnswer>, k: nat) {
    k < |env| && env[k] != RecvWouldBlock(true) && forall j :: 0 <= j < k ==> env[j] == RecvWouldBlock(true)
  }

  /** recv returns at least one byte and no more than fits behind the putback area. */
  predicate Fits(a: RecvAnswer) {
    a.Data? ==> 0 < |a.bytes| <= BUFFER_SIZE - PUTBACK_MAX
  }

  /** The script ends the receive loop. */
  ghost predicate RecvScript(env: seq<RecvAnswer>) {
    exists k: nat :: FirstAnswer(env, k) && Fits(env[k])
  }

  /** send takes between one byte and all that is left; the script ends the loop. */
  predicate SendScript(size: nat, env: seq<SendAnswer>)
    decreases |env|
  {
    size > 0 ==>
      |env| > 0 &&
      match env[0]
      case Takes(n) => 0 < n <= size && SendScript(size - n, env[1..])
      case SendWouldBlock(ready) => ready ==> SendScript(size, env[1..])
      case _ => true
  }

  /** How many of the bytes are accepted in all, and the error, if any. */
  function Flushed(size: nat, env: seq<SendAnswer>): (r: (nat, SocketError))
    requires SendScript(size, env)
    ensures r.0 <= size && (r.1 != NoError ==> r.0 < size)
    decreases |env|
  {
    if size == 0 then (0, NoError)
    else
      match env[0]
      case Takes(n) => var r := Flushed(size - n, env[1..]); (n + r.0, r.1)
      case TakesNothing => (0, NoError)
      case SendFails => (0, OtherFailure)
      case SendExpired => (0, TimedOut)
      case SendWouldBlock(ready) => if ready then Flushed(size, env[1..]) else (0, OtherFailure)
  }

  /** The send loop carries on after this answer. */
  predicate GoesOn(a: SendAnswer) {
    a.Takes? || a == SendWouldBlock(true)
  }

  /** How many bytes the first k answers take. */
  function TakenUpTo(env: seq<SendAnswer>, k: nat): nat
    requires k <= |env|
  {
    if k == 0 then 0 else TakenUpTo(env, k - 1) + if env[k - 1].Takes? then env[k - 1].n else 0
  }

  lemma {:induction false} TakenFirst(env: seq<SendAnswer>, k: nat)
    requires 0 < k <= |env|
    ensures TakenUpTo(env, k) == (if env[0].Takes? then env[0].n else 0) + TakenUpTo(env[1..], k - 1)
  {
    if k > 1 { TakenFirst(env, k - 1); }
  }

  /**
   A flush gets through what the answers take before the first one that stops the loop, and reports
   that answer's error, unless everything was taken by then.
   */
  lemma {:induction false} FlushedExactly(size: nat, env: seq<SendAnswer>, k: nat)
    requires SendScript(size, env) && k <= |env|
    requires (forall j :: 0 <= j < k ==> GoesOn(env[j])) && (k < |env| ==> !GoesOn(env[k]))
    ensures Flushed(size, env).0 == Min(TakenUpTo(env, k), size)
    ensures TakenUpTo(env, k) >= size ==> Flushed(size, env).1 == NoError
    ensures TakenUpTo(env, k) < size ==>
              && k < |env|
              && (env[k].TakesNothing? ==> Flushed(size, env).1 == NoError)
              && (env[k].SendFails? || env[k] == SendWouldBlock(false) ==> Flushed(size, env).1 == OtherFailure)
              && (env[k].SendExpired? ==> Flushed(size, env).1 == TimedOut)
    decreases k
  {
    if size > 0 && k > 0 {
      TakenFirst(env, k);
      assert GoesOn(env[0]);
      FlushedExactly(if env[0].Takes? then size - env[0].n else size, env[1..], k - 1);
    }
  }

  /** Every answer takes something or asks for a retry. */
  ghost predicate Willing(env: seq<SendAnswer>) {
    forall j :: 0 <= j < |env| ==> GoesOn(env[j])
  }

  lemma PrefixGrows(bytes: seq<Byte>, sent: nat, n: nat)
    requires sent + n <= |bytes|
    ensures bytes[..sent] + bytes[sent..sent + n] == bytes[..sent + n]
  {
  }

  /** The first answer that is not a retry takes something. */
  predicate TakesFirst(env: seq<SendAnswer>) {
    |env| > 0 &&
    match env[0]
    case Takes(_) => true
    case SendWouldBlock(ready) => ready && TakesFirst(env[1..])
    case _ => false
  }

  lemma {:induction false} NothingTaken(size: nat, env: seq<SendAnswer>)
    requires SendScript(size, env) && size > 0
    ensures Flushed(size, env).0 == 0 <==> !TakesFirst(env)
    decreases |env|
  {
    if env[0].SendWouldBlock? && env[0].ready { NothingTaken(size, env[1..]); }
  }

  class SocketStreamBuf {
    var getBuffer: seq<Byte>
    var gptr: nat
    var egptr: nat
    var putBuffer: seq<Byte>           // empty in unbuffered mode
    var pptr: nat
    var epptr: nat
    var ec: SocketError

    // The connection: what its socket has returned and taken.
    var received: seq<Byte>
    var accepted: seq<Byte>

    // The session so far, as the user of the stream sees it.
    ghost var delivered: seq<Byte>     // bytes handed to the reader
    ghost var written: seq<Byte>       // bytes the writer was told are in
    ghost var flushFailed: bool

    /**
     Nothing is lost, duplicated or reordered: bytes delivered and the get area are the bytes
     received; and until a flush fails, bytes accepted and the put area are the bytes written.
     */
    ghost predicate Valid()
      reads this
    {
      && |getBuffer| == BUFFER_SIZE && PUTBACK_MAX <= gptr <= egptr <= BUFFER_SIZE
      && (|putBuffer| == BUFFER_SIZE || |putBuffer| == 0) && pptr <= epptr == |putBuffer|
      && delivered + GetArea() == received
      && (!flushFailed ==> accepted + PutArea() == written)
    }

    ghost function GetArea(): seq<Byte>
      requires gptr <= egptr <= |getBuffer|
      reads this
    {
      getBuffer[gptr..egptr]
    }

    ghost function PutArea(): seq<Byte>
      requires pptr <= |putBuffer|
      reads this
    {
      putBuffer[..pptr]
    }

    constructor ()
      ensures Valid() && GetArea() == [] && PutArea() == [] && epptr == |putBuffer| == 512 && gptr == 8
      ensures received == delivered == written == accepted == [] && !flushFailed
    {
      getBuffer, putBuffer := Zeros(BUFFER_SIZE), Zeros(BUFFER_SIZE);
      gptr, egptr, pptr, epptr := PUTBACK_MAX, PUTBACK_MAX, 0, BUFFER_SIZE;
      ec := NoError;
      received, delivered, written, accepted, flushFailed := [], [], [], [], false;
    }

    /** init_buffers, at the start of every session. */
    method InitBuffers()
      requires Valid()
      modifies this
      ensures Valid() && GetArea() == [] && PutArea() == [] && |putBuffer| == |old(putBuffer)| && ec == old(ec)
      ensures received == delivered == written == accepted == [] && !flushFailed
    {
      gptr, egptr := PUTBACK_MAX, PUTBACK_MAX;
      if |putBuffer| == 0 {
        pptr, epptr := 0, 0;
      } else {
        pptr, epptr := 0, |putBuffer|;
      }
      received, delivered, written, accepted, flushFailed := [], [], [], [], false;
    }

    // ---- reading ----

    /**
     underflow: with unread bytes it answers end of file and touches nothing; otherwise it receives
     once, and the get area is what arrived.
     */
    method Underflow(env: seq<RecvAnswer>) returns (c: Option<Byte>, used: nat)
      requires Valid() && RecvScript(env)
      modifies this
      ensures Valid() && delivered == old(delivered) && putBuffer == old(putBuffer) && pptr == old(pptr)
      ensures written == old(written) && accepted == old(accepted) && flushFailed == old(flushFailed)
      ensures old(GetArea()) != [] ==>
                c == None && used == 0 && GetArea() == old(GetArea()) && received == old(received) && ec == old(ec)
      ensures old(GetArea()) == [] ==>
                && 0 < used <= |env| && FirstAnswer(env, used - 1) && Fits(env[used - 1])
                && var a := env[used - 1];
                && GetArea() == (if a.Data? then a.bytes else []) && received == old(received) + GetArea()
                && (c == if a.Data? then Some(a.bytes[0]) else None)
                && (a.Data? ==> ec == NoError) && (a.EndOfStream? ==> ec == EndOfFile)
                && (a.RecvExpired? ==> ec == TimedOut) && (a.RecvFails? || a.RecvWouldBlock? ==> ec == OtherFailure)
    {
      if gptr != egptr { return None, 0; }
      var bytes;
      bytes, ec, used := Receive(env);
      if |bytes| == 0 { return None, used; }
      Refill(bytes);
      assert getBuffer[gptr] == GetArea()[0] == bytes[0];
      c := Some(getBuffer[gptr]);
    }

    /** The receive loop of underflow: retry while the socket would block and becomes ready. */
    method Receive(env: seq<RecvAnswer>) returns (bytes: seq<Byte>, error: SocketError, used: nat)
      requires RecvScript(env)
      ensures 0 < used <= |env| && FirstAnswer(env, used - 1) && Fits(env[used - 1])
      ensures var a := env[used - 1];
        && bytes == (if a.Data? then a.bytes else [])
        && (a.Data? ==> error == NoError) && (a.EndOfStream? ==> error == EndOfFile)
        && (a.RecvExpired? ==> error == TimedOut) && (a.RecvFails? || a.RecvWouldBlock? ==> error == OtherFailure)
    {
      ghost var k: nat :| FirstAnswer(env, k) && Fits(env[k]);
      used := 0;
      while true
        invariant used <= k && forall j :: 0 <= j < used ==> env[j] == RecvWouldBlock(true)
        decreases k - used
      {
        used := used + 1;
        match env[used - 1]
        case RecvExpired => return [], TimedOut, used;
        case Data(arrived) => return arrived, NoError, used;
        case EndOfStream => return [], EndOfFile, used;
        case RecvFails => return [], OtherFailure, used;
        case RecvWouldBlock(ready) =>
          if !ready { return [], OtherFailure, used; }
      }
    }

    /** recv writes behind the putback area, which is free because the get area is empty. */
    method Refill(bytes: seq<Byte>)
      requires Valid() && gptr == egptr && |bytes| <= BUFFER_SIZE - PUTBACK_MAX
      modifies `getBuffer, `gptr, `egptr, `received
      ensures Valid() && GetArea() == bytes && received == old(received) + bytes
    {
      getBuffer := getBuffer[..PUTBACK_MAX] + bytes + getBuffer[PUTBACK_MAX + |bytes|..];
      gptr, egptr := PUTBACK_MAX, PUTBACK_MAX + |bytes|;
      received := received + bytes;
    }

    /** The next byte of a get area that is not empty. */
    method Take() returns (c: Byte)
      requires Valid() && GetArea() != []
      modifies `gptr, `delivered
      ensures Valid() && c == old(GetArea())[0] && delivered == old(delivered) + [c]
    {
      ghost var area := GetArea();
      c := getBuffer[gptr];
      gptr := gptr + 1;
      delivered := delivered + [c];
      assert area == [c] + GetArea();
    }

    /** sbumpc of std::streambuf: take from the get area, after an underflow if it is empty. */
    method Get(env: seq<RecvAnswer>) returns (c: Option<Byte>, used: nat)
      requires Valid() && RecvScript(env)
      modifies this
      ensures Valid() && written == old(written) && accepted == old(accepted) && PutArea() == old(PutArea())
      ensures delivered == if c.Some? then old(delivered) + [c.value] else old(delivered)
      ensures old(GetArea()) != [] ==> c == Some(old(GetArea())[0]) && used == 0 && received == old(received)
      ensures old(GetArea()) == [] ==>
                && 0 < used <= |env| && FirstAnswer(env, used - 1) && Fits(env[used - 1])
                && var a := env[used - 1];
                && received == old(received) + (if a.Data? then a.bytes else [])
                && (c == if a.Data? then Some(a.bytes[0]) else None)
    {
      used := 0;
      if gptr == egptr {
        c, used := Underflow(env);
        if c.None? { return; }
      }
      var front := Take();
      c := Some(front);
    }

    // ---- writing ----

    /** What overflow has to send: the put area, or in unbuffered mode the character itself. */
    ghost function ToSend(c: Option<Byte>): seq<Byte>
      requires pptr <= |putBuffer|
      reads this
    {
      if |putBuffer| > 0 then PutArea() else if c.Some? then [c.value] else []
    }

    /** The send loop of overflow: it works through the bytes until all are taken or an error ends it. */
    method Send(bytes: seq<Byte>, env: seq<SendAnswer>) returns (sent: nat)
      requires SendScript(|bytes|, env)
      modifies `ec, `accepted
      ensures sent == Flushed(|bytes|, env).0 && accepted == old(accepted) + bytes[..sent]
      ensures bytes != [] ==> ec == Flushed(|bytes|, env).1
    {
      sent := 0;
      var rest := env;
      while sent < |bytes|
        invariant sent <= |bytes| && SendScript(|bytes| - sent, rest)
        invariant Flushed(|bytes|, env).0 == sent + Flushed(|bytes| - sent, rest).0
        invariant Flushed(|bytes|, env).1 == Flushed(|bytes| - sent, rest).1
        invariant accepted == old(accepted) + bytes[..sent]
        invariant sent == |bytes| > 0 ==> ec == NoError
        decreases |rest|
      {
        match rest[0]
        case SendExpired =>
          ec := TimedOut;
          return;
        case Takes(n) =>
          ec := NoError;
          PrefixGrows(bytes, sent, n);
          accepted := accepted + bytes[sent..sent + n];
          sent := sent + n;
          rest := rest[1..];
        case TakesNothing =>
          ec := NoError;
          return;
        case SendFails =>
          ec := OtherFailure;
          return;
        case SendWouldBlock(ready) =>
          if !ready {
            ec := OtherFailure;
            return;
          }
          rest := rest[1..];
      }
    }

    /**
     overflow: send the put area, or in unbuffered mode the character, and only when all of it is
     accepted take the character in. A failed flush leaves the put area as it was, including any
     part that was accepted.
     */
    method Overflow(c: Option<Byte>, env: seq<SendAnswer>) returns (ok: bool, sent: nat)
      requires Valid() && SendScript(|ToSend(c)|, env)
      modifies this
      ensures Valid() && GetArea() == old(GetArea()) && received == old(received) && delivered == old(delivered)
      ensures |putBuffer| == |old(putBuffer)|
      ensures sent == Flushed(|old(ToSend(c))|, env).0 && ok == (sent == |old(ToSend(c))|)
      ensures accepted == old(accepted) + old(ToSend(c))[..sent]
      ensures written == if ok && c.Some? then old(written) + [c.value] else old(written)
      ensures ok ==>
                PutArea() == (if |putBuffer| > 0 && c.Some? then [c.value] else []) && flushFailed == old(flushFailed)
      ensures !ok ==> PutArea() == old(PutArea()) && flushFailed && ec == Flushed(|old(ToSend(c))|, env).1
    {
      ghost var all := ToSend(c);
      var out := if |putBuffer| == 0 then (if c.Some? then [c.value] else []) else putBuffer[..pptr];
      sent := Send(out, env);
      ok := sent == |out|;
      if !ok {
        flushFailed := true;
        return;
      }
      assert out[..sent] == out;
      if |putBuffer| != 0 {
        pptr, epptr := 0, |putBuffer|;
        if c.Some? {
          putBuffer := putBuffer[pptr := c.value];
          pptr := pptr + 1;
        }
      }
      if c.Some? { written := written + [c.value]; }
    }

    /** sync: flush without a character. */
    method Sync(env: seq<SendAnswer>) returns (ok: bool, sent: nat)
      requires Valid() && SendScript(pptr, env)
      modifies this
      ensures Valid() && GetArea() == old(GetArea()) && received == old(received) && delivered == old(delivered)
      ensures |putBuffer| == |old(putBuffer)| && written == old(written)
      ensures sent == Flushed(|old(PutArea())|, env).0 && ok == (sent == |old(PutArea())|)
      ensures accepted == old(accepted) + old(PutArea())[..sent]
      ensures ok ==> PutArea() == [] && flushFailed == old(flushFailed)
      ensures !ok ==> PutArea() == old(PutArea()) && flushFailed
    {
      ok, sent := Overflow(None, env);
    }

    /** sputc of std::streambuf: store in the put area, or overflow when it is full or absent. */
    method Put(c: Byte, env: seq<SendAnswer>) returns (ok: bool)
      requires Valid() && (pptr == epptr ==> SendScript(|ToSend(Some(c))|, env))
      modifies this
      ensures Valid() && received == old(received) && delivered == old(delivered) && |putBuffer| == |old(putBuffer)|
      ensures written == if ok then old(written) + [c] else old(written)
      ensures ok ==> flushFailed == old(flushFailed)
      ensures old(pptr < epptr) ==> ok && accepted == old(accepted) && PutArea() == old(PutArea()) + [c]
      ensures old(pptr == epptr) && ok && |putBuffer| > 0 ==>
                accepted == old(accepted) + old(PutArea()) && PutArea() == [c]
      ensures ok && |putBuffer| == 0 ==> accepted == old(accepted) + [c] && PutArea() == []
      ensures old(pptr == epptr) ==>
                var all := |old(ToSend(Some(c)))|; ok <==> Flushed(all, env).0 == all
      ensures !ok ==> old(pptr == epptr) && flushFailed && PutArea() == old(PutArea())
      ensures !ok ==> old(accepted) <= accepted <= old(accepted) + old(PutArea())
    {
      if pptr < epptr {
        putBuffer := putBuffer[pptr := c];
        pptr := pptr + 1;
        written := written + [c];
        assert PutArea() == old(PutArea()) + [c];
        ok := true;
      } else {
        ghost var all := ToSend(Some(c));
        var sent;
        ok, sent := Overflow(Some(c), env);
        assert ok ==> all[..sent] == all;
      }
    }

    /** setbuf(0, 0): unbuffered mode, accepted only while the put area is empty. */
    method SetUnbuffered() returns (ok: bool)
      requires Valid()
      modifies this
      ensures Valid() && (ok <==> old(PutArea()) == [])
      ensures if ok then |putBuffer| == 0 else putBuffer == old(putBuffer) && pptr == old(pptr)
      ensures written == old(written) && accepted == old(accepted) && flushFailed == old(flushFailed)
      ensures received == old(received) && delivered == old(delivered)
    {
      ok := pptr == 0;
      if ok {
        putBuffer, pptr, epptr := [], 0, 0;
        var done, sent := Sync([]);
      }
    }

    /**
     close: flush, close the socket, and reset the areas if the socket closed. The result reports
     the socket only, so when the flush fails the bytes from `sent` on are dropped and success is
     still reported.
     */
    method Close(env: seq<SendAnswer>, closes: SocketError) returns (ok: bool, sent: nat, peer: seq<Byte>)
      requires Valid() && SendScript(pptr, env)
      modifies this
      ensures Valid() && ec == closes && (ok <==> closes == NoError)
      ensures sent == Flushed(|old(PutArea())|, env).0 && peer == old(accepted) + old(PutArea())[..sent]
      ensures ok ==> PutArea() == [] && GetArea() == []
      ensures !ok ==>
                GetArea() == old(GetArea()) && PutArea() == if sent == |old(PutArea())| then [] else old(PutArea())
    {
      var flushed;
      flushed, sent := Sync(env);
      peer := accepted;
      ec := closes;
      if ec == NoError { InitBuffers(); }
      ok := ec == NoError;
    }

    // ---- after a failed flush ----

    /**
     Where the conservation law ends: a failed flush keeps it exactly when no send took anything
     before the failure. In any case the bytes still owed to the peer are the put area from `sent` on.
     */
    method FailedSync(env: seq<SendAnswer>) returns (sent: nat)
      requires Valid() && !flushFailed && SendScript(pptr, env) && Flushed(pptr, env).0 < pptr
      modifies this
      ensures Valid() && PutArea() == old(PutArea()) && written == old(written)
      ensures sent == Flushed(|PutArea()|, env).0
      ensures accepted == old(accepted) + PutArea()[..sent] && accepted + PutArea()[sent..] == written
      ensures accepted + PutArea() == written <==> !TakesFirst(env)
    {
      NothingTaken(pptr, env);
      var ok;
      ok, sent := Sync(env);
      assert PutArea() == PutArea()[..sent] + PutArea()[sent..];
    }

    /** Retrying after a failed flush sends its accepted part a second time. */
    method RetryDuplicates(env: seq<SendAnswer>, env': seq<SendAnswer>) returns (sent: nat)
      requires Valid() && !flushFailed && SendScript(pptr, env) && Flushed(pptr, env).0 < pptr
      requires SendScript(pptr, env') && Flushed(pptr, env').0 == pptr
      modifies this
      ensures sent == Flushed(|old(PutArea())|, env).0 && (sent > 0 <==> TakesFirst(env))
      ensures accepted == old(accepted) + old(PutArea())[..sent] + old(PutArea())
      ensures written == old(written) == old(accepted) + old(PutArea())
    {
      ghost var area := PutArea();
      NothingTaken(pptr, env);
      sent := FailedSync(env);
      assert pptr == |PutArea()| == |area|;
      var ok, all := Sync(env');
      assert area[..all] == area;
    }
  }

  /** A peer that is sent 7 and 8, with a flush that fails after one byte and a retry, receives 7 twice. */
  method DuplicatedByte() returns (peer: seq<Byte>)
    ensures peer == [7, 7, 8]
  {
    var b := new SocketStreamBuf();
    var ok := b.Put(7, []);
    ok := b.Put(8, []);
    assert b.PutArea() == [7, 8];
    var once, all := [Takes(1), SendFails], [Takes(2)];
    assert SendScript(1, once[1..]) && Flushed(1, once[1..]).0 == 0;
    assert SendScript(0, all[1..]);
    var sent := b.RetryDuplicates(once, all);
    peer := b.accepted;
  }

  // ---- whole sessions ----

  /**
   Write all of data, in either mode, and flush. If nothing fails the peer has exactly the data;
   after the first failure it has a prefix of it.
   */
  method SendAll(data: seq<Byte>, unbuffered: bool, env: (nat, nat) -> seq<SendAnswer>)
    returns (ok: bool, peer: seq<Byte>)
    requires forall k: nat, n: nat :: SendScript(n, env(k, n))
    ensures ok ==> peer == data
    ensures !ok ==> peer <= data
    ensures (forall k: nat, n: nat :: Willing(env(k, n))) ==> ok
  {
    var b := new SocketStreamBuf();
    if unbuffered { ok := b.SetUnbuffered(); }
    for k := 0 to |data|
      invariant b.Valid() && fresh(b) && !b.flushFailed && b.written == data[..k]
    {
      var size := if |b.putBuffer| > 0 then b.pptr else 1;
      if Willing(env(k, size)) { FlushedExactly(size, env(k, size), |env(k, size)|); }
      ok := b.Put(data[k], env(k, size));
      if !ok { return false, b.accepted; }
    }
    var last, sent := env(|data|, b.pptr), 0;
    if Willing(last) { FlushedExactly(b.pptr, last, |last|); }
    ok, sent := b.Sync(last);
    peer := b.accepted;
  }

  /** Partial sends and retries do not stop a flush. */
  method PartialSends() returns (ok: bool, peer: seq<Byte>)
    ensures ok && peer == [7, 8]
  {
    var b := new SocketStreamBuf();
    ok := b.Put(7, []);
    ok := b.Put(8, []);
    assert b.PutArea() == [7, 8];
    var env := [Takes(1), SendWouldBlock(true), Takes(1)];
    assert SendScript(0, env[1..][1..][1..]);
    assert SendScript(1, env[1..][1..]);
    assert SendScript(1, env[1..]) && Flushed(1, env[1..]).0 == Flushed(1, env[1..][1..]).0 == 1;
    var sent;
    ok, sent := b.Sync(env);
    peer := b.accepted;
  }

  // -- reading --

  /** Answer e is the first that neither delivers data nor asks for a retry: it ends the session. */
  ghost predicate FirstEnd(env: seq<RecvAnswer>, e: nat) {
    && e < |env| && !env[e].Data? && env[e] != RecvWouldBlock(true)
    && forall j :: 0 <= j < e ==> env[j].Data? || env[j] == RecvWouldBlock(true)
  }

  /** The bytes that the first k answers deliver, concatenated. */
  function DataUpTo(env: seq<RecvAnswer>, k: nat): seq<Byte>
    requires k <= |env|
  {
    if k == 0 then [] else DataUpTo(env, k - 1) + if env[k - 1].Data? then env[k - 1].bytes else []
  }

  lemma {:induction false} DataPrefix(env: seq<RecvAnswer>, j: nat, k: nat)
    requires j <= k <= |env|
    ensures DataUpTo(env, j) <= DataUpTo(env, k)
  {
    if j < k { DataPrefix(env, j, k - 1); }
  }

  /** While nothing ended the session, the rest of its script ends a receive loop. */
  lemma {:induction false} NextAnswer(env: seq<RecvAnswer>, pos: nat, e: nat)
    requires FirstEnd(env, e) && pos <= e && forall j :: 0 <= j < |env| ==> Fits(env[j])
    ensures RecvScript(env[pos..])
    decreases e - pos
  {
    var rest := env[pos..];
    if env[pos] == RecvWouldBlock(true) {
      NextAnswer(env, pos + 1, e);
      var k: nat :| FirstAnswer(env[pos + 1..], k) && Fits(env[pos + 1..][k]);
      assert forall j :: 1 <= j < |rest| ==> rest[j] == env[pos + 1..][j - 1];
      assert FirstAnswer(rest, k + 1);
    } else {
      assert FirstAnswer(rest, 0);
    }
  }

  lemma {:induction false} RetriesBringNothing(env: seq<RecvAnswer>, pos: nat, n: nat)
    requires pos + n < |env| && forall j :: pos <= j < pos + n ==> env[j] == RecvWouldBlock(true)
    ensures DataUpTo(env, pos + n) == DataUpTo(env, pos)
  {
    if n > 0 { RetriesBringNothing(env, pos, n - 1); }
  }

  /** A receive loop from pos passes over retries to the next data, or to the end of the session. */
  lemma LoopAdvances(env: seq<RecvAnswer>, pos: nat, n: nat, e: nat)
    requires FirstEnd(env, e) && pos <= e && FirstAnswer(env[pos..], n)
    ensures pos + n <= e && (pos + n < e <==> env[pos..][n].Data?)
    ensures DataUpTo(env, pos + n) == DataUpTo(env, pos)
    ensures pos + n < e ==> DataUpTo(env, pos + n + 1) == DataUpTo(env, pos) + env[pos..][n].bytes
  {
    assert forall j :: pos <= j < pos + n ==> env[j] == env[pos..][j - pos];
    RetriesBringNothing(env, pos, n);
  }

  /** The next byte of a session whose first pos answers have been received. */
  method ReadOne(b: SocketStreamBuf, env: seq<RecvAnswer>, pos: nat, ghost e: nat) returns (c: Option<Byte>, next: nat)
    requires b.Valid() && FirstEnd(env, e) && (forall j :: 0 <= j < |env| ==> Fits(env[j]))
    requires pos <= e && b.received == DataUpTo(env, pos)
    modifies b
    ensures b.Valid() && b.delivered == if c.Some? then old(b.delivered) + [c.value] else old(b.delivered)
    ensures c.Some? ==> next <= e && b.received == DataUpTo(env, next)
    ensures c.None? ==> b.delivered == DataUpTo(env, e)
  {
    NextAnswer(env, pos, e);
    var rest, used := env[pos..], 0;
    c, used := b.Get(rest);
    next := pos + used;
    if used > 0 {
      LoopAdvances(env, pos, used - 1, e);
      assert c.None? ==> b.GetArea() == [];
    }
  }

  /**
   Read up to count bytes of a session whose socket answers as scripted: the reader gets the bytes of
   the data answers before the one that ends the session, concatenated, up to the count.
   */
  method ReceiveSome(count: nat, env: seq<RecvAnswer>, ghost e: nat) returns (got: seq<Byte>)
    requires FirstEnd(env, e) && forall j :: 0 <= j < |env| ==> Fits(env[j])
    ensures got == DataUpTo(env, e)[..Min(count, |DataUpTo(env, e)|)]
  {
    var b := new SocketStreamBuf();
    var pos: nat := 0;
    got := [];
    for k := 0 to count
      invariant b.Valid() && fresh(b) && |got| == k && got == b.delivered
      invariant pos <= e && b.received == DataUpTo(env, pos)
    {
      var c;
      c, pos := ReadOne(b, env, pos, e);
      if c.None? { return; }
      got := got + [c.value];
    }
    DataPrefix(env, pos, e);
  }

  /** Two receives with a retry between them, then the end: all three bytes arrive. */
  method ReceiveExample() returns (got: seq<Byte>)
    ensures got == [5, 6, 7]
  {
    var env := [Data([5, 6]), RecvWouldBlock(true), Data([7]), EndOfStream];
    assert DataUpTo(env, 1) == [] + [5, 6];
    assert DataUpTo(env, 2) == DataUpTo(env, 1) + [];
    assert DataUpTo(env, 3) == DataUpTo(env, 2) + [7];
    got := ReceiveSome(10, env, 3);
  }
}
