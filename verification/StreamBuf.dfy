/** basic_streambuf: a bounded FIFO byte queue in one resizable array. */
module StreamBuf {
  import opened Bytes

  const BUFFER_DELTA := 128

  /** What a refused reserve leaves of the input sequence c when g bytes were consumed since the last shift. */
  function AfterRefusal(c: seq<Byte>, g: nat): (r: seq<Byte>)
    ensures |r| == |c|
  {
    if g <= |c| then c[g..] + c[|c| - g..] else c
  }

  /**
   The memmove of reserve happens before it throws and before the pointers move. So a refused
   prepare keeps every input sequence of a given length exactly when nothing was consumed since the
   last shift, or at least as much as its own length.
   */
  lemma RefusalKeepsInput(size: nat, g: nat)
    ensures (forall c: seq<Byte> :: |c| == size ==> AfterRefusal(c, g) == c) <==> g == 0 || g >= size
  {
    if 0 < g < size {
      var c := [1] + Zeros(size - 1);
      assert AfterRefusal(c, g)[0] == c[g] == 0;
      assert AfterRefusal(c, g) != c;
    } else {
      forall c: seq<Byte> | |c| == size ensures AfterRefusal(c, g) == c {
        if g == 0 { assert c[0..] + c[|c|..] == c; }
        if g == size { assert c[g..] + c[0..] == c; }
      }
    }
  }

  /** memmove of the bytes from g to p to the front. */
  function Shifted(b: seq<Byte>, g: nat, p: nat): (r: seq<Byte>)
    requires g <= p <= |b|
    ensures |r| == |b|
  {
    b[g..p] + b[p - g..]
  }

  lemma ShiftedInput(b: seq<Byte>, g: nat, p: nat)
    requires g <= p <= |b|
    ensures Shifted(b, g, p)[..p - g] == b[g..p]
    ensures Shifted(b, g, p)[g..p] == AfterRefusal(b[g..p], g)
  {
    var c, d := b[g..p], Shifted(b, g, p)[g..p];
    assert |d| == |c| == |AfterRefusal(c, g)|;
    forall k | 0 <= k < |c| ensures d[k] == AfterRefusal(c, g)[k] {
      assert d[k] == Shifted(b, g, p)[g + k];
    }
  }

  lemma ResizedPrefix(b: seq<Byte>, n: nat, k: nat)
    requires k <= n && k <= |b|
    ensures Resized(b, n)[..k] == b[..k]
  {
  }

  /** Writing data at p changes what follows p, and nothing before it. */
  lemma Overwritten(b: seq<Byte>, g: nat, p: nat, e: nat, data: seq<Byte>)
    requires g <= p <= p + |data| <= e <= |b|
    ensures var r := b[..p] + data + b[p + |data|..];
      |r| == |b| && r[g..p] == b[g..p] && r[p..e] == data + b[p..e][|data|..]
  {
    var r := b[..p] + data + b[p + |data|..];
    var was := b[p..e][|data|..];
    forall k | 0 <= k < e - p ensures r[p..e][k] == (data + was)[k] {
      assert r[p..e][k] == r[p + k];
      if k >= |data| { assert was[k - |data|] == b[p + k]; }
    }
  }

  class StreamBuf {
    const maxSize: nat
    var buffer: seq<Byte>
    // The pointers of std::streambuf, as offsets into the buffer; gptr counts the bytes consumed
    // since the last shift to the front.
    var eback: nat
    var gptr: nat
    var egptr: nat
    var pbase: nat
    var pptr: nat
    var epptr: nat

    /** get <= end of get <= put <= end of put <= max_size, inside the buffer. */
    ghost predicate Valid()
      reads this
    {
      && eback == 0 <= gptr <= egptr <= pptr <= epptr <= maxSize
      && pbase <= pptr && epptr <= |buffer| && 1 <= |buffer|
    }

    /** The input sequence: the queue. */
    ghost function Input(): (r: seq<Byte>)
      requires Valid()
      reads this
      ensures |r| == Size()
    {
      buffer[gptr..pptr]
    }

    /** The output sequence prepared so far. */
    ghost function Output(): seq<Byte>
      requires Valid()
      reads this
    {
      buffer[pptr..epptr]
    }

    function Size(): nat
      requires Valid()
      reads this
    {
      pptr - gptr
    }

    constructor (maximumSize: nat)
      ensures Valid() && maxSize == maximumSize && Input() == [] && gptr == 0
      ensures |Output()| == (if maximumSize < 128 then maximumSize else 128) && |buffer| >= 1
    {
      maxSize := maximumSize;
      var pend := Min(maximumSize, BUFFER_DELTA);
      buffer := Zeros(Max(pend, 1));
      eback, gptr, egptr := 0, 0, 0;
      pbase, pptr, epptr := 0, 0, pend;
    }

    /**
     reserve: ok is false when length_error is thrown. That is exactly when the input and n more
     bytes exceed the maximum; otherwise the queue is kept and there is room for n bytes.
     */
    method Reserve(n: nat) returns (ok: bool)
      requires Valid()
      modifies this
      ensures Valid()
      ensures ok <==> old(Size()) + n <= maxSize
      ensures ok ==> Input() == old(Input()) && n <= epptr - pptr
      ensures ok ==> gptr == if n <= old(epptr - pptr) then old(gptr) else 0
      ensures !ok ==> Input() == AfterRefusal(old(Input()), old(gptr))
      ensures !ok ==> gptr == old(gptr) && pptr == old(pptr)
    {
      ok := true;
      var gnext, pnext, pend := gptr, pptr, epptr;
      if n <= pend - pnext { return; }
      if gnext > 0 {
        ShiftedInput(buffer, gnext, pnext);
        buffer := Shifted(buffer, gnext, pnext);
        pnext := pnext - gnext;
      }
      assert buffer[..pnext] == old(Input());
      if n > pend - pnext {
        if n <= maxSize && pnext <= maxSize - n {
          pend := pnext + n;
          ResizedPrefix(buffer, Max(pend, 1), pnext);
          buffer := Resized(buffer, Max(pend, 1));
        } else {
          assert AfterRefusal(old(Input()), 0) == old(Input());
          return false;
        }
      }
      eback, gptr, egptr := 0, 0, pnext;
      pbase, pptr, epptr := pnext, pnext, pend;
      assert Input() == old(Input());
    }

    /** prepare: the output region starts at the put pointer. */
    method Prepare(n: nat) returns (region: Option<nat>)
      requires Valid()
      modifies this
      ensures Valid() && (region.Some? <==> old(Size()) + n <= maxSize)
      ensures region.Some? ==> Input() == old(Input()) && region.value == pptr && n <= epptr - pptr
      ensures region.Some? ==> gptr == if n <= old(epptr - pptr) then old(gptr) else 0
      ensures region.None? ==> Input() == AfterRefusal(old(Input()), old(gptr)) && gptr == old(gptr)
    {
      var ok := Reserve(n);
      region := if ok then Some(pptr) else None;
    }

    /** A client writes into the prepared region. */
    method WriteOutput(data: seq<Byte>)
      requires Valid() && |data| <= epptr - pptr
      modifies `buffer
      ensures Valid() && Input() == old(Input())
      ensures Output() == data + old(Output())[|data|..]
    {
      Overwritten(buffer, gptr, pptr, epptr, data);
      buffer := buffer[..pptr] + data + buffer[pptr + |data|..];
    }

    /** commit: the int cast in pbump is harmless up to INT_MAX bytes. */
    method Commit(n: nat)
      requires Valid() && Min(n, epptr - pptr) <= INT_MAX
      modifies this
      ensures Valid() && buffer == old(buffer) && gptr == old(gptr) && epptr == old(epptr)
      ensures Input() == old(Input()) + old(Output())[..Min(n, |old(Output())|)]
    {
      var k := Min(n, epptr - pptr);
      pptr := pptr + k;
      eback, gptr, egptr := eback, gptr, pptr;
    }

    /** consume: neither the int cast in gbump nor the pointer sum goes wrong up to INT_MAX bytes. */
    method Consume(n: nat)
      requires Valid() && n <= INT_MAX
      modifies this
      ensures Valid() && gptr == old(gptr) + Min(n, old(Size()))
      ensures Input() == old(Input())[Min(n, old(Size()))..]
    {
      if egptr < pptr {
        eback, egptr := 0, pptr;
      }
      var k := n;
      if gptr + k > pptr { k := pptr - gptr; }
      gptr := gptr + k;
    }

    /** underflow: show the front of the queue, or end of file. */
    method Underflow() returns (c: Option<Byte>)
      requires Valid()
      modifies this
      ensures Valid() && Input() == old(Input()) && gptr == old(gptr)
      ensures c == if Input() == [] then None else Some(Input()[0])
      ensures Input() != [] ==> gptr < egptr == pptr
    {
      if gptr < pptr {
        eback, egptr := 0, pptr;
        c := Some(buffer[gptr]);
      } else {
        c := None;
      }
    }

    /** The part of overflow that asks for room when the put area is full. */
    method MakeRoom() returns (ok: bool)
      requires Valid() && pptr == epptr
      modifies this
      ensures Valid() && Input() == old(Input())
      ensures ok <==> old(Size()) < maxSize
      ensures ok ==> pptr < epptr && gptr == 0
      ensures ok ==> epptr - pptr >= 128 || Size() + (epptr - pptr) >= maxSize
    {
      var size := pptr - gptr;
      ghost var input := Input();
      if size < maxSize && maxSize - size < BUFFER_DELTA {
        ok := Reserve(maxSize - size);
      } else {
        ok := Reserve(BUFFER_DELTA);
      }
      assert AfterRefusal(input, 0) == input;
    }

    /** Write at the put pointer and pbump(1). */
    method Store(c: Byte)
      requires Valid() && pptr < epptr
      modifies `buffer, `pptr
      ensures Valid() && Input() == old(Input()) + [c]
    {
      buffer := buffer[pptr := c];
      pptr := pptr + 1;
    }

    /**
     overflow: append one byte; throws exactly when the put area and the queue are both full. The
     queue then fills the buffer from its start, so unlike a refused prepare it keeps the input.
     */
    method Overflow(c: Option<Byte>) returns (ok: bool)
      requires Valid()
      modifies this
      ensures Valid()
      ensures ok <==> !(c.Some? && old(pptr == epptr) && old(Size()) == maxSize)
      ensures ok ==> gptr == if c.Some? && old(pptr == epptr) then 0 else old(gptr)
      ensures Input() == if ok && c.Some? then old(Input()) + [c.value] else old(Input())
    {
      ok := true;
      if c.Some? {
        if pptr == epptr {
          ok := MakeRoom();
          if !ok { return; }
        }
        Store(c.value);
      }
    }

    /** sputc of std::streambuf: store in the put area, or overflow. */
    method Put(c: Byte) returns (ok: bool)
      requires Valid()
      modifies this
      ensures Valid()
      ensures ok <==> !(old(pptr == epptr) && old(Size()) == maxSize)
      ensures ok ==> gptr == if old(pptr == epptr) then 0 else old(gptr)
      ensures Input() == if ok then old(Input()) + [c] else old(Input())
    {
      if pptr < epptr {
        Store(c);
        ok := true;
      } else {
        ok := Overflow(Some(c));
      }
    }

    /** sbumpc of std::streambuf: take from the get area, after an underflow if it is empty. */
    method Get() returns (c: Option<Byte>)
      requires Valid()
      modifies this
      ensures Valid() && gptr == old(gptr) + Min(1, old(Size()))
      ensures c == if old(Input()) == [] then None else Some(old(Input())[0])
      ensures Input() == if old(Input()) == [] then [] else old(Input())[1..]
    {
      c := None;
      if gptr == egptr {
        c := Underflow();
        if c.None? { return; }
      }
      c := Some(buffer[gptr]);
      gptr := gptr + 1;
    }

    /** read_size_helper, for any capacity the vector may have. */
    function ReadSize(capacity: nat, limit: nat): (n: nat)
      requires Valid() && |buffer| <= capacity
      reads this
      ensures n <= limit && Size() + n <= maxSize
      ensures n == 0 <==> limit == 0 || Size() == maxSize
      ensures n < limit && Size() + n < maxSize ==> n >= 512 && Size() + n >= capacity
      ensures n > 512 ==> Size() + n <= capacity
    {
      Min(Max(512, capacity - Size()), Min(limit, maxSize - Size()))
    }

    /** Preparing what read_size_helper returns never throws. */
    method PrepareForRead(capacity: nat, limit: nat) returns (region: Option<nat>)
      requires Valid() && |buffer| <= capacity
      modifies this
      ensures Valid() && region.Some? && Input() == old(Input())
    {
      region := Prepare(ReadSize(capacity, limit));
    }
  }

  /** A buffer of at most 10 bytes that holds [1, 2, 3]. */
  method OneTwoThree() returns (b: StreamBuf)
    ensures fresh(b) && b.Valid() && b.maxSize == 10 && b.Input() == [1, 2, 3] && b.gptr == 0
  {
    b := new StreamBuf(10);
    var region := b.Prepare(3);
    b.WriteOutput([1, 2, 3]);
    assert b.Output()[..3] == [1, 2, 3];
    b.Commit(3);
  }

  /** When one of these bytes has been consumed, a refused prepare turns [2, 3] into [3, 3]. */
  method RefusalCorrupts() returns (before: seq<Byte>, after: seq<Byte>, refused: bool)
    ensures refused && before == [2, 3] && after == [3, 3]
  {
    var b := OneTwoThree();
    b.Consume(1);
    assert b.Input() == [2, 3];
    before := b.buffer[b.gptr..b.pptr];
    var region := b.Prepare(20);
    assert AfterRefusal([2, 3], 1) == [3] + [3];
    refused, after := region.None?, b.buffer[b.gptr..b.pptr];
  }
}
