/** buffers_iterator: a random access iterator over the bytes of a buffer sequence. */
module BuffersIterator {
  import opened Bytes
  import opened Buffers

  /** Where an iterator stands: an offset in a buffer, or offset 0 past the last buffer. */
  datatype Location = Location(index: nat, offset: nat)

  /** The location is a non-empty buffer with the offset inside it, or the end. */
  predicate Canonical(bs: seq<Buffer>, l: Location) {
    l.index <= |bs| && if l.index < |bs| then l.offset < bs[l.index].size else l.offset == 0
  }

  function Position(bs: seq<Buffer>, l: Location): nat
    requires l.index <= |bs|
  {
    SizeUpTo(bs, l.index) + l.offset
  }

  /** Reference: where byte p is, found from the front. */
  function Locate(bs: seq<Buffer>, p: nat): Location {
    LocateFrom(bs, 0, p)
  }

  function LocateFrom(bs: seq<Buffer>, i: nat, p: nat): Location
    requires i <= |bs|
    decreases |bs| - i
  {
    if i == |bs| then Location(|bs|, 0)
    else if p < bs[i].size then Location(i, p)
    else LocateFrom(bs, i + 1, p - bs[i].size)
  }

  lemma {:induction false} LocateFromFinds(bs: seq<Buffer>, i: nat, p: nat)
    requires i <= |bs| && SizeUpTo(bs, i) + p <= Total(bs)
    ensures var l := LocateFrom(bs, i, p); Canonical(bs, l) && Position(bs, l) == SizeUpTo(bs, i) + p
    decreases |bs| - i
  {
    if i < |bs| && p >= bs[i].size { LocateFromFinds(bs, i + 1, p - bs[i].size); }
  }

  /** Canonical locations are determined by their position. */
  lemma CanonicalUnique(bs: seq<Buffer>, l: Location, m: Location)
    requires Canonical(bs, l) && Canonical(bs, m) && Position(bs, l) == Position(bs, m)
    ensures l == m
  {
    if l.index < m.index { SizeMonotone(bs, l.index + 1, m.index); }
    if m.index < l.index { SizeMonotone(bs, m.index + 1, l.index); }
  }

  lemma PositionBound(bs: seq<Buffer>, l: Location)
    requires Canonical(bs, l)
    ensures Position(bs, l) <= Total(bs)
    ensures Position(bs, l) == Total(bs) <==> l.index == |bs|
  {
    if l.index < |bs| { SizeMonotone(bs, l.index + 1, |bs|); }
  }

  /** A location is canonical exactly when it is where the reference search puts its position. */
  lemma CanonicalIsLocate(bs: seq<Buffer>, l: Location, p: nat)
    ensures Canonical(bs, l) && Position(bs, l) == p <==> p <= Total(bs) && l == Locate(bs, p)
  {
    if p <= Total(bs) { LocateFromFinds(bs, 0, p); }
    if Canonical(bs, l) && Position(bs, l) == p {
      PositionBound(bs, l);
      CanonicalUnique(bs, l, Locate(bs, p));
    }
  }

  // ---- single steps ----

  /** The first non-empty buffer at or after i. */
  function SkipEmpty(bs: seq<Buffer>, i: nat): (r: nat)
    requires i <= |bs|
    ensures i <= r <= |bs| && SizeUpTo(bs, r) == SizeUpTo(bs, i)
    ensures r < |bs| ==> bs[r].size > 0
    decreases |bs| - i
  {
    if i == |bs| || bs[i].size > 0 then i else SkipEmpty(bs, i + 1)
  }

  /** One step forward, from anywhere but the end. */
  function Forward(bs: seq<Buffer>, l: Location): (r: Location)
    requires Canonical(bs, l) && l.index < |bs|
    ensures Canonical(bs, r) && Position(bs, r) == Position(bs, l) + 1
  {
    if l.offset + 1 < bs[l.index].size then Location(l.index, l.offset + 1)
    else Location(SkipEmpty(bs, l.index + 1), 0)
  }

  /** The last non-empty buffer before i. */
  function LastNonEmpty(bs: seq<Buffer>, i: nat): (r: nat)
    requires i <= |bs| && SizeUpTo(bs, i) > 0
    ensures r < i && bs[r].size > 0 && SizeUpTo(bs, r + 1) == SizeUpTo(bs, i)
  {
    if bs[i - 1].size > 0 then i - 1 else LastNonEmpty(bs, i - 1)
  }

  /** One step back, from anywhere but the beginning. */
  function Backward(bs: seq<Buffer>, l: Location): (r: Location)
    requires Canonical(bs, l) && Position(bs, l) > 0
    ensures Canonical(bs, r) && Position(bs, r) == Position(bs, l) - 1
  {
    if l.offset > 0 then Location(l.index, l.offset - 1)
    else var r := LastNonEmpty(bs, l.index); Location(r, bs[r].size - 1)
  }

  /** |n| single steps, forward or back. */
  function Walk(bs: seq<Buffer>, l: Location, n: int): (r: Location)
    requires Canonical(bs, l) && 0 <= Position(bs, l) + n <= Total(bs)
    ensures Canonical(bs, r) && Position(bs, r) == Position(bs, l) + n
    decreases if n < 0 then -n else n
  {
    PositionBound(bs, l);
    if n == 0 then l
    else if n > 0 then Walk(bs, Forward(bs, l), n - 1)
    else Walk(bs, Backward(bs, l), n + 1)
  }

  /** Walking there and back again, and walking in two stretches. */
  lemma WalkComposes(bs: seq<Buffer>, l: Location, m: int, n: int)
    requires Canonical(bs, l) && 0 <= Position(bs, l) + m <= Total(bs) && 0 <= Position(bs, l) + m + n <= Total(bs)
    ensures Walk(bs, Walk(bs, l, m), n) == Walk(bs, l, m + n)
    ensures Position(bs, l) <= Total(bs) && Walk(bs, Walk(bs, l, m), -m) == l
  {
    PositionBound(bs, l);
    CanonicalUnique(bs, Walk(bs, Walk(bs, l, m), n), Walk(bs, l, m + n));
    CanonicalUnique(bs, Walk(bs, Walk(bs, l, m), -m), l);
  }

  /** Byte `Position` of the concatenation is the byte at the location. */
  lemma ByteAt(mem: seq<Byte>, bs: seq<Buffer>, l: Location)
    requires AllWithin(bs, |mem|) && Canonical(bs, l) && l.index < |bs|
    ensures Position(bs, l) < Total(bs)
    ensures Flatten(mem, bs)[Position(bs, l)] == mem[bs[l.index].data + l.offset]
  {
    AddrAt(bs, l.index, l.offset, |bs|);
    FlattenAt(mem, bs, Position(bs, l), |bs|);
  }

  class Iterator {
    const mem: array<Byte>
    const buffers: seq<Buffer>
    var currentBuffer: Buffer
    var currentBufferPosition: nat
    var current: nat
    var position: nat

    /**
     Canonical, with position_ the number of bytes before it. Nothing is said about current_buffer_
     at the end, where it is stale: no operation reads it there.
     */
    ghost predicate Valid()
      reads this
    {
      && AllWithin(buffers, mem.Length)
      && Canonical(buffers, Loc()) && position == Position(buffers, Loc())
      && (current < |buffers| ==> currentBuffer == buffers[current])
    }

    function Loc(): Location
      reads this
    {
      Location(current, currentBufferPosition)
    }

    constructor Begin(mem: array<Byte>, buffers: seq<Buffer>)
      requires AllWithin(buffers, mem.Length)
      ensures Valid() && this.mem == mem && this.buffers == buffers && position == 0
    {
      this.mem, this.buffers := mem, buffers;
      currentBuffer, currentBufferPosition, current, position := Buffer(0, 0), 0, 0, 0;
      new;
      while current != |buffers|
        invariant current <= |buffers| && SizeUpTo(buffers, current) == 0 && currentBufferPosition == 0 == position
        invariant this.mem == mem && this.buffers == buffers
      {
        currentBuffer := buffers[current];
        if currentBuffer.size > 0 { break; }
        current := current + 1;
      }
    }

    constructor End(mem: array<Byte>, buffers: seq<Buffer>)
      requires AllWithin(buffers, mem.Length)
      ensures Valid() && this.mem == mem && this.buffers == buffers && position == Total(buffers)
    {
      this.mem, this.buffers := mem, buffers;
      currentBuffer, currentBufferPosition, current, position := Buffer(0, 0), 0, 0, 0;
      new;
      while current != |buffers|
        invariant current <= |buffers| && position == SizeUpTo(buffers, current) && currentBufferPosition == 0
        invariant this.mem == mem && this.buffers == buffers
      {
        position := position + buffers[current].size;
        current := current + 1;
      }
    }

    constructor Copy(other: Iterator)
      requires other.Valid()
      ensures Valid() && mem == other.mem && buffers == other.buffers && position == other.position
    {
      mem, buffers := other.mem, other.buffers;
      currentBuffer, currentBufferPosition := other.currentBuffer, other.currentBufferPosition;
      current, position := other.current, other.position;
    }

    /** ok is false exactly when the assertion "iterator out of bounds" fires. */
    method Increment() returns (ok: bool)
      requires Valid()
      modifies this
      ensures ok <==> old(position) < Total(buffers)
      ensures ok ==> Valid() && position == old(position) + 1 && Loc() == Forward(buffers, old(Loc()))
      ensures !ok ==> unchanged(this)
    {
      PositionBound(buffers, Loc());
      ok := current != |buffers|;
      if !ok { return; }
      ghost var target := Forward(buffers, Loc());
      position := position + 1;
      currentBufferPosition := currentBufferPosition + 1;
      if currentBufferPosition != currentBuffer.size { return; }
      current := current + 1;
      currentBufferPosition := 0;
      while current != |buffers|
        invariant position == old(position) + 1
        invariant current <= |buffers| && SizeUpTo(buffers, current) == position && currentBufferPosition == 0
      {
        currentBuffer := buffers[current];
        if currentBuffer.size > 0 { break; }
        current := current + 1;
      }
      CanonicalUnique(buffers, Loc(), target);
    }

    method Decrement() returns (ok: bool)
      requires Valid()
      modifies this
      ensures ok <==> old(position) > 0
      ensures ok ==> Valid() && position == old(position) - 1 && Loc() == Backward(buffers, old(Loc()))
      ensures !ok ==> unchanged(this)
    {
      ok := position > 0;
      if !ok { return; }
      ghost var target := Backward(buffers, Loc());
      position := position - 1;
      if currentBufferPosition != 0 {
        currentBufferPosition := currentBufferPosition - 1;
        return;
      }
      var iter := current;
      while iter != 0
        invariant position == old(position) - 1
        invariant 0 <= iter <= current == old(current) <= |buffers| && currentBufferPosition == 0
        invariant SizeUpTo(buffers, iter) == SizeUpTo(buffers, current) == position + 1
      {
        iter := iter - 1;
        var buffer := buffers[iter];
        if buffer.size > 0 {
          current := iter;
          currentBuffer := buffer;
          currentBufferPosition := buffer.size - 1;
          break;
        }
      }
      CanonicalUnique(buffers, Loc(), target);
    }

    /**
     Random access: ok is false exactly when an assertion fires, that is when the distance leaves
     the sequence; otherwise one call reaches where |n| single steps would.
     */
    method Advance(n: int) returns (ok: bool)
      requires Valid()
      modifies this
      ensures ok <==> 0 <= old(position) + n <= Total(buffers)
      ensures ok ==> Valid() && position == old(position) + n && Loc() == Walk(buffers, old(Loc()), n)
    {
      PositionBound(buffers, Loc());
      ghost var start := Loc();
      if n > 0 {
        ok := AdvanceForward(n);
      } else if n < 0 {
        ok := position >= -n;
        if ok { AdvanceBackward(-n); }
      } else {
        ok := true;
      }
      if ok { CanonicalUnique(buffers, Loc(), Walk(buffers, start, n)); }
    }

    method AdvanceForward(distance: nat) returns (ok: bool)
      requires Valid() && distance > 0
      modifies this
      ensures ok <==> old(position) + distance <= Total(buffers)
      ensures ok ==> Valid() && position == old(position) + distance
    {
      PositionBound(buffers, Loc());
      var n := distance;
      if current == |buffers| { return false; }
      while true
        invariant current < |buffers| && currentBuffer == buffers[current]
        invariant currentBufferPosition <= currentBuffer.size
        invariant position == Position(buffers, Loc()) && position + n == old(position) + distance && n >= 0
        invariant AllWithin(buffers, mem.Length)
        decreases |buffers| - current
      {
        var balance := currentBuffer.size - currentBufferPosition;
        SizeMonotone(buffers, current + 1, |buffers|);
        if balance > n {
          position := position + n;
          currentBufferPosition := currentBufferPosition + n;
          return true;
        }
        n := n - balance;
        position := position + balance;
        current := current + 1;
        if current == |buffers| {
          ok := n == 0;
          currentBuffer := Buffer(0, 0);
          currentBufferPosition := 0;
          return;
        }
        currentBuffer := buffers[current];
        currentBufferPosition := 0;
      }
    }

    method AdvanceBackward(distance: nat)
      requires Valid() && 0 < distance <= position
      modifies this
      ensures Valid() && position == old(position) - distance
    {
      var n := distance;
      while true
        invariant current <= |buffers| && position == Position(buffers, Loc()) && AllWithin(buffers, mem.Length)
        invariant if current == |buffers| then currentBufferPosition == 0
                  else currentBuffer == buffers[current] && currentBufferPosition <= currentBuffer.size
        invariant 0 < n <= position && position - n == old(position) - distance
        decreases current
      {
        if currentBufferPosition >= n {
          position := position - n;
          currentBufferPosition := currentBufferPosition - n;
          return;
        }
        n := n - currentBufferPosition;
        position := position - currentBufferPosition;
        if current == 0 {
          assert false;  // n bytes still precede this point, so the assertion here is never reached
        }
        FindPrevious();
      }
    }

    /** The inner loop of advance and decrement: the end of the previous non-empty buffer. */
    method FindPrevious()
      requires current <= |buffers| && 0 < position == SizeUpTo(buffers, current)
      modifies `current, `currentBuffer, `currentBufferPosition
      ensures current == LastNonEmpty(buffers, old(current)) < old(current)
      ensures currentBuffer == buffers[current] && currentBufferPosition == currentBuffer.size
    {
      var iter := current;
      while iter != 0
        invariant 0 <= iter <= current == old(current)
        invariant SizeUpTo(buffers, iter) == SizeUpTo(buffers, current)
        invariant LastNonEmpty(buffers, iter) == LastNonEmpty(buffers, current)
      {
        iter := iter - 1;
        var buffer := buffers[iter];
        if buffer.size > 0 {
          current := iter;
          currentBuffer := buffer;
          currentBufferPosition := buffer.size;
          break;
        }
      }
    }

    /** operator*: the byte at this position of the concatenation; reading at the end is undefined. */
    function Dereference(): (r: Byte)
      requires Valid() && position < Total(buffers)
      reads this, mem
      ensures r == Flatten(mem[..], buffers)[position]
    {
      PositionBound(buffers, Loc());
      ByteAt(mem[..], buffers, Loc());
      mem[currentBuffer.data + currentBufferPosition]
    }

    /** operator==: comparing position_ alone decides whether the locations are the same. */
    predicate Equal(other: Iterator)
      requires Valid() && other.Valid() && buffers == other.buffers
      reads this, other
      ensures Equal(other) <==> Loc() == other.Loc()
    {
      if position == other.position then CanonicalUnique(buffers, Loc(), other.Loc()); true else false
    }

    /** operator-: the number of single steps from this iterator to the other. */
    function DistanceTo(other: Iterator): (n: int)
      requires Valid() && other.Valid() && buffers == other.buffers
      reads this, other
      ensures 0 <= position + n <= Total(buffers) && Walk(buffers, Loc(), n) == other.Loc()
    {
      PositionBound(buffers, other.Loc());
      CanonicalUnique(buffers, Walk(buffers, Loc(), other.position - position), other.Loc());
      other.position - position
    }

    /** operator[]: copy, advance, dereference; this iterator does not move. */
    method Subscript(n: int) returns (r: Byte)
      requires Valid() && 0 <= position + n < Total(buffers)
      ensures r == Flatten(mem[..], buffers)[position + n]
    {
      var tmp := new Iterator.Copy(this);
      var ok := tmp.Advance(n);
      r := tmp.Dereference();
    }
  }
}
