/** The reference: a bounded first-in-first-out queue of bytes, and what a trace shows of it. */
module ByteQueue {
  import opened Bytes

  datatype Op =
    | Prepare(room: nat)
    | Append(room: nat, data: seq<Byte>, n: nat)   // prepare(room), write data into it, commit(n)
    | Consume(n: nat)
    | Put(c: Byte)                                 // one character through the std::streambuf interface
    | Get                                          //   and one character out

  /** Commit no more than was prepared and written, with counts that fit the int casts. */
  predicate WellFormed(op: Op) {
    match op
    case Append(room, data, n) => n <= |data| <= room && n <= INT_MAX
    case Consume(n) => n <= INT_MAX
    case _ => true
  }

  /** One operation on the queue; None is a thrown length_error. */
  function Apply(max: nat, q: seq<Byte>, op: Op): Option<seq<Byte>>
    requires WellFormed(op)
  {
    match op
    case Prepare(room) => if |q| + room <= max then Some(q) else None
    case Append(room, data, n) => if |q| + room <= max then Some(q + data[..n]) else None
    case Consume(n) => Some(q[Min(n, |q|)..])
    case Put(c) => if |q| < max then Some(q + [c]) else None
    case Get => Some(q[Min(1, |q|)..])
  }

  /** The queue after the first k operations, if none of them threw. */
  function After(max: nat, trace: seq<Op>, k: nat): Option<seq<Byte>>
    requires k <= |trace| && forall i :: 0 <= i < |trace| ==> WellFormed(trace[i])
  {
    if k == 0 then Some([])
    else
      var q := After(max, trace, k - 1);
      if q.None? then None else Apply(max, q.value, trace[k - 1])
  }

  /**
   What a buffer shows: its input sequence after each operation, up to the first one that throws.
   */
  ghost predicate Observes(max: nat, trace: seq<Op>, views: seq<seq<Byte>>, thrown: bool)
    requires forall i :: 0 <= i < |trace| ==> WellFormed(trace[i])
  {
    && |views| <= |trace|
    && (forall i {:trigger views[i]} :: 0 <= i < |views| ==> After(max, trace, i + 1) == Some(views[i]))
    && (thrown ==> |views| < |trace| && After(max, trace, |views| + 1) == None)
    && (!thrown ==> |views| == |trace|)
  }

  lemma ViewedWithoutThrow(max: nat, trace: seq<Op>, views: seq<seq<Byte>>, thrown: bool, k: nat)
    requires forall i :: 0 <= i < |trace| ==> WellFormed(trace[i])
    requires Observes(max, trace, views, thrown)
    ensures k < |views| ==> After(max, trace, k + 1) == Some(views[k])
  {
  }

  /** Buffers that observe the same trace show the same input and throw at the same step. */
  lemma SameObservations(max: nat, trace: seq<Op>, views: seq<seq<Byte>>, thrown: bool,
                         views': seq<seq<Byte>>, thrown': bool)
    requires forall i :: 0 <= i < |trace| ==> WellFormed(trace[i])
    requires Observes(max, trace, views, thrown) && Observes(max, trace, views', thrown')
    ensures views == views' && thrown == thrown'
  {
    ViewedWithoutThrow(max, trace, views', thrown', |views|);
    ViewedWithoutThrow(max, trace, views, thrown, |views'|);
    forall i | 0 <= i < |views| ensures views[i] == views'[i] {
      ViewedWithoutThrow(max, trace, views, thrown, i);
      ViewedWithoutThrow(max, trace, views', thrown', i);
    }
  }

  // ---- first in, first out ----

  /** The bytes put in by the first k operations, in order. */
  function Written(trace: seq<Op>, k: nat): seq<Byte>
    requires k <= |trace| && forall i :: 0 <= i < |trace| ==> WellFormed(trace[i])
  {
    if k == 0 then []
    else
      match trace[k - 1]
      case Append(_, data, n) => Written(trace, k - 1) + data[..n]
      case Put(c) => Written(trace, k - 1) + [c]
      case _ => Written(trace, k - 1)
  }

  /** How many bytes the first k operations took out. */
  function TakenOut(max: nat, trace: seq<Op>, k: nat): nat
    requires k <= |trace| && forall i :: 0 <= i < |trace| ==> WellFormed(trace[i])
  {
    if k == 0 then 0
    else
      var q := After(max, trace, k - 1);
      var size := if q.Some? then |q.value| else 0;
      match trace[k - 1]
      case Consume(n) => TakenOut(max, trace, k - 1) + Min(n, size)
      case Get => TakenOut(max, trace, k - 1) + Min(1, size)
      case _ => TakenOut(max, trace, k - 1)
  }

  lemma DropTwice(w: seq<Byte>, t: nat, n: nat)
    requires t <= |w|
    ensures var k := Min(n, |w| - t); w[t..][k..] == w[t + k..]
  {
  }

  lemma DropThenAppend(w: seq<Byte>, t: nat, x: seq<Byte>)
    requires t <= |w|
    ensures (w + x)[t..] == w[t..] + x
  {
  }

  /** Conservation: the queue is everything written, without the front that was taken out. */
  lemma {:induction false} FirstInFirstOut(max: nat, trace: seq<Op>, k: nat)
    requires k <= |trace| && forall i :: 0 <= i < |trace| ==> WellFormed(trace[i])
    requires After(max, trace, k).Some?
    ensures TakenOut(max, trace, k) <= |Written(trace, k)|
    ensures After(max, trace, k).value == Written(trace, k)[TakenOut(max, trace, k)..]
  {
    if k > 0 {
      FirstInFirstOut(max, trace, k - 1);
      var w, t := Written(trace, k - 1), TakenOut(max, trace, k - 1);
      match trace[k - 1]
      case Append(_, data, n) => DropThenAppend(w, t, data[..n]);
      case Put(c) => DropThenAppend(w, t, [c]);
      case Consume(n) => DropTwice(w, t, n);
      case Get => DropTwice(w, t, 1);
      case Prepare(_) =>
    }
  }

  /** The queue never exceeds the maximum. */
  lemma {:induction false} Bounded(max: nat, trace: seq<Op>, k: nat)
    requires k <= |trace| && forall i :: 0 <= i < |trace| ==> WellFormed(trace[i])
    requires After(max, trace, k).Some?
    ensures |After(max, trace, k).value| <= max
  {
    if k > 0 { Bounded(max, trace, k - 1); }
  }
}
