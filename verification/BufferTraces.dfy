/**
 Whole traces: the stream buffer and both dynamic buffers, started empty with the same maximum,
 show exactly what the reference queue shows, so they agree with each other step by step.
 */
module BufferTraces {
  import opened Bytes
  import opened ByteQueue
  import StreamBuf
  import DynamicBuffer

  predicate IsBufferOp(op: Op) {
    op.Prepare? || op.Append? || op.Consume?
  }

  lemma AfterStep(max: nat, trace: seq<Op>, k: nat)
    requires k < |trace| && forall i :: 0 <= i < |trace| ==> WellFormed(trace[i])
    requires After(max, trace, k).Some?
    ensures After(max, trace, k + 1) == Apply(max, After(max, trace, k).value, trace[k])
  {
  }

  method StepStreamBuf(b: StreamBuf.StreamBuf, op: Op) returns (ok: bool)
    requires b.Valid() && WellFormed(op)
    modifies b
    ensures b.Valid()
    ensures var q := Apply(b.maxSize, old(b.Input()), op); (ok <==> q.Some?) && (ok ==> b.Input() == q.value)
  {
    ok := true;
    match op
    case Prepare(room) =>
      var region := b.Prepare(room);
      ok := region.Some?;
    case Append(room, data, n) =>
      var region := b.Prepare(room);
      ok := region.Some?;
      if ok {
        b.WriteOutput(data);
        b.Commit(n);
      }
    case Consume(n) => b.Consume(n);
    case Put(c) => ok := b.Put(c);
    case Get => var _ := b.Get();
  }

  /** basic_streambuf along a trace of every operation. */
  method RunStreamBuf(max: nat, trace: seq<Op>) returns (views: seq<seq<Byte>>, thrown: bool)
    requires forall i :: 0 <= i < |trace| ==> WellFormed(trace[i])
    ensures Observes(max, trace, views, thrown)
  {
    var b := new StreamBuf.StreamBuf(max);
    views, thrown := [], false;
    for k := 0 to |trace|
      invariant b.Valid() && b.maxSize == max && fresh(b) && !thrown && |views| == k
      invariant After(max, trace, k) == Some(b.Input())
      invariant forall i {:trigger views[i]} :: 0 <= i < k ==> After(max, trace, i + 1) == Some(views[i])
    {
      AfterStep(max, trace, k);
      var ok := StepStreamBuf(b, trace[k]);
      if !ok { return views, true; }
      views := views + [b.buffer[b.gptr..b.pptr]];
    }
  }

  method StepDynamic(b: DynamicBuffer.DynamicBuffer, op: Op) returns (ok: bool)
    requires b.Valid() && |b.Input()| <= b.maxSize && WellFormed(op) && IsBufferOp(op)
    modifies b
    ensures b.Valid()
    ensures var q := Apply(b.maxSize, old(b.Input()), op); (ok <==> q.Some?) && (ok ==> b.Input() == q.value)
  {
    ok := true;
    match op
    case Prepare(room) =>
      var region := b.Prepare(room);
      ok := region.Some?;
    case Append(room, data, n) =>
      var region := b.Prepare(room);
      ok := region.Some?;
      if ok {
        b.WriteOutput(data);
        b.Commit(n);
      }
    case Consume(n) => b.Consume(n);
  }

  /** Either dynamic buffer along a trace of its operations. */
  method RunDynamic(storage: DynamicBuffer.Storage, max: nat, trace: seq<Op>)
    returns (views: seq<seq<Byte>>, thrown: bool)
    requires forall i :: 0 <= i < |trace| ==> WellFormed(trace[i]) && IsBufferOp(trace[i])
    ensures Observes(max, trace, views, thrown)
  {
    var b := new DynamicBuffer.DynamicBuffer(storage, [], max);
    views, thrown := [], false;
    for k := 0 to |trace|
      invariant b.Valid() && b.maxSize == max && fresh(b) && !thrown && |views| == k
      invariant After(max, trace, k) == Some(b.Input())
      invariant forall i {:trigger views[i]} :: 0 <= i < k ==> After(max, trace, i + 1) == Some(views[i])
    {
      AfterStep(max, trace, k);
      Bounded(max, trace, k);
      var ok := StepDynamic(b, trace[k]);
      if !ok { return views, true; }
      Bounded(max, trace, k + 1);
      views := views + [b.text[..b.Size()]];
    }
  }

  /** The three buffers show the same input after every operation and throw at the same step. */
  method BuffersAgree(max: nat, trace: seq<Op>)
    returns (stream: seq<seq<Byte>>, text: seq<seq<Byte>>, elems: seq<seq<Byte>>, throws: (bool, bool, bool))
    requires forall i :: 0 <= i < |trace| ==> WellFormed(trace[i]) && IsBufferOp(trace[i])
    ensures stream == text == elems && throws.0 == throws.1 == throws.2
    ensures Observes(max, trace, stream, throws.0)
  {
    var t0, t1, t2;
    stream, t0 := RunStreamBuf(max, trace);
    text, t1 := RunDynamic(DynamicBuffer.String, max, trace);
    elems, t2 := RunDynamic(DynamicBuffer.Vector, max, trace);
    throws := (t0, t1, t2);
    SameObservations(max, trace, stream, t0, text, t1);
    SameObservations(max, trace, stream, t0, elems, t2);
  }
}
