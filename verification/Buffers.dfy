/**
 Memory and buffers. Memory is one address space; a buffer is a range of addresses, and a buffer
 sequence is a list of them, possibly with empty ranges anywhere.
 */
module Buffers {
  import opened Bytes

  /** mutable_buffer and const_buffer: a pointer and a size. */
  datatype Buffer = Buffer(data: nat, size: nat)

  /** The range lies in a memory of n bytes. */
  predicate Within(b: Buffer, n: nat) {
    b.data + b.size <= n
  }

  predicate AllWithin(bs: seq<Buffer>, n: nat) {
    forall i :: 0 <= i < |bs| ==> Within(bs[i], n)
  }

  /** operator+ and operator+=: move the start, by no more than the size. */
  function Offset(b: Buffer, n: nat): Buffer {
    var d := if n < b.size then n else b.size;
    Buffer(b.data + d, b.size - d)
  }

  /** buffer(b, n): at most the first n bytes. */
  function Prefix(b: Buffer, n: nat): Buffer {
    Buffer(b.data, if b.size < n then b.size else n)
  }

  /** The total size of the first k buffers. */
  function SizeUpTo(bs: seq<Buffer>, k: nat): nat
    requires k <= |bs|
  {
    if k == 0 then 0 else SizeUpTo(bs, k - 1) + bs[k - 1].size
  }

  function Total(bs: seq<Buffer>): nat {
    SizeUpTo(bs, |bs|)
  }

  /** The addresses of the first k buffers, in order. */
  function AddrsUpTo(bs: seq<Buffer>, k: nat): (r: seq<nat>)
    requires k <= |bs|
    ensures |r| == SizeUpTo(bs, k)
  {
    if k == 0 then []
    else AddrsUpTo(bs, k - 1) + seq(bs[k - 1].size, j requires 0 <= j => bs[k - 1].data + j)
  }

  /** A buffer sequence as one list of addresses. */
  function Addrs(bs: seq<Buffer>): (r: seq<nat>)
    ensures |r| == Total(bs)
  {
    AddrsUpTo(bs, |bs|)
  }

  /** The bytes of a buffer sequence, concatenated. */
  function Flatten(mem: seq<Byte>, bs: seq<Buffer>): (r: seq<Byte>)
    requires AllWithin(bs, |mem|)
    ensures |r| == Total(bs)
  {
    FlattenUpTo(mem, bs, |bs|)
  }

  function FlattenUpTo(mem: seq<Byte>, bs: seq<Buffer>, k: nat): (r: seq<Byte>)
    requires k <= |bs| && AllWithin(bs, |mem|)
    ensures |r| == SizeUpTo(bs, k)
  {
    if k == 0 then []
    else FlattenUpTo(mem, bs, k - 1) + mem[bs[k - 1].data..bs[k - 1].data + bs[k - 1].size]
  }

  lemma {:induction false} SizeMonotone(bs: seq<Buffer>, j: nat, k: nat)
    requires j <= k <= |bs|
    ensures SizeUpTo(bs, j) <= SizeUpTo(bs, k)
  {
    if j < k { SizeMonotone(bs, j, k - 1); }
  }

  /** Byte j of buffer i is byte SizeUpTo(i) + j of the whole. */
  lemma {:induction false} AddrAt(bs: seq<Buffer>, i: nat, j: nat, k: nat)
    requires i < k <= |bs| && j < bs[i].size
    ensures SizeUpTo(bs, i) + j < SizeUpTo(bs, k)
    ensures AddrsUpTo(bs, k)[SizeUpTo(bs, i) + j] == bs[i].data + j
  {
    SizeMonotone(bs, i, k - 1);
    if i < k - 1 { AddrAt(bs, i, j, k - 1); }
  }

  /** Every byte of the whole is some byte of some buffer. */
  lemma {:induction false} FlattenAt(mem: seq<Byte>, bs: seq<Buffer>, p: nat, k: nat)
    requires k <= |bs| && AllWithin(bs, |mem|) && p < SizeUpTo(bs, k)
    ensures AddrsUpTo(bs, k)[p] < |mem|
    ensures FlattenUpTo(mem, bs, k)[p] == mem[AddrsUpTo(bs, k)[p]]
  {
    if p < SizeUpTo(bs, k - 1) { FlattenAt(mem, bs, p, k - 1); }
  }

  /** buffer_size, the single and the multiple overload. */
  method BufferSize(bs: seq<Buffer>) returns (total: nat)
    ensures total == |Addrs(bs)|
  {
    total := 0;
    for i := 0 to |bs|
      invariant total == SizeUpTo(bs, i)
    {
      total := total + bs[i].size;
    }
  }
}
