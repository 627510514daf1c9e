/**
 detail::buffer_copy, all overloads, against one flat copy. The public function picks an overload
 by whether each side is a single buffer or a sequence; every overload meets the same contract on
 the corresponding sequences, and that contract determines the count and the final memory.
 */
module BufferCopy {
  import opened Bytes
  import opened Buffers

  /** The target regions are pairwise disjoint and do not meet the source: memcpy's own condition. */
  ghost predicate Separate(target: seq<Buffer>, source: seq<Buffer>) {
    var ta, sa := Addrs(target), Addrs(source);
    && (forall i, j :: 0 <= i < j < |ta| ==> ta[i] != ta[j])
    && (forall i, j :: 0 <= i < |ta| && 0 <= j < |sa| ==> ta[i] != sa[j])
  }

  /** One byte of the copy has arrived. */
  predicate Arrived(before: seq<Byte>, after: seq<Byte>, to: nat, from: nat) {
    to < |after| && from < |before| && after[to] == before[from]
  }

  /** The first n bytes of the source have been copied and nothing else has changed. */
  ghost predicate Copied(before: seq<Byte>, after: seq<Byte>, target: seq<Buffer>, source: seq<Buffer>, n: nat) {
    var ta, sa := Addrs(target), Addrs(source);
    && |after| == |before| && n <= |ta| && n <= |sa|
    && (forall k :: 0 <= k < n ==> Arrived(before, after, ta[k], sa[k]))
    && (forall a: nat :: a < |after| && a !in ta[..n] ==> after[a] == before[a])
  }

  /** memcpy of n bytes from one address to another. */
  ghost predicate Moved(before: seq<Byte>, after: seq<Byte>, to: nat, from: nat, n: nat) {
    && |after| == |before| && to + n <= |before| && from + n <= |before|
    && (forall a: nat {:trigger after[a]} :: to <= a < to + n ==> after[a] == before[from + (a - to)])
    && (forall a: nat {:trigger after[a]} :: a < |after| && !(to <= a < to + n) ==> after[a] == before[a])
  }

  /** Two ranges of n bytes do not overlap. */
  predicate Apart(a: nat, b: nat, n: nat) {
    n == 0 || a + n <= b || b + n <= a
  }

  /** buffer_copy_1: memcpy demands that the bytes it copies do not overlap their target. */
  method CopyOne(mem: array<Byte>, target: Buffer, source: Buffer) returns (n: nat)
    requires Within(target, mem.Length) && Within(source, mem.Length)
    requires Apart(target.data, source.data, Min(target.size, source.size))
    modifies mem
    ensures n == Min(target.size, source.size)
    ensures Moved(old(mem[..]), mem[..], target.data, source.data, n)
  {
    n := if target.size < source.size then target.size else source.size;
    if n > 0 {
      forall k | 0 <= k < n {
        mem[target.data + k] := mem[source.data + k];
      }
    }
  }

  // ---- positions in two buffer sequences ----

  /** The copy stands at offset o of buffer i, which is byte p of the sequence. */
  predicate Standing(bs: seq<Buffer>, i: nat, o: nat, p: nat) {
    && i <= |bs| && p == SizeUpTo(bs, i) + o
    && (if i < |bs| then o <= bs[i].size else o == 0)
  }

  /** Positions p to p + n of a sequence of addresses are a contiguous range. */
  ghost predicate Window(addrs: seq<nat>, p: nat, n: nat, first: nat) {
    p + n <= |addrs| && forall k :: p <= k < p + n ==> addrs[k] == first + (k - p)
  }

  lemma StandingWindow(bs: seq<Buffer>, i: nat, o: nat, p: nat, n: nat)
    requires Standing(bs, i, o, p) && i < |bs| && o + n <= bs[i].size
    ensures Window(Addrs(bs), p, n, bs[i].data + o)
  {
    StandingBound(bs, i, o, p);
    forall k | p <= k < p + n ensures Addrs(bs)[k] == bs[i].data + o + (k - p) {
      AddrAt(bs, i, o + (k - p), |bs|);
    }
  }

  lemma StandingBound(bs: seq<Buffer>, i: nat, o: nat, p: nat)
    requires Standing(bs, i, o, p)
    ensures p <= Total(bs)
    ensures i < |bs| ==> p + (bs[i].size - o) <= Total(bs)
    ensures i == |bs| ==> p == Total(bs)
  {
    if i < |bs| { SizeMonotone(bs, i + 1, |bs|); }
  }

  /** Overlapping windows share an address. */
  lemma WindowsMeet(ta: seq<nat>, sa: seq<nat>, p: nat, n: nat, t0: nat, s0: nat) returns (i: nat, j: nat)
    requires Window(ta, p, n, t0) && Window(sa, p, n, s0) && !Apart(t0, s0, n)
    ensures i < |ta| && j < |sa| && ta[i] == sa[j]
  {
    i := if t0 <= s0 then p + (s0 - t0) else p;
    j := if t0 <= s0 then p else p + (t0 - s0);
  }

  /** Separate sequences give memcpy ranges that do not overlap, wherever the copy stands in them. */
  lemma PiecesApart(target: seq<Buffer>, source: seq<Buffer>, ti: nat, to: nat, si: nat, so: nat, p: nat, n: nat)
    requires Separate(target, source)
    requires Standing(target, ti, to, p) && ti < |target| && to + n <= target[ti].size
    requires Standing(source, si, so, p) && si < |source| && so + n <= source[si].size
    ensures Apart(target[ti].data + to, source[si].data + so, n)
  {
    var t0, s0 := target[ti].data + to, source[si].data + so;
    StandingWindow(target, ti, to, p, n);
    StandingWindow(source, si, so, p, n);
    if !Apart(t0, s0, n) {
      var i, j := WindowsMeet(Addrs(target), Addrs(source), p, n, t0, s0);
    }
  }

  /** The place after n more bytes of buffer i: at its end, the start of the next one. */
  function Onward(bs: seq<Buffer>, i: nat, o: nat, n: nat): (nat, nat)
    requires i < |bs|
  {
    if n == Offset(bs[i], o).size then (i + 1, 0) else (i, o + n)
  }

  lemma StandingOnward(bs: seq<Buffer>, i: nat, o: nat, p: nat, n: nat)
    requires Standing(bs, i, o, p) && i < |bs| && o + n <= bs[i].size
    ensures var (i', o') := Onward(bs, i, o, n); Standing(bs, i', o', p + n)
  {
  }

  /** One memcpy carries the copy forward by its n bytes. */
  lemma CopyStep(before: seq<Byte>, mid: seq<Byte>, after: seq<Byte>, target: seq<Buffer>, source: seq<Buffer>,
                 ti: nat, to: nat, si: nat, so: nat, p: nat, n: nat)
    requires Separate(target, source) && Copied(before, mid, target, source, p)
    requires Standing(target, ti, to, p) && ti < |target| && to + n <= target[ti].size
    requires Standing(source, si, so, p) && si < |source| && so + n <= source[si].size
    requires Moved(mid, after, target[ti].data + to, source[si].data + so, n)
    ensures Copied(before, after, target, source, p + n)
  {
    var ta, sa := Addrs(target), Addrs(source);
    var t0, s0 := target[ti].data + to, source[si].data + so;
    StandingWindow(target, ti, to, p, n);
    StandingWindow(source, si, so, p, n);
    forall k | 0 <= k < p + n ensures Arrived(before, after, ta[k], sa[k]) {
      if k < p {
        assert Arrived(before, mid, ta[k], sa[k]);
        NotInWindow(ta, p, n, t0, k);
        assert after[ta[k]] == mid[ta[k]];
      } else {
        assert ta[k] == t0 + (k - p) && sa[k] == s0 + (k - p);
        assert mid[sa[k]] == before[sa[k]];
        assert after[ta[k]] == mid[sa[k]];
      }
    }
    forall a: nat | a < |after| && a !in ta[..p + n] ensures after[a] == before[a] {
      WindowInPrefix(ta, p, n, t0, a);
      assert after[a] == mid[a];
    }
  }

  lemma WindowMember(ta: seq<nat>, p: nat, n: nat, t0: nat, a: nat)
    requires Window(ta, p, n, t0)
    ensures t0 <= a < t0 + n ==> (exists j :: p <= j < |ta| && ta[j] == a) && a in ta[..p + n]
  {
    if t0 <= a < t0 + n {
      var j := p + (a - t0);
      assert ta[j] == a && ta[..p + n][j] == a;
    }
  }

  lemma NotInWindow(ta: seq<nat>, p: nat, n: nat, t0: nat, k: nat)
    requires Window(ta, p, n, t0) && k < p
    requires forall i, j :: 0 <= i < j < |ta| ==> ta[i] != ta[j]
    ensures !(t0 <= ta[k] < t0 + n)
  {
    WindowMember(ta, p, n, t0, ta[k]);
  }

  lemma WindowInPrefix(ta: seq<nat>, p: nat, n: nat, t0: nat, a: nat)
    requires Window(ta, p, n, t0) && a !in ta[..p + n]
    ensures !(t0 <= a < t0 + n) && a !in ta[..p]
  {
    WindowMember(ta, p, n, t0, a);
    assert ta[..p] == ta[..p + n][..p];
  }

  // ---- the overloads ----

  /** How many bytes buffer_copy promises to copy. */
  function Promised(target: seq<Buffer>, source: seq<Buffer>, limit: nat): nat {
    Min(Min(Total(target), Total(source)), limit)
  }

  /** The contract of buffer_copy, whichever overload is selected. */
  ghost predicate CopyContract(before: seq<Byte>, after: seq<Byte>, target: seq<Buffer>, source: seq<Buffer>,
                               limit: nat, n: nat) {
    n == Promised(target, source, limit) && Copied(before, after, target, source, n)
  }

  lemma NothingCopied(mem: seq<Byte>, target: seq<Buffer>, source: seq<Buffer>)
    ensures Copied(mem, mem, target, source, 0)
  {
  }

  /** b is the part of buffer i from offset o on, or a front of it. */
  predicate PartOf(b: Buffer, bs: seq<Buffer>, i: nat, o: nat) {
    i < |bs| && b.data == bs[i].data + o && o + b.size <= bs[i].size
  }

  /** The body of the loops: one buffer_copy_1 from where the copy stands. */
  method CopyPiece(mem: array<Byte>, tb: Buffer, sb: Buffer, ghost before: seq<Byte>, ghost target: seq<Buffer>,
                   ghost source: seq<Buffer>, ghost ti: nat, ghost to: nat, ghost si: nat, ghost so: nat,
                   ghost total: nat) returns (n: nat)
    requires AllWithin(target, mem.Length) && AllWithin(source, mem.Length) && Separate(target, source)
    requires Copied(before, mem[..], target, source, total)
    requires Standing(target, ti, to, total) && PartOf(tb, target, ti, to)
    requires Standing(source, si, so, total) && PartOf(sb, source, si, so)
    modifies mem
    ensures n == Min(tb.size, sb.size)
    ensures Copied(before, mem[..], target, source, total + n)
  {
    ghost var mid := mem[..];
    assert Within(target[ti], mem.Length) && Within(source[si], mem.Length);
    PiecesApart(target, source, ti, to, si, so, total, Min(tb.size, sb.size));
    n := CopyOne(mem, tb, sb);
    ghost var after := mem[..];
    CopyStep(before, mid, after, target, source, ti, to, si, so, total, n);
  }

  /** multiple_buffers, multiple_buffers, with a limit. */
  method CopyManyToMany(mem: array<Byte>, target: seq<Buffer>, source: seq<Buffer>, limit: nat) returns (total: nat)
    requires AllWithin(target, mem.Length) && AllWithin(source, mem.Length) && Separate(target, source)
    modifies mem
    ensures CopyContract(old(mem[..]), mem[..], target, source, limit, total)
  {
    total := 0;
    var ti: nat, to: nat, si: nat, so: nat := 0, 0, 0, 0;
    NothingCopied(mem[..], target, source);
    while total != limit && ti != |target| && si != |source|
      invariant Standing(target, ti, to, total) && Standing(source, si, so, total) && total <= limit
      invariant Copied(old(mem[..]), mem[..], target, source, total)
      decreases |target| - ti + |source| - si + limit - total
    {
      var tb, sb := Offset(target[ti], to), Offset(source[si], so);
      var n := CopyPiece(mem, tb, Prefix(sb, limit - total), old(mem[..]), target, source, ti, to, si, so, total);
      StandingOnward(target, ti, to, total, n);
      StandingOnward(source, si, so, total, n);
      total := total + n;
      var t', s' := Onward(target, ti, to, n), Onward(source, si, so, n);
      ti, to, si, so := t'.0, t'.1, s'.0, s'.1;
    }
    StandingBound(target, ti, to, total);
    StandingBound(source, si, so, total);
  }

  /** multiple_buffers, multiple_buffers, without a limit. */
  method CopyAllManyToMany(mem: array<Byte>, target: seq<Buffer>, source: seq<Buffer>) returns (total: nat)
    requires AllWithin(target, mem.Length) && AllWithin(source, mem.Length) && Separate(target, source)
    modifies mem
    ensures CopyContract(old(mem[..]), mem[..], target, source, Total(source), total)
  {
    total := 0;
    var ti: nat, to: nat, si: nat, so: nat := 0, 0, 0, 0;
    NothingCopied(mem[..], target, source);
    while ti != |target| && si != |source|
      invariant Standing(target, ti, to, total) && Standing(source, si, so, total)
      invariant Copied(old(mem[..]), mem[..], target, source, total)
      decreases |target| - ti + |source| - si
    {
      var tb, sb := Offset(target[ti], to), Offset(source[si], so);
      var n := CopyPiece(mem, tb, sb, old(mem[..]), target, source, ti, to, si, so, total);
      StandingOnward(target, ti, to, total, n);
      StandingOnward(source, si, so, total, n);
      total := total + n;
      var t', s' := Onward(target, ti, to, n), Onward(source, si, so, n);
      ti, to, si, so := t'.0, t'.1, s'.0, s'.1;
    }
    StandingBound(target, ti, to, total);
    StandingBound(source, si, so, total);
  }

  lemma Single(b: Buffer)
    ensures Total([b]) == b.size
    ensures forall o: nat :: o <= b.size ==> Standing([b], 0, o, o)
  {
    assert SizeUpTo([b], 1) == SizeUpTo([b], 0) + b.size;
  }

  /** one_buffer, one_buffer, with and without a limit. */
  method CopyOneToOne(mem: array<Byte>, target: Buffer, source: Buffer, limit: Option<nat>) returns (n: nat)
    requires Within(target, mem.Length) && Within(source, mem.Length) && Separate([target], [source])
    modifies mem
    ensures CopyContract(old(mem[..]), mem[..], [target], [source], LimitOf(limit, source.size), n)
  {
    Single(target);
    Single(source);
    ghost var before := mem[..];
    NothingCopied(before, [target], [source]);
    var sb := if limit.Some? then Prefix(source, limit.value) else source;
    n := CopyPiece(mem, target, sb, before, [target], [source], 0, 0, 0, 0, 0);
  }

  /** one_buffer, multiple_buffers. */
  method CopyManyToOne(mem: array<Byte>, target: Buffer, source: seq<Buffer>, limit: nat) returns (total: nat)
    requires Within(target, mem.Length) && AllWithin(source, mem.Length) && Separate([target], source)
    modifies mem
    ensures CopyContract(old(mem[..]), mem[..], [target], source, limit, total)
  {
    total := 0;
    var si, tb := 0, Prefix(target, limit);
    Single(target);
    NothingCopied(mem[..], [target], source);
    while tb.size > 0 && si != |source|
      invariant total <= Min(target.size, limit)
      invariant tb == Buffer(target.data + total, Min(target.size, limit) - total)
      invariant si <= |source| && total <= SizeUpTo(source, si)
      invariant tb.size > 0 ==> total == SizeUpTo(source, si)
      invariant Copied(old(mem[..]), mem[..], [target], source, total)
    {
      var n := CopyPiece(mem, tb, source[si], old(mem[..]), [target], source, 0, total, si, 0, total);
      total := total + n;
      tb := Offset(tb, n);
      si := si + 1;
    }
    SizeMonotone(source, si, |source|);
  }

  /** multiple_buffers, one_buffer. */
  method CopyOneToMany(mem: array<Byte>, target: seq<Buffer>, source: Buffer, limit: nat) returns (total: nat)
    requires AllWithin(target, mem.Length) && Within(source, mem.Length) && Separate(target, [source])
    modifies mem
    ensures CopyContract(old(mem[..]), mem[..], target, [source], limit, total)
  {
    total := 0;
    var ti, sb := 0, Prefix(source, limit);
    Single(source);
    NothingCopied(mem[..], target, [source]);
    while sb.size > 0 && ti != |target|
      invariant total <= Min(source.size, limit)
      invariant sb == Buffer(source.data + total, Min(source.size, limit) - total)
      invariant ti <= |target| && total <= SizeUpTo(target, ti)
      invariant sb.size > 0 ==> total == SizeUpTo(target, ti)
      invariant Copied(old(mem[..]), mem[..], target, [source], total)
    {
      var n := CopyPiece(mem, target[ti], sb, old(mem[..]), target, [source], ti, 0, 0, total, total);
      total := total + n;
      sb := Offset(sb, n);
      ti := ti + 1;
    }
    SizeMonotone(target, ti, |target|);
  }

  // ---- what the contract means ----

  /**
   Scattered copy is flat copy: the target afterwards is the first n bytes of the source followed
   by the target's old bytes from n on, and the source is untouched, however either side is split.
   */
  lemma FlatCopy(before: seq<Byte>, after: seq<Byte>, target: seq<Buffer>, source: seq<Buffer>, limit: nat, n: nat)
    requires AllWithin(target, |before|) && AllWithin(source, |before|) && Separate(target, source)
    requires CopyContract(before, after, target, source, limit, n)
    ensures |after| == |before|
    ensures Flatten(after, target) == Flatten(before, source)[..n] + Flatten(before, target)[n..]
    ensures Flatten(after, source) == Flatten(before, source)
  {
    var ta, sa := Addrs(target), Addrs(source);
    forall p | 0 <= p < Total(target)
      ensures Flatten(after, target)[p] == if p < n then Flatten(before, source)[p] else Flatten(before, target)[p]
    {
      FlattenAt(after, target, p, |target|);
      if p < n {
        FlattenAt(before, source, p, |source|);
        assert Arrived(before, after, ta[p], sa[p]);
      } else {
        FlattenAt(before, target, p, |target|);
        assert ta[p] !in ta[..n];
      }
    }
    forall p | 0 <= p < Total(source) ensures Flatten(after, source)[p] == Flatten(before, source)[p] {
      FlattenAt(after, source, p, |source|);
      FlattenAt(before, source, p, |source|);
      assert sa[p] !in ta[..n];
    }
  }

  /**
   The contract leaves no freedom: overloads that meet it on the same sequences, with limits that
   promise the same count, return that count and leave the same memory.
   */
  lemma OverloadsAgree(before: seq<Byte>, after: seq<Byte>, after': seq<Byte>, target: seq<Buffer>,
                       source: seq<Buffer>, limit: nat, limit': nat, n: nat, n': nat)
    requires CopyContract(before, after, target, source, limit, n)
    requires CopyContract(before, after', target, source, limit', n')
    requires Promised(target, source, limit) == Promised(target, source, limit')
    ensures n == n' && after == after'
  {
    var ta, sa := Addrs(target), Addrs(source);
    forall a: nat | a < |after| ensures after[a] == after'[a] {
      if a in ta[..n] {
        var k :| 0 <= k < n && ta[..n][k] == a;
        assert Arrived(before, after, ta[k], sa[k]) && Arrived(before, after', ta[k], sa[k]);
      }
    }
  }

  /** The general overload, with or without a limit. */
  method CopyGeneral(mem: array<Byte>, target: seq<Buffer>, source: seq<Buffer>, limit: Option<nat>) returns (n: nat)
    requires AllWithin(target, mem.Length) && AllWithin(source, mem.Length) && Separate(target, source)
    modifies mem
    ensures CopyContract(old(mem[..]), mem[..], target, source, LimitOf(limit, Total(source)), n)
  {
    if limit.Some? {
      n := CopyManyToMany(mem, target, source, limit.value);
    } else {
      n := CopyAllManyToMany(mem, target, source);
    }
  }

  function LimitOf(limit: Option<nat>, otherwise: nat): nat {
    if limit.Some? then limit.value else otherwise
  }

  /** Two single buffers: the specialised overload and the general one do the same to equal memories. */
  method OneToOneAgrees(mem: array<Byte>, mem': array<Byte>, target: Buffer, source: Buffer, limit: Option<nat>)
    returns (n: nat, n': nat)
    requires mem != mem' && mem[..] == mem'[..]
    requires Within(target, mem.Length) && Within(source, mem.Length) && Separate([target], [source])
    modifies mem, mem'
    ensures n == n' && mem[..] == mem'[..]
  {
    Single(source);
    ghost var before := mem[..];
    n := CopyOneToOne(mem, target, source, limit);
    n' := CopyGeneral(mem', [target], [source], limit);
    var l := LimitOf(limit, source.size);
    OverloadsAgree(before, mem[..], mem'[..], [target], [source], l, l, n, n');
  }

  /** One target: an absent limit is the largest size_t here and no limit at all there. */
  method ManyToOneAgrees(mem: array<Byte>, mem': array<Byte>, target: Buffer, source: seq<Buffer>, limit: Option<nat>)
    returns (n: nat, n': nat)
    requires mem != mem' && mem[..] == mem'[..] && mem.Length <= SIZE_MAX
    requires Within(target, mem.Length) && AllWithin(source, mem.Length) && Separate([target], source)
    modifies mem, mem'
    ensures n == n' && mem[..] == mem'[..]
  {
    Single(target);
    ghost var before := mem[..];
    n := CopyManyToOne(mem, target, source, LimitOf(limit, SIZE_MAX));
    n' := CopyGeneral(mem', [target], source, limit);
    OverloadsAgree(before, mem[..], mem'[..], [target], source,
                   LimitOf(limit, SIZE_MAX), LimitOf(limit, Total(source)), n, n');
  }

  /** One source. */
  method OneToManyAgrees(mem: array<Byte>, mem': array<Byte>, target: seq<Buffer>, source: Buffer, limit: Option<nat>)
    returns (n: nat, n': nat)
    requires mem != mem' && mem[..] == mem'[..] && mem.Length <= SIZE_MAX
    requires AllWithin(target, mem.Length) && Within(source, mem.Length) && Separate(target, [source])
    modifies mem, mem'
    ensures n == n' && mem[..] == mem'[..]
  {
    Single(source);
    ghost var before := mem[..];
    n := CopyOneToMany(mem, target, source, LimitOf(limit, SIZE_MAX));
    n' := CopyGeneral(mem', target, [source], limit);
    OverloadsAgree(before, mem[..], mem'[..], target, [source],
                   LimitOf(limit, SIZE_MAX), LimitOf(limit, Total([source])), n, n');
  }
}
