/** Scatter-gather copying between two lists of buffers in one memory. */
module BufferCopy {
  import opened Buffers

  function CellsOf(r: Range): seq<nat> {
    seq(r.size, j requires 0 <= j < r.size => r.start + j)
  }

  function Cells(buffers: seq<Range>): seq<seq<nat>> {
    seq(|buffers|, k requires 0 <= k < |buffers| => CellsOf(buffers[k]))
  }

  /** The addresses of a list of buffers, in flat order. */
  function Addresses(buffers: seq<Range>): seq<nat> {
    Flat(Cells(buffers))
  }

  /** Every address is in memory, no target byte is there twice, and none is a source byte. */
  ghost predicate Separate(size: nat, target: seq<nat>, source: seq<nat>) {
    && (forall p :: 0 <= p < |target| ==> target[p] < size)
    && (forall p :: 0 <= p < |source| ==> source[p] < size)
    && (forall p, q :: 0 <= p < q < |target| ==> target[p] != target[q])
    && (forall p, q :: 0 <= p < |target| && 0 <= q < |source| ==> target[p] != source[q])
  }

  ghost function Bytes(mem: seq<Byte>, addresses: seq<nat>): seq<Byte>
    requires forall p :: 0 <= p < |addresses| ==> addresses[p] < |mem|
  {
    seq(|addresses|, p requires 0 <= p < |addresses| => mem[addresses[p]])
  }

  /** The first n target bytes hold the first n source bytes, and no other byte of memory changed. */
  ghost predicate Copied(before: seq<Byte>, after: seq<Byte>, target: seq<nat>, source: seq<nat>, n: nat)
    requires Separate(|before|, target, source) && n <= |target| && n <= |source|
  {
    && |after| == |before|
    && (forall p :: 0 <= p < n ==> after[target[p]] == before[source[p]])
    && (forall a :: 0 <= a < |before| && a !in target[..n] ==> after[a] == before[a])
  }

  /** In terms of flat byte sequences: the target becomes that prefix of the source followed by
      its own old remainder, and the source is what it was. */
  lemma CopiedFlat(before: seq<Byte>, after: seq<Byte>, target: seq<nat>, source: seq<nat>, n: nat)
    requires Separate(|before|, target, source) && n <= |target| && n <= |source|
    requires Copied(before, after, target, source, n)
    ensures Bytes(after, target) == Bytes(before, source)[..n] + Bytes(before, target)[n..]
    ensures Bytes(after, source) == Bytes(before, source)
  {
  }

  /** Copying n more bytes that come next on both sides extends the copy. */
  lemma CopiedMore(before: seq<Byte>, mid: seq<Byte>, after: seq<Byte>, target: seq<nat>, source: seq<nat>,
                   c: nat, n: nat, t: nat, s: nat)
    requires Separate(|before|, target, source) && c + n <= |target| && c + n <= |source|
    requires Copied(before, mid, target, source, c)
    requires |after| == |before| && (n > 0 ==> t + n <= |before| && s + n <= |before|)
    requires forall p :: c <= p < c + n ==> target[p] == t + (p - c) && source[p] == s + (p - c)
    requires forall a :: t <= a < t + n ==> after[a] == mid[s + (a - t)]
    requires forall a :: 0 <= a < |before| && !(t <= a < t + n) ==> after[a] == mid[a]
    ensures Copied(before, after, target, source, c + n)
  {
    RunSlice(target, c, n, t, target[c..c + n]);
    forall p | 0 <= p < c
      ensures after[target[p]] == before[source[p]]
    {
      assert target[p] !in target[c..c + n];
    }
    forall p | c <= p < c + n
      ensures after[target[p]] == before[source[p]]
    {
      assert target[p] == t + (p - c) && source[p] == s + (p - c);
      SourceKept(before, mid, target, source, c, p);
    }
    assert target[..c + n] == target[..c] + target[c..c + n];
  }

  /** A source byte is still what it was. */
  lemma SourceKept(before: seq<Byte>, mid: seq<Byte>, target: seq<nat>, source: seq<nat>, c: nat, p: nat)
    requires Separate(|before|, target, source) && c <= |target| && c <= |source| && p < |source|
    requires Copied(before, mid, target, source, c)
    ensures mid[source[p]] == before[source[p]]
  {
    assert source[p] !in target[..c];
  }

  /** A run of consecutive addresses holds exactly the addresses of its range. */
  lemma RunSlice(addresses: seq<nat>, c: nat, n: nat, t: nat, run: seq<nat>)
    requires c + n <= |addresses| && run == addresses[c..c + n]
    requires forall p :: c <= p < c + n ==> addresses[p] == t + (p - c)
    ensures forall a :: a in run <==> t <= a < t + n
    ensures forall a :: a in run ==> a in addresses
  {
    forall i | 0 <= i < n
      ensures run[i] == t + i
    {
      assert addresses[c + i] == t + i;
    }
    forall a | t <= a < t + n
      ensures a in run
    {
      var i := a - t;
      assert run[i] == a;
    }
  }

  /** Where cursor (k, offset) into the buffers stands in the flat order. */
  ghost predicate Cursor(buffers: seq<Range>, k: nat, offset: nat, c: nat) {
    && k <= |buffers| && c == Offset(Cells(buffers), k) + offset
    && if k < |buffers| then offset <= buffers[k].size else offset == 0
  }

  lemma CursorCells(buffers: seq<Range>, k: nat, offset: nat, c: nat)
    requires Cursor(buffers, k, offset, c) && k < |buffers|
    ensures var r := buffers[k].Skip(offset);
            && c + r.size <= |Addresses(buffers)|
            && forall p :: c <= p < c + r.size ==> Addresses(buffers)[p] == r.start + (p - c)
  {
    var cells := Cells(buffers);
    OffsetNext(cells, k);
    OffsetEnds(cells, k + 1);
    forall p | c <= p < c + buffers[k].size - offset
      ensures Addresses(buffers)[p] == buffers[k].start + offset + (p - c)
    {
      FlatAt(cells, k, offset + (p - c));
    }
  }

  lemma CursorMoves(buffers: seq<Range>, k: nat, offset: nat, c: nat, n: nat)
    requires Cursor(buffers, k, offset, c) && k < |buffers| && n <= buffers[k].Skip(offset).size
    ensures if n == buffers[k].Skip(offset).size then Cursor(buffers, k + 1, 0, c + n)
            else Cursor(buffers, k, offset + n, c + n)
  {
    OffsetNext(Cells(buffers), k);
  }

  lemma CursorBounds(buffers: seq<Range>, k: nat, offset: nat, c: nat)
    requires Cursor(buffers, k, offset, c)
    ensures c <= |Addresses(buffers)| && (k == |buffers| ==> c == |Addresses(buffers)|)
  {
    OffsetEnds(Cells(buffers), k);
    if k < |buffers| {
      OffsetNext(Cells(buffers), k);
      OffsetEnds(Cells(buffers), k + 1);
    }
  }

  lemma CursorStart(buffers: seq<Range>)
    ensures Cursor(buffers, 0, 0, 0)
  {
    OffsetEnds(Cells(buffers), 0);
  }

  // ---- the copying methods ----

  /** Both ranges lie in memory and share no byte. */
  ghost predicate Apart(size: nat, t: Range, s: Range) {
    && t.start + t.size <= size && s.start + s.size <= size
    && (t.start + t.size <= s.start || s.start + s.size <= t.start)
  }

  /** One block: as many bytes as both buffers have. */
  method BufferCopy1(mem: array<Byte>, target: Range, source: Range) returns (n: nat)
    requires target.size > 0 && source.size > 0 ==> Apart(mem.Length, target, source)
    modifies mem
    ensures n == Min(target.size, source.size)
    ensures forall a :: target.start <= a < target.start + n ==>
              mem[a] == old(mem[source.start + (a - target.start)])
    ensures forall a :: 0 <= a < mem.Length && !(target.start <= a < target.start + n) ==> mem[a] == old(mem[a])
  {
    n := if target.size < source.size then target.size else source.size;
    if n > 0 {
      forall j | 0 <= j < n {
        mem[target.start + j] := mem[source.start + j];
      }
    }
  }

  /** The block under both cursors, cut to a limit: the copy grows by what was moved. */
  method CopyBlock(mem: array<Byte>, ghost before: seq<Byte>, target: seq<Range>, source: seq<Range>,
                   ti: nat, toff: nat, si: nat, soff: nat, total: nat, limit: nat)
    returns (n: nat)
    requires |before| == mem.Length && Separate(mem.Length, Addresses(target), Addresses(source))
    requires ti < |target| && si < |source|
    requires Cursor(target, ti, toff, total) && Cursor(source, si, soff, total)
    requires total <= |Addresses(target)| && total <= |Addresses(source)|
    requires Copied(before, mem[..], Addresses(target), Addresses(source), total)
    modifies mem
    ensures n == Min(target[ti].Skip(toff).size, Min(source[si].Skip(soff).size, limit))
    ensures total + n <= |Addresses(target)| && total + n <= |Addresses(source)|
    ensures Copied(before, mem[..], Addresses(target), Addresses(source), total + n)
  {
    hide Cursor, Addresses, Separate, Copied, Apart, Cells;
    var t, s := target[ti].Skip(toff), source[si].Skip(soff).Limit(limit);
    CursorCells(target, ti, toff, total);
    CursorCells(source, si, soff, total);
    ghost var intoAll, fromAll := Addresses(target), Addresses(source);
    RangesApart(mem.Length, intoAll, fromAll, total, t, s);
    ghost var mid := mem[..];
    n := BufferCopy1(mem, t, s);
    CopiedMore(before, mid, mem[..], intoAll, fromAll, total, n, t.start, s.start);
  }

  lemma RangesApart(size: nat, target: seq<nat>, source: seq<nat>, c: nat, t: Range, s: Range)
    requires Separate(size, target, source) && c + t.size <= |target| && c + s.size <= |source|
    requires forall p :: c <= p < c + t.size ==> target[p] == t.start + (p - c)
    requires forall p :: c <= p < c + s.size ==> source[p] == s.start + (p - c)
    ensures t.size > 0 && s.size > 0 ==> Apart(size, t, s)
  {
    if t.size > 0 && s.size > 0 {
      var p, q := c + (t.size - 1), c + (s.size - 1);
      assert target[p] == t.start + (t.size - 1) && source[q] == s.start + (s.size - 1);
      var into, from := target[c..p + 1], source[c..q + 1];
      RunSlice(target, c, t.size, t.start, into);
      RunSlice(source, c, s.size, s.start, from);
      assert source[c] == s.start && s.start !in target;
      assert target[c] == t.start && t.start !in source;
      assert s.start !in into && t.start !in from;
    }
  }

  /** What every overload promises: it returns the smallest of both totals and the limit, and
      copies exactly that many flat bytes. */
  ghost predicate Promise(before: seq<Byte>, after: seq<Byte>, target: seq<nat>, source: seq<nat>, limit: nat, n: nat)
    requires Separate(|before|, target, source)
  {
    && n == Min(|target|, Min(|source|, limit))
    && Copied(before, after, target, source, n)
    && Bytes(after, target) == Bytes(before, source)[..n] + Bytes(before, target)[n..]
    && Bytes(after, source) == Bytes(before, source)
  }

  /** A copy that exhausted a side or reached the limit has kept the promise. */
  lemma Finished(before: seq<Byte>, after: seq<Byte>, target: seq<nat>, source: seq<nat>, total: nat, limit: nat)
    requires Separate(|before|, target, source)
    requires total <= limit && total <= |target| && total <= |source|
    requires Copied(before, after, target, source, total)
    requires total == |target| || total == |source| || total == limit
    ensures Promise(before, after, target, source, limit, total)
  {
    CopiedFlat(before, after, target, source, total);
  }

  /** Many buffers to many, with a limit. */
  method BufferCopyLimited(mem: array<Byte>, target: seq<Range>, source: seq<Range>, maxBytes: nat)
    returns (total: nat)
    requires Separate(mem.Length, Addresses(target), Addresses(source))
    modifies mem
    ensures Promise(old(mem[..]), mem[..], Addresses(target), Addresses(source), maxBytes, total)
  {
    hide Addresses, Separate, Copied, Cells, Cursor, Promise;
    total := 0;
    var ti: nat, toff: nat, si: nat, soff: nat := 0, 0, 0, 0;
    CopyStarts(mem[..], target, source);
    while total != maxBytes && ti != |target| && si != |source|
      invariant total <= maxBytes && ti <= |target| && si <= |source|
      invariant Cursor(target, ti, toff, total) && Cursor(source, si, soff, total)
      invariant total <= |Addresses(target)| && total <= |Addresses(source)|
      invariant Copied(old(mem[..]), mem[..], Addresses(target), Addresses(source), total)
      decreases |target| - ti + |source| - si + maxBytes - total
    {
      var t, s := target[ti].Skip(toff), source[si].Skip(soff);
      var n := CopyBlock(mem, old(mem[..]), target, source, ti, toff, si, soff, total, maxBytes - total);
      CursorMoves(target, ti, toff, total, n);
      CursorMoves(source, si, soff, total, n);
      total := total + n;
      if n == t.size {
        ti, toff := ti + 1, 0;
      } else {
        toff := toff + n;
      }
      if n == s.size {
        si, soff := si + 1, 0;
      } else {
        soff := soff + n;
      }
    }
    CursorBounds(target, ti, toff, total);
    CursorBounds(source, si, soff, total);
    Finished(old(mem[..]), mem[..], Addresses(target), Addresses(source), total, maxBytes);
  }

  lemma CopyStarts(mem: seq<Byte>, target: seq<Range>, source: seq<Range>)
    requires Separate(|mem|, Addresses(target), Addresses(source))
    ensures Cursor(target, 0, 0, 0) && Cursor(source, 0, 0, 0)
    ensures Copied(mem, mem, Addresses(target), Addresses(source), 0)
  {
    CursorStart(target);
    CursorStart(source);
  }

  /** Many buffers to many, without a limit: the limit is whatever both lists hold. */
  method BufferCopy(mem: array<Byte>, target: seq<Range>, source: seq<Range>) returns (total: nat)
    requires Separate(mem.Length, Addresses(target), Addresses(source))
    modifies mem
    ensures Promise(old(mem[..]), mem[..], Addresses(target), Addresses(source), |Addresses(source)|, total)
  {
    hide Addresses, Separate, Copied, Cells, Cursor, Promise;
    total := 0;
    var ti: nat, toff: nat, si: nat, soff: nat := 0, 0, 0, 0;
    CopyStarts(mem[..], target, source);
    while ti != |target| && si != |source|
      invariant ti <= |target| && si <= |source|
      invariant Cursor(target, ti, toff, total) && Cursor(source, si, soff, total)
      invariant total <= |Addresses(target)| && total <= |Addresses(source)|
      invariant Copied(old(mem[..]), mem[..], Addresses(target), Addresses(source), total)
      decreases |target| - ti + |source| - si
    {
      var t, s := target[ti].Skip(toff), source[si].Skip(soff);
      var n := CopyBlock(mem, old(mem[..]), target, source, ti, toff, si, soff, total, s.size);
      CursorMoves(target, ti, toff, total, n);
      CursorMoves(source, si, soff, total, n);
      total := total + n;
      if n == t.size {
        ti, toff := ti + 1, 0;
      } else {
        toff := toff + n;
      }
      if n == s.size {
        si, soff := si + 1, 0;
      } else {
        soff := soff + n;
      }
    }
    CursorBounds(target, ti, toff, total);
    CursorBounds(source, si, soff, total);
    Finished(old(mem[..]), mem[..], Addresses(target), Addresses(source), total, |Addresses(source)|);
  }

  lemma OneBuffer(r: Range, c: nat)
    requires c <= r.size
    ensures Cursor([r], 0, c, c) && |Addresses([r])| == r.size
  {
    var cells := Cells([r]);
    assert cells == [CellsOf(r)];
    OffsetEnds(cells, 0);
    OffsetNext(cells, 0);
    assert cells[..1] == cells;
  }

  /** One target buffer, filled from many. */
  method Gather(mem: array<Byte>, target: Range, source: seq<Range>, maxBytes: nat) returns (total: nat)
    requires Separate(mem.Length, Addresses([target]), Addresses(source))
    modifies mem
    ensures Promise(old(mem[..]), mem[..], Addresses([target]), Addresses(source), maxBytes, total)
  {
    hide Addresses, Separate, Copied, Cells, Cursor, Promise;
    total := 0;
    var si: nat := 0;
    var targetBuffer := target.Limit(maxBytes);
    CopyStarts(mem[..], [target], source);
    OneBuffer(target, 0);
    while targetBuffer.size != 0 && si != |source|
      invariant si <= |source| && total <= Min(target.size, maxBytes) && total <= |Addresses(source)|
      invariant targetBuffer == target.Limit(maxBytes).Skip(total)
      invariant targetBuffer.size != 0 ==> Cursor(source, si, 0, total)
      invariant Copied(old(mem[..]), mem[..], Addresses([target]), Addresses(source), total)
    {
      OneBuffer(target, total);
      var n := CopyBlock(mem, old(mem[..]), [target], source, 0, total, si, 0, total, maxBytes - total);
      assert n == Min(targetBuffer.size, source[si].size);
      CursorMoves(source, si, 0, total, n);
      total := total + n;
      targetBuffer := targetBuffer.Skip(n);
      si := si + 1;
    }
    if targetBuffer.size != 0 {
      CursorBounds(source, si, 0, total);
    }
    Finished(old(mem[..]), mem[..], Addresses([target]), Addresses(source), total, maxBytes);
  }

  /** One source buffer, spread over many. */
  method Scatter(mem: array<Byte>, target: seq<Range>, source: Range, maxBytes: nat) returns (total: nat)
    requires Separate(mem.Length, Addresses(target), Addresses([source]))
    modifies mem
    ensures Promise(old(mem[..]), mem[..], Addresses(target), Addresses([source]), maxBytes, total)
  {
    hide Addresses, Separate, Copied, Cells, Cursor, Promise;
    total := 0;
    var ti: nat := 0;
    var sourceBuffer := source.Limit(maxBytes);
    CopyStarts(mem[..], target, [source]);
    OneBuffer(source, 0);
    while sourceBuffer.size != 0 && ti != |target|
      invariant ti <= |target| && total <= Min(source.size, maxBytes) && total <= |Addresses(target)|
      invariant sourceBuffer == source.Limit(maxBytes).Skip(total)
      invariant sourceBuffer.size != 0 ==> Cursor(target, ti, 0, total)
      invariant Copied(old(mem[..]), mem[..], Addresses(target), Addresses([source]), total)
    {
      OneBuffer(source, total);
      var n := CopyBlock(mem, old(mem[..]), target, [source], ti, 0, 0, total, total, maxBytes - total);
      assert n == Min(target[ti].size, sourceBuffer.size);
      CursorMoves(target, ti, 0, total, n);
      total := total + n;
      sourceBuffer := sourceBuffer.Skip(n);
      ti := ti + 1;
    }
    if sourceBuffer.size != 0 {
      CursorBounds(target, ti, 0, total);
    }
    Finished(old(mem[..]), mem[..], Addresses(target), Addresses([source]), total, maxBytes);
  }
}
