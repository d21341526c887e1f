/** A list of buffers and the flat byte sequence it stands for. */
module Buffers {

  type Byte = b: int | 0 <= b < 256

  function Min(a: nat, b: nat): nat {
    if a < b then a else b
  }

  /** A buffer: where it starts in memory and how many bytes it spans. */
  datatype Range = Range(start: nat, size: nat) {
    /** The buffer without its first n bytes, or its empty end. */
    function Skip(n: nat): Range {
      var offset := if n < size then n else size;
      Range(start + offset, size - offset)
    }

    /** The buffer cut to at most n bytes. */
    function Limit(n: nat): Range {
      Range(start, if size < n then size else n)
    }
  }

  function Flat<T>(buffers: seq<seq<T>>): seq<T> {
    if buffers == [] then [] else Flat(buffers[..|buffers| - 1]) + buffers[|buffers| - 1]
  }

  /** The flat index at which buffer k starts. */
  function Offset<T>(buffers: seq<seq<T>>, k: nat): nat
    requires k <= |buffers|
  {
    |Flat(buffers[..k])|
  }

  lemma OffsetNext<T>(buffers: seq<seq<T>>, k: nat)
    requires k < |buffers|
    ensures Offset(buffers, k + 1) == Offset(buffers, k) + |buffers[k]|
    ensures Flat(buffers[..k + 1]) == Flat(buffers[..k]) + buffers[k]
  {
    assert buffers[..k + 1][..k] == buffers[..k];
  }

  lemma {:induction false} OffsetGrows<T>(buffers: seq<seq<T>>, j: nat, k: nat)
    requires j <= k <= |buffers|
    ensures Offset(buffers, j) <= Offset(buffers, k)
    ensures Flat(buffers[..j]) <= Flat(buffers[..k])
    decreases k - j
  {
    if j < k {
      OffsetGrows(buffers, j, k - 1);
      OffsetNext(buffers, k - 1);
    }
  }

  lemma OffsetEnds<T>(buffers: seq<seq<T>>, k: nat)
    requires k <= |buffers|
    ensures Offset(buffers, 0) == 0 && Offset(buffers, |buffers|) == |Flat(buffers)|
    ensures Offset(buffers, k) <= |Flat(buffers)|
  {
    assert buffers[..|buffers|] == buffers;
    OffsetGrows(buffers, k, |buffers|);
  }

  /** Byte j of buffer k is the flat byte at the start of k plus j. */
  lemma FlatAt<T>(buffers: seq<seq<T>>, k: nat, j: nat)
    requires k < |buffers| && j < |buffers[k]|
    ensures Offset(buffers, k) + j < |Flat(buffers)|
    ensures Flat(buffers)[Offset(buffers, k) + j] == buffers[k][j]
  {
    OffsetNext(buffers, k);
    OffsetGrows(buffers, k + 1, |buffers|);
    assert buffers[..|buffers|] == buffers;
  }
}
