/** The random-access iterator over the bytes of a list of buffers. */
module BuffersIterator {
  import opened Buffers

  class BuffersIterator {
    const buffers: seq<seq<Byte>>
    var currentBuffer: seq<Byte>
    var currentBufferPosition: nat
    var current: nat
    var position: nat

    /** Inside a buffer that is not empty, or past the last one; `position` is the flat index. */
    ghost predicate Valid()
      reads this
    {
      && current <= |buffers|
      && position == Offset(buffers, current) + currentBufferPosition
      && (if current < |buffers| then currentBuffer == buffers[current] && currentBufferPosition < |currentBuffer|
          else currentBufferPosition == 0)
    }

    constructor Begin(buffers: seq<seq<Byte>>)
      ensures this.buffers == buffers && Valid() && position == 0
    {
      this.buffers := buffers;
      currentBuffer, currentBufferPosition, current, position := [], 0, 0, 0;
      new;
      OffsetEnds(buffers, 0);
      while current != |buffers|
        invariant current <= |buffers| && Offset(buffers, current) == 0
        invariant currentBufferPosition == 0 && position == 0
      {
        currentBuffer := buffers[current];
        if |currentBuffer| > 0 {
          break;
        }
        OffsetNext(buffers, current);
        current := current + 1;
      }
    }

    constructor End(buffers: seq<seq<Byte>>)
      ensures this.buffers == buffers && Valid() && position == |Flat(buffers)|
    {
      this.buffers := buffers;
      currentBuffer, currentBufferPosition, current, position := [], 0, 0, 0;
      new;
      OffsetEnds(buffers, 0);
      while current != |buffers|
        invariant current <= |buffers| && position == Offset(buffers, current) && currentBufferPosition == 0
      {
        OffsetNext(buffers, current);
        position := position + |buffers[current]|;
        current := current + 1;
      }
    }

    /** Dereferencing gives the byte of the concatenation at the flat index. */
    method Dereference() returns (b: Byte)
      requires Valid() && position < |Flat(buffers)|
      ensures b == Flat(buffers)[position]
    {
      InsideWhenBefore();
      FlatAt(buffers, current, currentBufferPosition);
      b := currentBuffer[currentBufferPosition];
    }

    /** The iterator is inside a buffer exactly while its index is before the end. */
    lemma InsideWhenBefore()
      requires Valid()
      ensures current < |buffers| <==> position < |Flat(buffers)|
      ensures position <= |Flat(buffers)|
    {
      OffsetEnds(buffers, current);
      if current < |buffers| {
        OffsetNext(buffers, current);
        OffsetEnds(buffers, current + 1);
      }
    }

    method Increment()
      requires Valid() && position < |Flat(buffers)|
      modifies this
      ensures Valid() && position == old(position) + 1
    {
      InsideWhenBefore();
      position := position + 1;
      currentBufferPosition := currentBufferPosition + 1;
      if currentBufferPosition != |currentBuffer| {
        return;
      }
      OffsetNext(buffers, current);
      current := current + 1;
      currentBufferPosition := 0;
      while current != |buffers|
        invariant current <= |buffers| && currentBufferPosition == 0
        invariant position == old(position) + 1 == Offset(buffers, current)
      {
        currentBuffer := buffers[current];
        if |currentBuffer| > 0 {
          return;
        }
        OffsetNext(buffers, current);
        current := current + 1;
      }
    }

    method Decrement()
      requires Valid() && position > 0
      modifies this
      ensures Valid() && position == old(position) - 1
    {
      position := position - 1;
      if currentBufferPosition != 0 {
        currentBufferPosition := currentBufferPosition - 1;
        return;
      }
      var iter: nat := current;
      while iter != 0
        invariant iter <= current == old(current) && Offset(buffers, iter) == old(position)
        invariant position == old(position) - 1
      {
        iter := iter - 1;
        OffsetNext(buffers, iter);
        var buffer := buffers[iter];
        if |buffer| > 0 {
          current := iter;
          currentBuffer := buffer;
          currentBufferPosition := |buffer| - 1;
          return;
        }
      }
      OffsetEnds(buffers, 0);
      assert false;
    }

    /** A step by any signed distance that stays in range. */
    method Advance(n: int)
      requires Valid() && 0 <= position + n <= |Flat(buffers)|
      modifies this
      ensures Valid() && position == old(position) + n
    {
      if n > 0 {
        Forward(n);
      } else if n < 0 {
        Backward(-n);
      }
    }

    method Forward(distance: nat)
      requires Valid() && distance > 0 && position + distance <= |Flat(buffers)|
      modifies this
      ensures Valid() && position == old(position) + distance
    {
      InsideWhenBefore();
      var n: nat := distance;
      while true
        invariant current < |buffers| && currentBuffer == buffers[current]
        invariant currentBufferPosition <= |currentBuffer|
        invariant position == Offset(buffers, current) + currentBufferPosition
        invariant position + n == old(position) + distance
        decreases |buffers| - current
      {
        var balance := |currentBuffer| - currentBufferPosition;
        if balance > n {
          position := position + n;
          currentBufferPosition := currentBufferPosition + n;
          return;
        }
        n := n - balance;
        position := position + balance;
        OffsetNext(buffers, current);
        current := current + 1;
        if current == |buffers| {
          OffsetEnds(buffers, current);
          assert n == 0;
          currentBuffer := [];
          currentBufferPosition := 0;
          return;
        }
        currentBuffer := buffers[current];
        currentBufferPosition := 0;
      }
    }

    method Backward(distance: nat)
      requires Valid() && 0 < distance <= position
      modifies this
      ensures Valid() && position == old(position) - distance
    {
      var absN: nat := distance;
      while true
        invariant current <= |buffers| && 0 < absN <= position
        invariant position == Offset(buffers, current) + currentBufferPosition
        invariant current < |buffers| ==> currentBuffer == buffers[current] && currentBufferPosition <= |currentBuffer|
        invariant current == |buffers| ==> currentBufferPosition == 0
        invariant position - absN == old(position) - distance
        decreases current
      {
        if currentBufferPosition >= absN {
          position := position - absN;
          currentBufferPosition := currentBufferPosition - absN;
          return;
        }
        absN := absN - currentBufferPosition;
        position := position - currentBufferPosition;
        OffsetEnds(buffers, current);
        if current == 0 {
          assert false;
        }
        var iter: nat := current;
        ghost var from, here := current, position;
        while iter != 0
          invariant iter <= from == current && Offset(buffers, iter) == position == here
        {
          iter := iter - 1;
          OffsetNext(buffers, iter);
          var buffer := buffers[iter];
          if |buffer| > 0 {
            current := iter;
            currentBuffer := buffer;
            currentBufferPosition := |buffer|;
            break;
          }
        }
        OffsetEnds(buffers, 0);
      }
    }

    method Equal(other: BuffersIterator) returns (same: bool)
      requires Valid() && other.Valid() && buffers == other.buffers
      ensures same <==> position == other.position
      ensures same ==> current == other.current && currentBufferPosition == other.currentBufferPosition
    {
      if position == other.position {
        PlaceIsUnique(buffers, current, currentBufferPosition, other.current, other.currentBufferPosition);
      }
      same := position == other.position;
    }

    method DistanceTo(other: BuffersIterator) returns (n: int)
      requires Valid() && other.Valid() && buffers == other.buffers
      ensures position + n == other.position && 0 <= position + n <= |Flat(buffers)|
    {
      other.InsideWhenBefore();
      n := other.position - position;
    }
  }

  /** A place the iterator can be at. */
  ghost predicate Place(buffers: seq<seq<Byte>>, k: nat, j: nat) {
    k <= |buffers| && if k < |buffers| then j < |buffers[k]| else j == 0
  }

  /** The flat index determines the place, so comparing indices compares places. */
  lemma PlaceIsUnique(buffers: seq<seq<Byte>>, k: nat, j: nat, l: nat, i: nat)
    requires Place(buffers, k, j) && Place(buffers, l, i)
    requires Offset(buffers, k) + j == Offset(buffers, l) + i
    ensures k == l && j == i
  {
    if k < l {
      OffsetNext(buffers, k);
      OffsetGrows(buffers, k + 1, l);
    } else if l < k {
      OffsetNext(buffers, l);
      OffsetGrows(buffers, l + 1, k);
    }
  }
}
