/** The growing stream buffer: a queue of readable bytes in one reallocated array. */
module StreamBuffer {
  import opened Buffers

  const BUFFER_DELTA := 128

  /** A length converted to a 32-bit `int`, which keeps its low 32 bits. */
  function AsInt(n: nat): (r: int)
    ensures r == n <==> n < 0x8000_0000
  {
    var low := n % 0x1_0000_0000;
    if low < 0x8000_0000 then low else low - 0x1_0000_0000
  }

  /** The result is the one 32-bit signed number that differs from the length by a multiple of 2^32. */
  lemma AsIntWraps(n: nat, r: int)
    ensures r == AsInt(n) <==> -0x8000_0000 <= r < 0x8000_0000 && (n - r) % 0x1_0000_0000 == 0
  {
  }

  function Max(a: int, b: int): int {
    if a < b then b else a
  }

  /** The array once the readable bytes [g, p) have been moved to its start. */
  function Shifted(b: seq<Byte>, g: nat, p: nat): seq<Byte>
    requires g <= p <= |b|
  {
    b[g..p] + b[p - g..]
  }

  /** Each readable byte that a move of [g, p) to the start overwrites repeats g places further on. */
  ghost predicate Repeats(b: seq<Byte>, g: nat, p: nat)
    requires g <= p <= |b|
  {
    forall i :: g <= i < p - g ==> b[i] == b[g + i]
  }

  lemma SliceHead(b: seq<Byte>, g: nat, p: nat)
    requires g <= p <= |b|
    ensures Shifted(b, g, p)[..p - g] == b[g..p]
    ensures g == 0 ==> Shifted(b, g, p) == b
  {
  }

  lemma SliceTail(b: seq<Byte>, g: nat, p: nat, m: nat)
    requires g + m <= p <= |b|
    ensures b[g..p][m..] == b[g + m..p]
  {
  }

  lemma RepeatsFromStart(b: seq<Byte>, p: nat)
    requires p <= |b|
    ensures Repeats(b, 0, p)
  {
  }

  datatype Read = Char(c: Byte) | Eof

  datatype Prepared = Room(area: Range) | TooLong

  class StreamBuffer {
    const maxSize: nat
    var buffer: array<Byte>
    var gnext: int  // get pointer
    var gend: int   // end of the get area, which may lag behind the put pointer
    var pnext: int  // put pointer
    var pend: int   // end of the put area

    ghost predicate Valid()
      reads this
    {
      && 0 <= gnext <= gend <= pnext <= pend <= maxSize
      && buffer.Length == if pend == 0 then 1 else pend
    }

    /** The readable bytes. */
    ghost function Contents(): seq<Byte>
      reads this, buffer
      requires Valid()
    {
      buffer[gnext..pnext]
    }

    constructor (maxSize: nat)
      ensures Valid() && this.maxSize == maxSize && Contents() == [] && fresh(buffer)
      ensures gnext == 0 && pend == Min(maxSize, BUFFER_DELTA)
    {
      this.maxSize := maxSize;
      var end := Min(maxSize, BUFFER_DELTA);
      buffer := new Byte[if end < 1 then 1 else end];
      gnext, gend, pnext, pend := 0, 0, 0, end;
    }

    method Size() returns (n: nat)
      requires Valid()
      ensures n == |Contents()| <= maxSize
    {
      n := pnext - gnext;
    }

    method Resize(size: nat)
      requires size >= buffer.Length
      modifies this`buffer
      ensures fresh(buffer) && buffer.Length == size
      ensures buffer[..old(buffer.Length)] == old(buffer[..])
    {
      var larger := new Byte[size];
      forall j | 0 <= j < buffer.Length {
        larger[j] := buffer[j];
      }
      buffer := larger;
    }

    /** Room for n more bytes after the readable ones, by shifting them to the start or by growing.
        Fails exactly when that would exceed the maximum. By then bytes may have been shifted while the
        pointers stay, so the readable bytes are what they were only if they happen to repeat. */
    method Reserve(n: nat) returns (ok: bool)
      requires Valid()
      modifies this, buffer
      ensures Valid() && (buffer == old(buffer) || fresh(buffer))
      ensures ok <==> old(|Contents()|) + n <= maxSize
      ensures ok ==> n <= pend - pnext
      ensures Contents() == old(Contents()) <==> ok || Repeats(old(buffer[..]), old(gnext), old(pnext))
      ensures !ok || n <= old(pend - pnext) ==> buffer == old(buffer) && unchanged(this)
      ensures ok && n > old(pend - pnext) ==>
                gnext == 0 && gend == pnext == old(|Contents()|) && pend == Max(old(pend), pnext + n)
      ensures !ok ==> buffer[..] == Shifted(old(buffer[..]), gnext, pnext)
    {
      hide Shifted, Repeats;
      if n <= pend - pnext {
        return true;
      }
      var put := pnext;
      if gnext > 0 {
        put := put - gnext;
        Shift();
      }
      SliceHead(old(buffer[..]), gnext, pnext);
      assert buffer[..] == Shifted(old(buffer[..]), gnext, pnext);
      ghost var moved := buffer[..];
      var end := pend;
      if n > end - put {
        if n <= maxSize && put <= maxSize - n {
          end := put + n;
          Resize(if end < 1 then 1 else end);
        } else {
          FailedShiftKeeps(old(buffer[..]), gnext, pnext);
          assert Contents() == moved[gnext..pnext];
          return false;
        }
      }
      gnext, gend, pnext, pend := 0, put, put, end;
      ok := true;
      assert buffer[..|moved|] == moved;
      assert Contents() == moved[..put];
    }

    /** Moves the readable bytes to the start; the source and target ranges may overlap. */
    method Shift()
      requires Valid()
      modifies buffer
      ensures buffer[..] == Shifted(old(buffer[..]), gnext, pnext)
    {
      forall j | 0 <= j < pnext - gnext {
        buffer[j] := buffer[gnext + j];
      }
    }

    /** Succeeds exactly if size plus n stays within the maximum, and then offers the n bytes behind
        the readable ones, which are as before. */
    method Prepare(n: nat) returns (r: Prepared)
      requires Valid()
      modifies this, buffer
      ensures Valid() && (buffer == old(buffer) || fresh(buffer))
      ensures r == if old(|Contents()|) + n <= maxSize then Room(Range(pnext, n)) else TooLong
      ensures r.Room? ==> n <= pend - pnext
      ensures Contents() == old(Contents()) <==> r.Room? || Repeats(old(buffer[..]), old(gnext), old(pnext))
      ensures r.TooLong? || n <= old(pend - pnext) ==> buffer == old(buffer) && unchanged(this)
      ensures r.TooLong? ==> buffer[..] == Shifted(old(buffer[..]), gnext, pnext)
    {
      var ok := Reserve(n);
      r := if ok then Room(Range(pnext, n)) else TooLong;
    }

    /** The caller writes into the prepared area. */
    method Write(bytes: seq<Byte>)
      requires Valid() && |bytes| <= pend - pnext
      modifies buffer
      ensures Valid() && Contents() == old(Contents())
      ensures buffer[pnext..pnext + |bytes|] == bytes
      ensures forall j :: pnext + |bytes| <= j < buffer.Length ==> buffer[j] == old(buffer[j])
    {
      forall j | 0 <= j < |bytes| {
        buffer[pnext + j] := bytes[j];
      }
    }

    /** Appends the first n prepared bytes, or all of them if there are fewer, exactly if their
        number fits an `int`. */
    method Commit(n: nat)
      requires Valid()
      modifies this`pnext, this`gend
      ensures var m := Min(n, old(pend - pnext));
              && pnext == gend == old(pnext) + AsInt(m)
              && (Valid() && Contents() == old(Contents()) + old(buffer[pnext..pnext + m]) <==> m < 0x8000_0000)
    {
      var m := Min(n, pend - pnext);
      pnext := pnext + AsInt(m);
      gend := pnext;
    }

    /** Removes the first n readable bytes, or all of them if there are fewer, exactly if their
        number fits an `int`. */
    method Consume(n: nat)
      requires Valid()
      modifies this`gnext, this`gend
      ensures var m := Min(n, old(|Contents()|));
              && gnext == old(gnext) + AsInt(m) && gend == pnext
              && (Valid() && Contents() == old(Contents())[m..] <==> m < 0x8000_0000)
    {
      if gend < pnext {
        gend := pnext;
      }
      var m := n;
      if gnext + m > pnext {
        m := pnext - gnext;
      }
      assert m == Min(n, |Contents()|);
      Skip(m);
    }

    /** Moves the get pointer. */
    method Skip(m: nat)
      requires Valid() && gend == pnext && m <= |Contents()|
      modifies this`gnext
      ensures gnext == old(gnext) + AsInt(m)
      ensures Valid() && Contents() == old(Contents())[m..] <==> m < 0x8000_0000
    {
      ghost var bytes, size := buffer[..], |Contents()|;
      SliceTail(bytes, gnext, pnext, m);
      hide AsInt;
      gnext := gnext + AsInt(m);
      if m < 0x8000_0000 {
        assert Contents() == bytes[gnext..pnext];
      } else {
        assert Valid() ==> |Contents()| != size - m;
      }
    }

    /** The first readable byte, without removing it. */
    method Underflow() returns (r: Read)
      requires Valid()
      modifies this`gend
      ensures Valid() && Contents() == old(Contents())
      ensures r == if Contents() == [] then Eof else Char(Contents()[0])
    {
      if gnext < pnext {
        gend := pnext;
        r := Char(buffer[gnext]);
      } else {
        r := Eof;
      }
    }

    /** Appends one byte, growing when the put area is full. Fails exactly when the buffer holds the
        maximum, and then, unlike `Prepare`, never harms the readable bytes. Appending the
        end-of-file mark changes nothing. */
    method Overflow(r: Read) returns (ok: bool)
      requires Valid()
      modifies this, buffer
      ensures Valid() && (buffer == old(buffer) || fresh(buffer))
      ensures ok <==> r.Eof? || old(|Contents()|) < maxSize
      ensures Contents() == old(Contents()) + if ok && r.Char? then [r.c] else []
    {
      if r.Eof? {
        return true;
      }
      ok := true;
      if pnext == pend {
        ok := Extend();
      }
      if ok {
        PutByte(r.c);
      }
    }

    /** Makes room behind a full put area. A buffer this cannot extend is full from its start, where
        a failed reserve has nothing to move. */
    method Extend() returns (ok: bool)
      requires Valid() && pnext == pend
      modifies this, buffer
      ensures Valid() && (buffer == old(buffer) || fresh(buffer))
      ensures ok <==> old(|Contents()|) < maxSize
      ensures ok ==> pend - pnext >= Min(BUFFER_DELTA, maxSize - |Contents()|) > 0
      ensures Contents() == old(Contents())
    {
      hide Shifted, Repeats;
      var size := pnext - gnext;
      assert gnext == 0 ==> Repeats(buffer[..], gnext, pnext) by {
        RepeatsFromStart(buffer[..], pnext);
      }
      if size < maxSize && maxSize - size < BUFFER_DELTA {
        ok := Reserve(maxSize - size);
      } else {
        ok := Reserve(BUFFER_DELTA);
      }
    }

    /** Stores a byte at the put pointer and moves the pointer past it. */
    method PutByte(c: Byte)
      requires Valid() && pnext < pend
      modifies buffer, this`pnext
      ensures Valid() && Contents() == old(Contents()) + [c]
    {
      buffer[pnext] := c;
      pnext := pnext + 1;
      assert buffer[gnext..pnext - 1] == old(buffer[gnext..pnext]);
    }
  }

  /** Prepare, write and commit together append exactly the bytes written, if they are fewer than 2^31. */
  method Append(s: StreamBuffer, bytes: seq<Byte>) returns (ok: bool)
    requires s.Valid()
    modifies s, s.buffer
    ensures s.buffer == old(s.buffer) || fresh(s.buffer)
    ensures ok <==> old(|s.Contents()|) + |bytes| <= s.maxSize
    ensures ok ==> (s.Valid() && s.Contents() == old(s.Contents()) + bytes <==> |bytes| < 0x8000_0000)
    ensures !ok ==> s.Valid()
  {
    hide Repeats, Shifted;
    var r := s.Prepare(|bytes|);
    ok := r.Room?;
    if ok {
      s.Write(bytes);
      s.Commit(|bytes|);
    }
  }

  // ---- what a failed reserve does to the readable bytes ----

  /** The pointers still name [g, p) although the bytes have moved. */
  lemma FailedShiftKeeps(b: seq<Byte>, g: nat, p: nat)
    requires g <= p <= |b|
    ensures Shifted(b, g, p)[g..p] == b[g..p] <==> Repeats(b, g, p)
  {
    var s := Shifted(b, g, p);
    assert forall i :: g <= i < p ==> s[g..p][i - g] == s[i] && b[g..p][i - g] == b[i];
    forall i | g <= i < p
      ensures s[i] == if i < p - g then b[g + i] else b[i]
    {
      if i < p - g {
        assert s[i] == b[g..p][i];
      } else {
        assert s[i] == b[p - g..][i - (p - g)];
      }
    }
    if s[g..p] == b[g..p] {
      forall i | g <= i < p - g
        ensures b[i] == b[g + i]
      {
        assert s[g..p][i - g] == b[g..p][i - g];
      }
    }
    if Repeats(b, g, p) {
      forall k | 0 <= k < p - g
        ensures s[g..p][k] == b[g..p][k]
      {
        assert s[g..p][k] == s[g + k];
      }
    }
  }

  /** Whatever they are, the readable bytes are safe from a failed reserve exactly if nothing was
      consumed since they last started at 0, or at least as much as is left to read. */
  lemma FailedReserveSafe(n: nat, g: nat, p: nat)
    requires g <= p <= n
    ensures (forall b: seq<Byte> :: |b| == n ==> Shifted(b, g, p)[g..p] == b[g..p]) <==> g == 0 || p - g <= g
  {
    forall b: seq<Byte> | |b| == n && (g == 0 || p - g <= g)
      ensures Shifted(b, g, p)[g..p] == b[g..p]
    {
      FailedShiftKeeps(b, g, p);
    }
    var mark: seq<Byte> := seq(n, i => if i == g then 1 else 0);
    if 0 < g < p - g {
      FailedShiftKeeps(mark, g, p);
      assert mark[g] != mark[g + g];
    }
  }

  /** Readable bytes that a failed prepare loses: a buffer of at most three bytes holds 1, 2 and 3,
      one is consumed, and refusing room for two more turns the remaining [2, 3] into [3, 3]. */
  method FailedPrepareLoses() returns (s: StreamBuffer, ghost was: seq<Byte>, r: Prepared)
    ensures fresh(s) && s.Valid() && was == [2, 3] && r.TooLong? && s.Contents() == [3, 3]
  {
    s := new StreamBuffer(3);
    r := s.Prepare(3);
    s.Write([1, 2, 3]);
    s.Commit(3);
    assert s.Contents() == [1, 2, 3];
    s.Consume(1);
    was := s.Contents();
    assert was == [2, 3];
    ghost var before := s.buffer[..];
    r := s.Prepare(2);
    assert s.Contents() == Shifted(before, 1, 3)[1..3];
  }
}
