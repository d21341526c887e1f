/** Machine words as rows of bytes, least significant first, and the byte-order code over them. */
module Words {
  import opened Buffers

  /** What the code depends on: the host's byte order and whether its `char` is signed. */
  datatype Host = Host(bigEndian: bool, signedChar: bool)

  type Word = seq<Byte>

  // ---- numbers ----

  function Power256(w: nat): (p: nat)
    ensures p > 0
  {
    if w == 0 then 1 else 256 * Power256(w - 1)
  }

  function ToWord(v: nat, w: nat): (x: Word)
    ensures |x| == w
  {
    if w == 0 then [] else [v % 256] + ToWord(v / 256, w - 1)
  }

  function FromWord(x: Word): nat {
    if x == [] then 0 else x[0] + 256 * FromWord(x[1..])
  }

  lemma {:induction false} ToFrom(v: nat, w: nat)
    requires v < Power256(w)
    ensures FromWord(ToWord(v, w)) == v
  {
    if w > 0 {
      ToFrom(v / 256, w - 1);
      assert ToWord(v, w)[1..] == ToWord(v / 256, w - 1);
    }
  }

  lemma {:induction false} FromTo(x: Word)
    ensures FromWord(x) < Power256(|x|) && ToWord(FromWord(x), |x|) == x
  {
    if x != [] {
      FromTo(x[1..]);
    }
  }

  lemma {:induction false} ToWordZero(w: nat)
    ensures forall j :: 0 <= j < w ==> ToWord(0, w)[j] == 0
  {
    if w > 0 {
      ToWordZero(w - 1);
    }
  }

  // ---- operations by whole bytes ----

  function Zero(w: nat): Word {
    seq(w, _ => 0)
  }

  function Power2(k: nat): nat {
    if k == 0 then 1 else 2 * Power2(k - 1)
  }

  /** Bitwise or of the k lowest bits. */
  function OrBits(a: nat, b: nat, k: nat): (r: nat)
    ensures r < Power2(k)
  {
    if k == 0 then 0 else (if a % 2 == 1 || b % 2 == 1 then 1 else 0) + 2 * OrBits(a / 2, b / 2, k - 1)
  }

  lemma {:induction false} OrBitsFacts(a: nat, k: nat)
    requires a < Power2(k)
    ensures OrBits(a, 0, k) == a && OrBits(0, a, k) == a
    ensures OrBits(a, Power2(k) - 1, k) == Power2(k) - 1 && OrBits(Power2(k) - 1, a, k) == Power2(k) - 1
  {
    if k > 0 {
      OrBitsFacts(a / 2, k - 1);
      var ones := Power2(k) - 1;
      assert ones % 2 == 1 && ones / 2 == Power2(k - 1) - 1;
    }
  }

  function OrByte(a: Byte, b: Byte): Byte {
    assert Power2(8) == 256;
    OrBits(a, b, 8)
  }

  lemma OrByteFacts(a: Byte)
    ensures OrByte(a, 0) == a && OrByte(0, a) == a
    ensures OrByte(a, 255) == 255 && OrByte(255, a) == 255
  {
    assert Power2(8) == 256;
    OrBitsFacts(a, 8);
  }

  function Or(x: Word, y: Word): Word
    requires |x| == |y|
  {
    seq(|x|, j requires 0 <= j < |x| => OrByte(x[j], y[j]))
  }

  function ShiftLeft(x: Word, k: nat): Word {
    seq(|x|, j requires 0 <= j < |x| => if j >= k then x[j - k] else 0)
  }

  function ShiftRight(x: Word, k: nat): Word {
    seq(|x|, j requires 0 <= j < |x| => if j + k < |x| then x[j + k] else 0)
  }

  /** The bits under the mask 0xff. */
  function LowByte(x: Word): Word {
    seq(|x|, j requires 0 <= j < |x| => if j == 0 then x[0] else 0)
  }

  /** A `char` widened to a word: a signed one drags its sign bit along. */
  function Widen(host: Host, c: Byte, w: nat): Word {
    seq(w, j => if j == 0 then c else if host.signedChar && c >= 128 then 255 else 0)
  }

  function Reverse(x: seq<Byte>): seq<Byte> {
    seq(|x|, j requires 0 <= j < |x| => x[|x| - 1 - j])
  }

  lemma ReverseTwice(x: seq<Byte>)
    ensures Reverse(Reverse(x)) == x
  {
  }

  /** What reading bytes as signed does: above any byte of 0x80 or more everything turns 0xff. */
  function Smear(host: Host, x: Word): Word {
    seq(|x|, j requires 0 <= j < |x| =>
          if host.signedChar && exists i :: 0 <= i < j && x[i] >= 128 then 255 else x[j])
  }

  /** The bytes a word goes out as. */
  function Wire(host: Host, x: Word): seq<Byte> {
    if host.bigEndian then Reverse(x) else x
  }

  /** The word a row of received bytes is read as. */
  function Unwire(host: Host, a: seq<Byte>): Word {
    if host.bigEndian then Smear(host, Reverse(a)) else Reverse(Smear(host, Reverse(a)))
  }

  /** Unsigned characters lose nothing. With signed ones a little-endian host needs 0xff below
      any byte of 0x80 or more, and a big-endian host needs it above. */
  predicate Survives(host: Host, x: Word) {
    host.signedChar ==> if host.bigEndian then FullAbove(x) else FullBelow(x)
  }

  /** Above a byte of 0x80 or more there is only 0xff. */
  predicate FullAbove(x: Word) {
    forall p, q :: 0 <= p < q < |x| ==> (x[p] >= 128 ==> x[q] == 255)
  }

  predicate FullBelow(x: Word) {
    forall p, q :: 0 <= p < q < |x| ==> (x[q] >= 128 ==> x[p] == 255)
  }

  lemma SmearKeeps(host: Host, x: Word)
    ensures Smear(host, x) == x <==> (host.signedChar ==> FullAbove(x))
  {
    if Smear(host, x) == x {
      forall p, q | 0 <= p < q < |x| && host.signedChar && x[p] >= 128
        ensures x[q] == 255
      {
        assert Smear(host, x)[q] == 255;
      }
    }
  }

  lemma Mirrored(x: Word)
    ensures FullAbove(x) ==> FullBelow(Reverse(x))
    ensures FullBelow(x) ==> FullAbove(Reverse(x))
  {
    var n, r := |x|, Reverse(x);
    assert forall p :: 0 <= p < n ==> r[p] == x[n - 1 - p];
  }

  /** A word goes out in network order, highest byte first, exactly from a big-endian host or if it is
      its own mirror image. */
  lemma NetworkOrder(host: Host, x: Word)
    ensures Wire(host, x) == Reverse(x) <==> host.bigEndian || Reverse(x) == x
  {
  }

  /** A word comes back through the wire of one host exactly if it survives there. */
  lemma WordRoundTrip(host: Host, x: Word)
    ensures Unwire(host, Wire(host, x)) == x <==> Survives(host, x)
  {
    var r := Reverse(x);
    ReverseTwice(x);
    if host.bigEndian {
      SmearKeeps(host, x);
    } else {
      SmearKeeps(host, r);
      ReverseTwice(Smear(host, r));
      Mirrored(x);
      Mirrored(r);
    }
  }

  /** Between two hosts a word survives if it does so at the receiver and, where their byte orders
      differ, reads the same backwards. */
  predicate Crosses(sender: Host, receiver: Host, x: Word) {
    Survives(receiver, x) && (sender.bigEndian == receiver.bigEndian || Reverse(x) == x)
  }

  lemma SmearMirrored(host: Host, x: Word)
    ensures Smear(host, Reverse(x)) == x <==> Reverse(x) == x && (host.signedChar ==> FullAbove(x))
  {
    SmearKeeps(host, x);
    SmearKeeps(host, Reverse(x));
  }

  /** A word arrives at another host exactly if it crosses. */
  lemma WordArrives(sender: Host, receiver: Host, x: Word)
    ensures Unwire(receiver, Wire(sender, x)) == x <==> Crosses(sender, receiver, x)
  {
    WordRoundTrip(receiver, x);
    if sender.bigEndian != receiver.bigEndian {
      var r := Reverse(x);
      ReverseTwice(x);
      if receiver.bigEndian {
        SmearMirrored(receiver, x);
      } else {
        SmearMirrored(receiver, r);
        ReverseTwice(Smear(receiver, x));
        Mirrored(x);
        Mirrored(r);
      }
    }
  }

  /** On a little-endian host every number below 2^15 survives, whatever the width and the sign. */
  lemma SmallSurvives(host: Host, v: nat, w: nat)
    requires !host.bigEndian && v < 0x8000
    ensures Survives(host, ToWord(v, w))
  {
    if w >= 2 {
      assert ToWord(v, w)[1] == (v / 256) % 256 < 128;
      assert v / 256 / 256 == 0;
      ToWordZero(w - 2);
      forall j | 2 <= j < w
        ensures ToWord(v, w)[j] == 0
      {
        assert ToWord(v, w)[j] == ToWord(v / 256, w - 1)[j - 1] == ToWord(0, w - 2)[j - 2];
      }
    }
  }

  // ---- the loops ----

  /** Host order to network order; its own inverse, so also the way back. */
  method Hton(host: Host, h: Word) returns (n: Word)
    ensures n == if host.bigEndian then h else Reverse(h)
  {
    if host.bigEndian {
      return h;
    }
    var w := |h|;
    n := Zero(w);
    for i := 0 to w
      invariant |n| == w
      invariant forall j :: 0 <= j < w ==> n[j] == if j >= w - i then h[w - 1 - j] else 0
    {
      var moved := ShiftLeft(LowByte(ShiftRight(h, i)), w - 1 - i);
      forall j | 0 <= j < w
        ensures Or(n, moved)[j] == if j >= w - i - 1 then h[w - 1 - j] else 0
      {
        OrByteFacts(n[j]);
        OrByteFacts(moved[j]);
      }
      n := Or(n, moved);
    }
  }

  /** A word to bytes, highest byte first. */
  method Ntoa(n: Word) returns (a: seq<Byte>)
    ensures a == Reverse(n)
  {
    var w := |n|;
    var bytes := new Byte[w];
    var i, shift := w - 1, 0;
    while i >= 0
      invariant -1 <= i < w && shift == w - 1 - i
      invariant forall j :: i < j < w ==> bytes[j] == n[w - 1 - j]
    {
      bytes[i] := LowByte(ShiftRight(n, shift))[0];
      shift := shift + 1;
      i := i - 1;
    }
    a := bytes[..];
  }

  /** Bytes to a word, each widened and shifted into place. */
  method Aton(host: Host, a: seq<Byte>) returns (n: Word)
    ensures n == Smear(host, Reverse(a))
  {
    var w := |a|;
    var r := Reverse(a);
    n := Zero(w);
    for i := 0 to w
      invariant |n| == w
      invariant forall j :: 0 <= j < w ==> n[j] == Smeared(host, r, w - i, j)
    {
      var moved := ShiftLeft(Widen(host, a[i], w), w - 1 - i);
      forall j | 0 <= j < w
        ensures Or(n, moved)[j] == Smeared(host, r, w - i - 1, j)
      {
        SmearedStep(host, r, w - i - 1, j, moved[j]);
      }
      n := Or(n, moved);
    }
  }

  /** Digit j once the bytes from position `from` upwards have been merged in. */
  function Smeared(host: Host, r: Word, from: nat, j: nat): Byte
    requires from <= |r| && j < |r|
  {
    if j < from then 0
    else if host.signedChar && exists i :: from <= i < j && r[i] >= 128 then 255
    else r[j]
  }

  lemma SmearedStep(host: Host, r: Word, from: nat, j: nat, moved: Byte)
    requires from < |r| && j < |r|
    requires moved == if j < from then 0 else if j == from then r[from]
                      else if host.signedChar && r[from] >= 128 then 255 else 0
    ensures OrByte(Smeared(host, r, from + 1, j), moved) == Smeared(host, r, from, j)
  {
    hide OrByte;
    OrByteFacts(Smeared(host, r, from + 1, j));
    OrByteFacts(moved);
  }

  method Htoa(host: Host, h: Word) returns (a: seq<Byte>)
    ensures a == Wire(host, h)
  {
    var n := Hton(host, h);
    a := Ntoa(n);
    ReverseTwice(h);
  }

  method Atoh(host: Host, a: seq<Byte>) returns (h: Word)
    ensures h == Unwire(host, a)
  {
    var n := Aton(host, a);
    h := Hton(host, n);
  }
}
