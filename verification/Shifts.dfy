/** The byte-wise operations on words are the shifts, masks and ors of the numbers they stand for. */
module Shifts {
  import opened Buffers
  import opened Words

  // ---- products and quotients ----

  lemma Distributes(d: int, a: int, b: int)
    ensures d * (a - b) == d * a - d * b && d * (a + b) == d * a + d * b
  {
  }

  lemma Associates(a: int, b: int, c: int)
    ensures a * (b * c) == (a * b) * c
  {
  }

  lemma NotNegative(a: int, b: int)
    requires a >= 0 && b >= 0
    ensures a * b >= 0
  {
  }

  lemma AtLeast(d: int, e: int)
    requires d >= 0 && e >= 1
    ensures d * e >= d
  {
    Distributes(d, e, 1);
    NotNegative(d, e - 1);
  }

  /** A quotient and a remainder below the divisor are the ones. */
  lemma Quotient(r: int, d: int, q: int)
    requires 0 <= r < d
    ensures (r + d * q) / d == q && (r + d * q) % d == r
  {
    var v := r + d * q;
    Distributes(d, v / d, q);
    if v / d > q {
      AtLeast(d, v / d - q);
    } else if v / d < q {
      Distributes(d, q, v / d);
      AtLeast(d, q - v / d);
    }
  }

  /** What a shift by q moves beyond p * q is lost. */
  lemma ShiftedOut(l: nat, h: nat, p: nat, q: nat)
    requires l < p && q > 0
    ensures p * q > 0 && (l + p * h) * q % (p * q) == l * q
  {
    Distributes(q, p, l);
    AtLeast(q, p - l);
    NotNegative(l, q);
    Distributes(q, l, p * h);
    Associates(q, p, h);
    assert (l + p * h) * q == l * q + (p * q) * h;
    Quotient(l * q, p * q, h);
  }

  lemma DivideTwice(v: nat, b: nat)
    requires b > 0
    ensures v / 256 / b == v / (256 * b)
  {
    var u := v / 256;
    var q, r := u / b, u % b;
    Associates(256, b, q);
    assert u == b * q + r;
    Quotient(256 * r + v % 256, 256 * b, q);
  }

  // ---- words ----

  /** Digit j of a number. */
  lemma {:induction false} DigitOf(v: nat, w: nat, j: nat)
    requires j < w
    ensures ToWord(v, w)[j] == v / Power256(j) % 256
  {
    if j > 0 {
      DigitOf(v / 256, w - 1, j - 1);
      DivideTwice(v, Power256(j - 1));
    }
  }

  lemma {:induction false} PowerAdds(a: nat, b: nat)
    ensures Power256(a + b) == Power256(a) * Power256(b)
  {
    if a > 0 {
      PowerAdds(a - 1, b);
      Associates(256, Power256(a - 1), Power256(b));
    }
  }

  lemma {:induction false} FromAppended(x: Word, y: Word)
    ensures FromWord(x + y) == FromWord(x) + Power256(|x|) * FromWord(y)
  {
    if x == [] {
      assert x + y == y;
    } else {
      FromAppended(x[1..], y);
      assert (x + y)[1..] == x[1..] + y;
      var p, v, u := Power256(|x| - 1), FromWord(y), FromWord(x[1..]);
      assert FromWord(x + y) == x[0] + 256 * (u + p * v);
      assert Power256(|x|) == 256 * p && FromWord(x) == x[0] + 256 * u;
      hide Power256, FromWord;
      Distributes(256, u, p * v);
      Associates(256, p, v);
    }
  }

  lemma {:induction false} FromZero(w: nat)
    ensures FromWord(Zero(w)) == 0
  {
    if w > 0 {
      FromZero(w - 1);
      assert Zero(w)[1..] == Zero(w - 1);
    }
  }

  /** Moving bytes down divides. */
  lemma ShiftRightDivides(x: Word, k: nat)
    ensures FromWord(ShiftRight(x, k)) == FromWord(x) / Power256(k)
  {
    var w := |x|;
    if k <= w {
      var low, high := x[..k], x[k..];
      assert x == low + high && ShiftRight(x, k) == high + Zero(k);
      FromAppended(low, high);
      FromAppended(high, Zero(k));
      FromZero(k);
      FromTo(low);
      Quotient(FromWord(low), Power256(k), FromWord(high));
    } else {
      assert ShiftRight(x, k) == Zero(w);
      FromZero(w);
      FromTo(x);
      PowerAdds(w, k - w);
      AtLeast(Power256(w), Power256(k - w));
      Quotient(FromWord(x), Power256(k), 0);
    }
  }

  lemma ShiftLeftSplits(x: Word, k: nat)
    requires k <= |x|
    ensures FromWord(ShiftLeft(x, k)) == FromWord(x[..|x| - k]) * Power256(k)
    ensures FromWord(x) == FromWord(x[..|x| - k]) + Power256(|x| - k) * FromWord(x[|x| - k..])
  {
    hide FromWord, Power256;
    var low, high := x[..|x| - k], x[|x| - k..];
    assert x == low + high && ShiftLeft(x, k) == Zero(k) + low;
    FromAppended(low, high);
    FromAppended(Zero(k), low);
    FromZero(k);
  }

  /** Moving bytes up multiplies and drops what leaves the word. */
  lemma ShiftLeftMultiplies(x: Word, k: nat)
    ensures FromWord(ShiftLeft(x, k)) == FromWord(x) * Power256(k) % Power256(|x|)
  {
    hide FromWord, Power256, ToWord, ShiftLeft;
    var w := |x|;
    if k <= w {
      ShiftLeftSplits(x, k);
      var low, high := x[..w - k], x[w - k..];
      FromTo(low);
      PowerAdds(w - k, k);
      ShiftedOut(FromWord(low), FromWord(high), Power256(w - k), Power256(k));
    } else {
      ShiftedBeyond(x, k);
    }
  }

  lemma ShiftedBeyond(x: Word, k: nat)
    requires k > |x|
    ensures FromWord(ShiftLeft(x, k)) == FromWord(x) * Power256(k) % Power256(|x|)
  {
    hide FromWord, Power256;
    var w := |x|;
    assert ShiftLeft(x, k) == Zero(w);
    FromZero(w);
    PowerAdds(w, k - w);
    var v, p, q := FromWord(x), Power256(w), Power256(k - w);
    Associates(v, p, q);
    Associates(p, v, q);
    Quotient(0, p, v * q);
  }

  /** The mask takes the remainder. */
  lemma LowByteMasks(x: Word)
    ensures FromWord(LowByte(x)) == FromWord(x) % 256
  {
    if x != [] {
      assert LowByte(x)[1..] == Zero(|x| - 1);
      FromZero(|x| - 1);
    }
  }

  // ---- or ----

  lemma Halves(x: nat, p: nat, a: nat)
    ensures (x + (2 * p) * a) / 2 == x / 2 + p * a && (x + (2 * p) * a) % 2 == x % 2
  {
    Associates(2, p, a);
  }

  lemma {:induction false} OrSplits(x: nat, y: nat, j: nat, a: nat, b: nat, k: nat)
    requires x < Power2(j) && y < Power2(j)
    ensures OrBits(x + Power2(j) * a, y + Power2(j) * b, j + k) == OrBits(x, y, j) + Power2(j) * OrBits(a, b, k)
  {
    if j > 0 {
      var p := Power2(j - 1);
      OrSplits(x / 2, y / 2, j - 1, a, b, k);
      OrStep(x, y, j, a, b, k, p);
      Associates(2, p, OrBits(a, b, k));
    }
  }

  lemma OrStep(x: nat, y: nat, j: nat, a: nat, b: nat, k: nat, p: nat)
    requires j > 0
    ensures OrBits(x + (2 * p) * a, y + (2 * p) * b, j + k) ==
            (if x % 2 == 1 || y % 2 == 1 then 1 else 0) + 2 * OrBits(x / 2 + p * a, y / 2 + p * b, j - 1 + k)
  {
    hide Power2;
    Halves(x, p, a);
    Halves(y, p, b);
    assert j + k - 1 == j - 1 + k;
  }

  /** Or by bytes is or by bits. */
  lemma {:induction false} OrIsBitwise(x: Word, y: Word)
    requires |x| == |y|
    ensures FromWord(Or(x, y)) == OrBits(FromWord(x), FromWord(y), 8 * |x|)
  {
    if x != [] {
      OrIsBitwise(x[1..], y[1..]);
      assert Or(x, y)[1..] == Or(x[1..], y[1..]);
      assert Power2(8) == 256;
      OrSplits(x[0], y[0], 8, FromWord(x[1..]), FromWord(y[1..]), 8 * (|x| - 1));
    }
  }

  // ---- widening ----

  function Full(w: nat): Word {
    seq(w, _ => 255)
  }

  lemma {:induction false} FromFull(w: nat)
    ensures FromWord(Full(w)) == Power256(w) - 1
  {
    if w > 0 {
      FromFull(w - 1);
      assert Full(w)[1..] == Full(w - 1);
    }
  }

  /** A signed character of 0x80 or more stands for itself less 256, modulo the width of the word. */
  lemma WidenExtends(host: Host, c: Byte, w: nat)
    requires w > 0
    ensures FromWord(Widen(host, c, w)) == (if host.signedChar && c >= 128 then c - 256 else c) % Power256(w)
  {
    var x := Widen(host, c, w);
    assert Power256(w) == 256 * Power256(w - 1);
    if host.signedChar && c >= 128 {
      assert x[1..] == Full(w - 1);
      FromFull(w - 1);
      Quotient(c - 256 + Power256(w), Power256(w), -1);
    } else {
      assert x[1..] == Zero(w - 1);
      FromZero(w - 1);
      Quotient(c, Power256(w), 0);
    }
  }
}
