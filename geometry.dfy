/** Three-component vectors, numpy's round-half-to-even and the
    minimum-image wrap `x - L * round(x / L)` shared by every part of the model. */
module Geometry {

  /** One row of an N x 3 coordinate, velocity or force array. */
  datatype Vec3 = Vec3(x: real, y: real, z: real)

  const Zero := Vec3(0.0, 0.0, 0.0)

  function Add(a: Vec3, b: Vec3): Vec3 { Vec3(a.x + b.x, a.y + b.y, a.z + b.z) }

  function Sub(a: Vec3, b: Vec3): Vec3 { Vec3(a.x - b.x, a.y - b.y, a.z - b.z) }

  function Neg(a: Vec3): Vec3 { Vec3(-a.x, -a.y, -a.z) }

  function Scale(k: real, a: Vec3): Vec3 { Vec3(k * a.x, k * a.y, k * a.z) }

  /** Adds the same scalar to every component (numpy broadcasting `v - 0.5`). */
  function Shift(a: Vec3, k: real): Vec3 { Vec3(a.x + k, a.y + k, a.z + k) }

  function Square(r: real): real { r * r }

  /** Squared length, `np.sum(np.power(v, 2))`. */
  function Norm2(a: Vec3): real { Square(a.x) + Square(a.y) + Square(a.z) }

  lemma Norm2NonNegative(a: Vec3)
    ensures Norm2(a) >= 0.0
  {
  }

  lemma Norm2Neg(a: Vec3)
    ensures Norm2(Neg(a)) == Norm2(a)
  {
  }

  /** `n` is a correct round-half-to-even of `x`: the nearest integer, and
      the even one of the two on a tie. */
  ghost predicate IsRoundOf(x: real, n: int)
  {
    && -0.5 <= x - n as real <= 0.5
    && (x - n as real == 0.5 || x - n as real == -0.5 ==> n % 2 == 0)
  }

  /** numpy's `np.round` on one component: ties go to the even neighbour. */
  function Round(x: real): (n: int)
    ensures IsRoundOf(x, n)
  {
    var f := x.Floor;
    var d := x - f as real;
    if d < 0.5 then f
    else if d > 0.5 then f + 1
    else if f % 2 == 0 then f
    else f + 1
  }

  /** At most one integer is a round-half-to-even of `x`. */
  lemma RoundUnique(x: real, n: int, m: int)
    requires IsRoundOf(x, n) && IsRoundOf(x, m)
    ensures n == m
  {
  }

  /** Round-half-to-even is an odd function: `round(-x) == -round(x)`. */
  lemma RoundOdd(x: real)
    ensures Round(-x) == -Round(x)
  {
    var n := Round(x);
    assert IsRoundOf(-x, -n) by {
      assert (-x) - (-n) as real == -(x - n as real);
      assert (-n) % 2 == 0 <==> n % 2 == 0;
    }
    RoundUnique(-x, Round(-x), -n);
  }

  lemma MulNonNegative(a: real, b: real)
    requires a >= 0.0 && b >= 0.0
    ensures a * b >= 0.0
  {
  }

  /** If `x / L` is within one half of the integer `k`, then `x - L * k` is
      within half a box length of zero. */
  lemma WrapBounds(x: real, len: real, k: int)
    requires len > 0.0
    requires -0.5 <= x / len - k as real <= 0.5
    ensures -len / 2.0 <= x - len * k as real <= len / 2.0
  {
    var a := x / len - k as real;
    assert a * len == x - len * k as real;
    MulNonNegative(len, a + 0.5);
    MulNonNegative(len, 0.5 - a);
    assert len * (a + 0.5) == a * len + len * 0.5;
    assert len * (0.5 - a) == len * 0.5 - a * len;
  }

  /** Minimum-image wrap of one component, `x - L * round(x / L)`; the
      result differs from `x` by `Round(x / L)` whole box lengths. */
  function Wrap(x: real, len: real): (w: real)
    requires len > 0.0
    ensures -len / 2.0 <= w <= len / 2.0
  {
    var k := Round(x / len);
    WrapBounds(x, len, k);
    x - len * k as real
  }

  /** The wrap moves `x` by a whole number of box lengths: `(x - w) / L`
      is an integer. */
  lemma WrapWholeBoxes(x: real, len: real)
    requires len > 0.0
    ensures ((x - Wrap(x, len)) / len).Floor as real == (x - Wrap(x, len)) / len
  {
    var k := Round(x / len);
    var q: real := k as real;
    var d := x - Wrap(x, len);
    assert d == len * q;
    DivideOut(len, q);
    assert q.Floor == k;
  }

  lemma DivideOut(len: real, q: real)
    requires len > 0.0
    ensures (len * q) / len == q
  {
  }

  /** The wrap commutes with negation, so the separation from j to i is
      the negation of the separation from i to j. */
  lemma WrapOdd(x: real, len: real)
    requires len > 0.0
    ensures Wrap(-x, len) == -Wrap(x, len)
  {
    assert -x / len == -(x / len);
    RoundOdd(x / len);
  }

  /** A value already in the box is left alone, so wrapping twice is
      wrapping once. */
  lemma WrapInBox(x: real, len: real)
    requires len > 0.0
    requires -len / 2.0 <= x <= len / 2.0
    ensures Wrap(x, len) == x
  {
    var q := x / len;
    assert -0.5 <= q <= 0.5;
    assert IsRoundOf(q, 0);
    RoundUnique(q, Round(q), 0);
  }

  lemma WrapIdempotent(x: real, len: real)
    requires len > 0.0
    ensures Wrap(Wrap(x, len), len) == Wrap(x, len)
  {
    WrapInBox(Wrap(x, len), len);
  }

  function WrapVec(v: Vec3, len: real): (w: Vec3)
    requires len > 0.0
  {
    Vec3(Wrap(v.x, len), Wrap(v.y, len), Wrap(v.z, len))
  }

  /** Every component lies in the closed interval [-L/2, L/2]. */
  ghost predicate InBox(v: Vec3, len: real)
  {
    && -len / 2.0 <= v.x <= len / 2.0
    && -len / 2.0 <= v.y <= len / 2.0
    && -len / 2.0 <= v.z <= len / 2.0
  }

  lemma WrapVecInBox(v: Vec3, len: real)
    requires len > 0.0
    ensures InBox(WrapVec(v, len), len)
    ensures WrapVec(WrapVec(v, len), len) == WrapVec(v, len)
  {
    WrapIdempotent(v.x, len);
    WrapIdempotent(v.y, len);
    WrapIdempotent(v.z, len);
  }

  lemma WrapVecOdd(v: Vec3, len: real)
    requires len > 0.0
    ensures WrapVec(Neg(v), len) == Neg(WrapVec(v, len))
  {
    WrapOdd(v.x, len);
    WrapOdd(v.y, len);
    WrapOdd(v.z, len);
  }

  /** Two values of the box interval that differ by `m` whole box lengths
      have the same square: they are equal, or they are -L/2 and L/2. */
  lemma SquareOfImages(w: real, v: real, m: int, len: real)
    requires len > 0.0
    requires -len / 2.0 <= w <= len / 2.0 && -len / 2.0 <= v <= len / 2.0
    requires w - v == m as real * len
    ensures Square(w) == Square(v)
  {
    if m >= 2 {
      MulNonNegative(m as real - 2.0, len);
      assert (m as real - 2.0) * len == m as real * len - 2.0 * len;
    } else if m <= -2 {
      MulNonNegative(-2.0 - m as real, len);
      assert (-2.0 - m as real) * len == -2.0 * len - m as real * len;
    } else if m == 1 {
      assert w == len / 2.0 && v == -len / 2.0;
      assert w == -v;
    } else if m == -1 {
      assert v == len / 2.0 && w == -len / 2.0;
      assert w == -v;
    } else {
      assert m == 0;
      assert w == v;
    }
  }

  /** Wrapping one end of a separation does not change the squared length
      of its minimum image: `|WrapVec(WrapVec(a) - b)|^2 == |WrapVec(a - b)|^2`. */
  lemma Norm2OfWrappedEnd(a: Vec3, b: Vec3, len: real)
    requires len > 0.0
    ensures Norm2(WrapVec(Sub(WrapVec(a, len), b), len)) == Norm2(WrapVec(Sub(a, b), len))
  {
    var p := WrapVec(Sub(WrapVec(a, len), b), len);
    var q := WrapVec(Sub(a, b), len);
    SquareOfWrappedEnd(a.x, b.x, len);
    SquareOfWrappedEnd(a.y, b.y, len);
    SquareOfWrappedEnd(a.z, b.z, len);
    Norm2OfSquares(p, q);
  }

  lemma Norm2OfSquares(p: Vec3, q: Vec3)
    requires Square(p.x) == Square(q.x) && Square(p.y) == Square(q.y) && Square(p.z) == Square(q.z)
    ensures Norm2(p) == Norm2(q)
  {
  }

  lemma ImagesDiffer(w: real, v: real, wa: real, a: real, b: real, len: real, ka: int, k1: int, k2: int)
    requires wa == a - len * ka as real && w == wa - b - len * k1 as real && v == a - b - len * k2 as real
    ensures w - v == (k2 - ka - k1) as real * len
  {
    assert (k2 - ka - k1) as real * len == len * k2 as real - len * ka as real - len * k1 as real;
  }

  lemma SquareOfWrappedEnd(a: real, b: real, len: real)
    requires len > 0.0
    ensures Square(Wrap(Wrap(a, len) - b, len)) == Square(Wrap(a - b, len))
  {
    var wa := Wrap(a, len);
    var w := Wrap(wa - b, len);
    var v := Wrap(a - b, len);
    var ka := Round(a / len);
    var k1 := Round((wa - b) / len);
    var k2 := Round((a - b) / len);
    assert wa == a - len * ka as real;
    assert w == wa - b - len * k1 as real;
    assert v == a - b - len * k2 as real;
    ImagesDiffer(w, v, wa, a, b, len, ka, k1, k2);
    SquareOfImages(w, v, k2 - ka - k1, len);
  }
}
