/** Natural powers of reals, the `np.power(x, n)` of the potentials. */
module Powers {

  function Pow(x: real, n: nat): real
  {
    if n == 0 then 1.0 else x * Pow(x, n - 1)
  }

  lemma {:induction false} PowAdd(x: real, a: nat, b: nat)
    ensures Pow(x, a + b) == Pow(x, a) * Pow(x, b)
  {
    if a > 0 {
      PowAdd(x, a - 1, b);
    }
  }

  lemma {:induction false} PowPow(x: real, a: nat, b: nat)
    ensures Pow(Pow(x, a), b) == Pow(x, a * b)
  {
    if b > 0 {
      PowPow(x, a, b - 1);
      PowAdd(x, a, a * (b - 1));
      assert a * b == a + a * (b - 1);
    }
  }

  lemma {:induction false} PowProduct(x: real, y: real, n: nat)
    ensures Pow(x * y, n) == Pow(x, n) * Pow(y, n)
  {
    if n > 0 {
      PowProduct(x, y, n - 1);
      assert x * y * (Pow(x, n - 1) * Pow(y, n - 1)) == (x * Pow(x, n - 1)) * (y * Pow(y, n - 1));
    }
  }

  lemma {:induction false} PowPositive(x: real, n: nat)
    requires x > 0.0
    ensures Pow(x, n) > 0.0
  {
    if n > 0 {
      PowPositive(x, n - 1);
    }
  }

  lemma PowInverse(x: real, n: nat)
    requires x != 0.0
    ensures Pow(x, n) != 0.0
    ensures Pow(1.0 / x, n) == 1.0 / Pow(x, n)
  {
    PowNonZero(x, n);
    var y := 1.0 / x;
    assert x * y == 1.0;
    PowProduct(x, y, n);
    PowOne(n);
    assert Pow(x * y, n) == 1.0;
    var p, q := Pow(x, n), Pow(y, n);
    assert p * q == 1.0;
    assert q == (p * q) / p;
  }

  lemma {:induction false} PowNonZero(x: real, n: nat)
    requires x != 0.0
    ensures Pow(x, n) != 0.0
  {
    if n > 0 {
      PowNonZero(x, n - 1);
    }
  }

  lemma {:induction false} PowOne(n: nat)
    ensures Pow(1.0, n) == 1.0
  {
    if n > 0 {
      PowOne(n - 1);
    }
  }

  /** The square of a non-zero real is positive. */
  lemma PowSquarePositive(x: real)
    requires x != 0.0
    ensures Pow(x, 2) > 0.0
  {
    if x > 0.0 {
      PowPositive(x, 2);
    } else {
      PowPositive(-x, 2);
      PowSquare(x);
      PowSquare(-x);
      assert (-x) * (-x) == x * x;
    }
  }

  lemma PowSquare(x: real)
    ensures Pow(x, 2) == x * x
  {
    assert Pow(x, 1) == x;
  }

  lemma PowCube(x: real)
    ensures Pow(x, 3) == x * x * x
  {
    assert Pow(x, 1) == x;
    assert Pow(x, 2) == x * x;
  }

  /** For positive reals, `x^3` is below, at or above 1 exactly as `x` is. */
  lemma CubeOrder(x: real)
    requires x > 0.0
    ensures Pow(x, 3) < 1.0 <==> x < 1.0
    ensures Pow(x, 3) == 1.0 <==> x == 1.0
  {
    PowCube(x);
    if x < 1.0 {
      assert x * x < 1.0;
      assert x * x * x < 1.0;
    } else if x > 1.0 {
      assert x * x > 1.0;
      assert x * x * x > 1.0;
    }
  }
}
