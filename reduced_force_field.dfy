/** The Lennard-Jones potential in reduced units (sigma = epsilon = 1):
    pair energy and virial as functions of the squared distance, the
    optional switch function and its derivative, and the long-range tail
    and pressure corrections. `pi` and the square root are parameters. */
module ReducedForceField {
  import opened Outcomes
  import opened Powers
  import Geometry

  /** No switch (only a hard cutoff), or a switch turned on at `switch`. */
  datatype SwitchSetting = NoSwitch | Switch(switch: real, switch2: real)

  datatype LennardJones = LennardJones(cutoff: real, cutoff2: real, switching: SwitchSetting)

  /** Python truthiness of the optional `switch` argument: `None` and `0`
      both mean "no switch". */
  predicate SwitchRequested(switch: Option<real>)
  {
    switch.Some? && switch.value != 0.0
  }

  /** `LennardJones(cutoff, switch)`: raises when a requested switch lies
      beyond the cutoff; otherwise stores the cutoff and the squares. */
  function NewLennardJones(cutoff: real, switch: Option<real>): (r: Result<LennardJones>)
    ensures r.Fail? <==> SwitchRequested(switch) && switch.value > cutoff
    ensures r.Fail? ==> r.failure == SwitchBeyondCutoff
    ensures r.Ok? ==> r.value.cutoff == cutoff && r.value.cutoff2 == cutoff * cutoff
    ensures r.Ok? ==> (r.value.switching.NoSwitch? <==> !SwitchRequested(switch))
    ensures r.Ok? && r.value.switching.Switch? ==>
              r.value.switching.switch == switch.value
              && r.value.switching.switch2 == switch.value * switch.value
  {
    PowSquare(cutoff);
    if SwitchRequested(switch) then
      if switch.value > cutoff then Fail(SwitchBeyondCutoff)
      else
        PowSquare(switch.value);
        Ok(LennardJones(cutoff, Pow(cutoff, 2), Switch(switch.value, Pow(switch.value, 2))))
    else
      Ok(LennardJones(cutoff, Pow(cutoff, 2), NoSwitch))
  }

  /** Pair energy `4 (r^-12 - r^-6)` at squared distance `rij2`. It is
      zero exactly at r = 1 (r = sigma) and negative exactly beyond it. */
  function Evaluate(rij2: real): (e: real)
    requires rij2 > 0.0
    ensures e == 4.0 * (Pow(1.0 / rij2, 6) - Pow(1.0 / rij2, 3))
    ensures e == 0.0 <==> rij2 == 1.0
    ensures e < 0.0 <==> rij2 > 1.0
  {
    var sigByR2 := 1.0 / rij2;
    var sigByR6 := Pow(sigByR2, 3);
    var sigByR12 := Pow(sigByR6, 2);
    EnergySign(sigByR2, sigByR6);
    PowPow(sigByR2, 3, 2);
    4.0 * (sigByR12 - sigByR6)
  }

  lemma EnergySign(s: real, t: real)
    requires s > 0.0 && t == Pow(s, 3)
    ensures 4.0 * (Pow(t, 2) - t) == 0.0 <==> 1.0 / s == 1.0
    ensures 4.0 * (Pow(t, 2) - t) < 0.0 <==> 1.0 / s > 1.0
  {
    PowPositive(s, 3);
    CubeOrder(s);
    PowSquare(t);
    assert Pow(t, 2) - t == t * (t - 1.0);
    ProductSign(t, t - 1.0);
    InverseOrder(s);
  }

  lemma ProductSign(t: real, a: real)
    requires t > 0.0
    ensures t * a == 0.0 <==> a == 0.0
    ensures t * a < 0.0 <==> a < 0.0
    ensures t * a > 0.0 <==> a > 0.0
  {
  }

  lemma InverseOrder(s: real)
    requires s > 0.0
    ensures 1.0 / s > 1.0 <==> s < 1.0
    ensures 1.0 / s == 1.0 <==> s == 1.0
  {
    assert 1.0 / s * s == 1.0;
  }

  /** Pair virial `24 (2 r^-12 - r^-6)`, that is `-r dU/dr`. It vanishes
      exactly at the minimum of the potential (r^6 = 2) and is positive
      (repulsive) exactly inside it. */
  function PairVirial(rij2: real): (w: real)
    requires rij2 > 0.0
    ensures w == 24.0 * (2.0 * Pow(1.0 / rij2, 6) - Pow(1.0 / rij2, 3))
    ensures w == 0.0 <==> Pow(rij2, 3) == 2.0
    ensures w > 0.0 <==> Pow(rij2, 3) < 2.0
  {
    var sigByR2 := 1.0 / rij2;
    var sigByR6 := Pow(sigByR2, 3);
    var sigByR12 := Pow(sigByR6, 2);
    PowPow(sigByR2, 3, 2);
    VirialSign(rij2, sigByR6);
    24.0 * (2.0 * sigByR12 - sigByR6)
  }

  lemma VirialSign(rij2: real, t: real)
    requires rij2 > 0.0 && t == Pow(1.0 / rij2, 3)
    ensures 24.0 * (2.0 * Pow(t, 2) - t) == 0.0 <==> Pow(rij2, 3) == 2.0
    ensures 24.0 * (2.0 * Pow(t, 2) - t) > 0.0 <==> Pow(rij2, 3) < 2.0
  {
    PowInverse(rij2, 3);
    PowPositive(rij2, 3);
    var p := Pow(rij2, 3);
    assert t == 1.0 / p;
    PowSquare(t);
    assert 2.0 * Pow(t, 2) - t == t * (2.0 * t - 1.0);
    assert 2.0 * t - 1.0 == (2.0 - p) / p;
  }

  /** The force magnitude `virial / r` is `24/r (2 r^-12 - r^-6)`. */
  lemma VirialOverDistance(r: real)
    requires r > 0.0
    ensures PairVirial(r * r) / r == 24.0 / r * (2.0 * Pow(1.0 / r, 12) - Pow(1.0 / r, 6))
  {
    var s := 1.0 / r;
    assert 1.0 / (r * r) == s * s;
    PowProduct(s, s, 6);
    PowProduct(s, s, 3);
    PowAdd(s, 6, 6);
    PowAdd(s, 3, 3);
  }

  /** `(c2 - x)/(c2 - s2)`: 1 at the switch distance, 0 at the cutoff. */
  function SwitchFraction(cutoff2: real, switch2: real, rij2: real): real
    requires cutoff2 != switch2
  {
    (cutoff2 - rij2) / (cutoff2 - switch2)
  }

  /** The middle piece of the switch function. */
  function SwitchPolynomial(cutoff2: real, switch2: real, rij2: real): real
    requires cutoff2 != switch2
  {
    PowNonZero(cutoff2 - switch2, 3);
    Pow(cutoff2 - rij2, 2) * (cutoff2 + 2.0 * rij2 - 3.0 * switch2) / Pow(cutoff2 - switch2, 3)
  }

  /** `3u^2 - 2u^3`. */
  function Smoothstep(u: real): real
  {
    3.0 * u * u - 2.0 * u * u * u
  }

  /** The middle piece is the smoothstep of the fraction. */
  lemma SwitchIsSmoothstep(cutoff2: real, switch2: real, rij2: real)
    requires cutoff2 != switch2
    ensures SwitchPolynomial(cutoff2, switch2, rij2) == Smoothstep(SwitchFraction(cutoff2, switch2, rij2))
  {
    var d := cutoff2 - switch2;
    var u := SwitchFraction(cutoff2, switch2, rij2);
    assert cutoff2 - rij2 == u * d;
    PowSquare(cutoff2 - rij2);
    PowCube(d);
    assert cutoff2 + 2.0 * rij2 - 3.0 * switch2 == d * (3.0 - 2.0 * u);
    assert u * d * (u * d) * (d * (3.0 - 2.0 * u)) == (u * u * (3.0 - 2.0 * u)) * (d * d * d);
  }

  /** The middle piece equals 1 at the switch distance and 0 at the cutoff,
      so the switch function is continuous at both ends. */
  lemma SwitchPolynomialEnds(cutoff2: real, switch2: real)
    requires cutoff2 != switch2
    ensures SwitchPolynomial(cutoff2, switch2, switch2) == 1.0
    ensures SwitchPolynomial(cutoff2, switch2, cutoff2) == 0.0
  {
    SwitchIsSmoothstep(cutoff2, switch2, switch2);
    SwitchIsSmoothstep(cutoff2, switch2, cutoff2);
    var d := cutoff2 - switch2;
    assert d / d == 1.0;
    assert SwitchFraction(cutoff2, switch2, switch2) == 1.0;
    assert SwitchFraction(cutoff2, switch2, cutoff2) == 0.0;
  }

  lemma SmoothstepBounds(u: real)
    requires 0.0 <= u <= 1.0
    ensures 0.0 <= Smoothstep(u) <= 1.0
  {
    assert Smoothstep(u) == u * u * (3.0 - 2.0 * u);
    assert 1.0 - Smoothstep(u) == (1.0 - u) * (1.0 - u) * (1.0 + 2.0 * u);
    Geometry.MulNonNegative(u * u, 3.0 - 2.0 * u);
    Geometry.MulNonNegative((1.0 - u) * (1.0 - u), 1.0 + 2.0 * u);
  }

  /** `S(r)`: a hard step at the cutoff without a switch; with one, 1 up to
      the switch distance, 0 from the cutoff on and the smooth polynomial
      between, which is the smoothstep of how far `r^2` still is from the
      cutoff. It always lies in [0, 1]. */
  function ComputeSwitch(ff: LennardJones, rij2: real): (s: real)
    ensures ff.switching.NoSwitch? ==> s == (if rij2 < ff.cutoff2 then 1.0 else 0.0)
    ensures ff.switching.Switch? && rij2 <= ff.switching.switch2 ==> s == 1.0
    ensures ff.switching.Switch? && ff.switching.switch2 < rij2 && ff.cutoff2 <= rij2 ==> s == 0.0
    ensures ff.switching.Switch? && ff.switching.switch2 < rij2 < ff.cutoff2 ==>
              s == SwitchPolynomial(ff.cutoff2, ff.switching.switch2, rij2)
              && s == Smoothstep(SwitchFraction(ff.cutoff2, ff.switching.switch2, rij2))
    ensures 0.0 <= s <= 1.0
  {
    match ff.switching
    case NoSwitch =>
      if rij2 < ff.cutoff2 then 1.0 else 0.0
    case Switch(_, switch2) =>
      if rij2 <= switch2 then 1.0
      else if rij2 >= ff.cutoff2 then 0.0
      else
        SwitchIsSmoothstep(ff.cutoff2, switch2, rij2);
        SmoothstepBounds(SwitchFraction(ff.cutoff2, switch2, rij2));
        SwitchPolynomial(ff.cutoff2, switch2, rij2)
  }

  /** The middle piece of `dS/dr`, `12 r (x - c2)(x - s2)/(c2 - s2)^3`. */
  function SwitchDerivativePolynomial(cutoff2: real, switch2: real, rij2: real, r: real): real
    requires cutoff2 != switch2
  {
    PowNonZero(cutoff2 - switch2, 3);
    12.0 * r * (rij2 - cutoff2) * (rij2 - switch2) / Pow(cutoff2 - switch2, 3)
  }

  /** `(S(u) - S(v)) / (u - v)` for the smoothstep `S`, without the division. */
  function SmoothstepSlope(u: real, v: real): real
  {
    3.0 * (u + v) - 2.0 * (u * u + u * v + v * v)
  }

  lemma SmoothstepDifference(u: real, v: real)
    ensures Smoothstep(u) - Smoothstep(v) == (u - v) * SmoothstepSlope(u, v)
  {
  }

  /** On [0, 1] the smoothstep never decreases. */
  lemma SmoothstepSlopeNonNegative(u: real, v: real)
    requires 0.0 <= u <= 1.0 && 0.0 <= v <= 1.0
    ensures SmoothstepSlope(u, v) >= 0.0
  {
    Geometry.MulNonNegative(u, 1.0 - u);
    Geometry.MulNonNegative(v, 1.0 - v);
    Geometry.MulNonNegative(u, 1.0 - v);
    Geometry.MulNonNegative(v, 1.0 - u);
    assert SmoothstepSlope(u, v)
        == 2.0 * (u * (1.0 - u)) + 2.0 * (v * (1.0 - v)) + u * (1.0 - v) + v * (1.0 - u);
  }

  /** Divided difference of the switch polynomial in `rij2`:
      `(P(x) - P(y)) / (x - y)`, written without the division. */
  function SwitchSlope(cutoff2: real, switch2: real, x: real, y: real): real
    requires cutoff2 != switch2
  {
    var u := SwitchFraction(cutoff2, switch2, x);
    var v := SwitchFraction(cutoff2, switch2, y);
    -(SmoothstepSlope(u, v) / (cutoff2 - switch2))
  }

  lemma FractionDifference(cutoff2: real, switch2: real, x: real, y: real)
    requires cutoff2 != switch2
    ensures SwitchFraction(cutoff2, switch2, x) - SwitchFraction(cutoff2, switch2, y)
            == (y - x) / (cutoff2 - switch2)
  {
  }

  lemma DivideAcross(a: real, g: real, d: real)
    requires d != 0.0
    ensures a / d * g == -a * -(g / d)
  {
    assert a / d * g == a * g / d;
    assert -a * -(g / d) == a * (g / d);
  }

  /** The polynomial changes by `(x - y) * SwitchSlope(x, y)` between two
      squared distances. */
  lemma SwitchDifference(cutoff2: real, switch2: real, x: real, y: real)
    requires cutoff2 != switch2
    ensures SwitchPolynomial(cutoff2, switch2, x) - SwitchPolynomial(cutoff2, switch2, y)
            == (x - y) * SwitchSlope(cutoff2, switch2, x, y)
  {
    var d := cutoff2 - switch2;
    var u := SwitchFraction(cutoff2, switch2, x);
    var v := SwitchFraction(cutoff2, switch2, y);
    var g := SmoothstepSlope(u, v);
    SwitchIsSmoothstep(cutoff2, switch2, x);
    SwitchIsSmoothstep(cutoff2, switch2, y);
    SmoothstepDifference(u, v);
    FractionDifference(cutoff2, switch2, x, y);
    DivideAcross(y - x, g, d);
  }

  lemma DerivativeFactors(r: real, u: real, d: real, a: real, b: real)
    requires a == -(u * d) && b == (1.0 - u) * d
    ensures 12.0 * r * a * b == (-12.0 * r * u * (1.0 - u)) * (d * d)
  {
  }

  /** `2 r * SwitchSlope(r^2, r^2)` is the derivative formula: the
      derivative formula is `dS/dr` of the polynomial. */
  lemma SwitchDerivativeIsSlope(cutoff2: real, switch2: real, x: real, r: real)
    requires cutoff2 != switch2
    ensures 2.0 * r * SwitchSlope(cutoff2, switch2, x, x) == SwitchDerivativePolynomial(cutoff2, switch2, x, r)
  {
    var d := cutoff2 - switch2;
    var u := SwitchFraction(cutoff2, switch2, x);
    var q := SmoothstepSlope(u, u);
    assert 2.0 * r * SwitchSlope(cutoff2, switch2, x, x) == -(2.0 * r * q) / d;
    assert 2.0 * r * q == 12.0 * r * u * (1.0 - u);
    assert x - cutoff2 == -(u * d);
    assert x - switch2 == (1.0 - u) * d;
    DerivativeFactors(r, u, d, x - cutoff2, x - switch2);
    PowCube(d);
    CancelSquare(-12.0 * r * u * (1.0 - u), d);
  }

  lemma CancelSquare(a: real, d: real)
    requires d != 0.0
    ensures a * (d * d) / (d * d * d) == a / d
  {
    assert d * d * d == (d * d) * d;
    assert d * d != 0.0;
  }

  /** `a / d` lies in [0, 1] when `0 <= a <= d`. */
  lemma FractionBounds(a: real, d: real)
    requires d > 0.0 && 0.0 <= a <= d
    ensures 0.0 <= a / d <= 1.0
  {
    assert a / d * d == a;
  }

  /** Between the switch distance and the cutoff the polynomial never
      increases with distance. */
  lemma SwitchPolynomialNonIncreasing(cutoff2: real, switch2: real, x: real, y: real)
    requires switch2 < cutoff2
    requires switch2 <= x <= y <= cutoff2
    ensures SwitchPolynomial(cutoff2, switch2, x) >= SwitchPolynomial(cutoff2, switch2, y)
  {
    var d := cutoff2 - switch2;
    var u := SwitchFraction(cutoff2, switch2, x);
    var v := SwitchFraction(cutoff2, switch2, y);
    SwitchDifference(cutoff2, switch2, x, y);
    FractionBounds(cutoff2 - x, d);
    FractionBounds(cutoff2 - y, d);
    SmoothstepSlopeNonNegative(u, v);
    var g := SmoothstepSlope(u, v);
    assert g / d >= 0.0;
    Geometry.MulNonNegative(y - x, g / d);
    assert (x - y) * -(g / d) == (y - x) * (g / d);
  }

  /** `dS/dr`. Only the switching branch takes the square root, so only
      there must `r` be it (the square root is a parameter). It is never
      positive, and it is strictly negative exactly in the open switching
      interval: zero at both of its ends. */
  function ComputeSwitchDerivative(ff: LennardJones, rij2: real, r: real): (ds: real)
    requires ff.switching.Switch? && ff.switching.switch2 < rij2 < ff.cutoff2 ==> r >= 0.0 && r * r == rij2
    ensures ds <= 0.0
    ensures ds < 0.0 <==>
              ff.switching.Switch? && ff.switching.switch2 < rij2 < ff.cutoff2 && r > 0.0
  {
    match ff.switching
    case NoSwitch => 0.0
    case Switch(_, switch2) =>
      if rij2 <= switch2 || rij2 >= ff.cutoff2 then 0.0
      else
        DerivativeSign(ff.cutoff2, switch2, rij2, r);
        SwitchDerivativePolynomial(ff.cutoff2, switch2, rij2, r)
  }

  lemma DerivativeSign(cutoff2: real, switch2: real, rij2: real, r: real)
    requires switch2 < rij2 < cutoff2 && r >= 0.0
    ensures SwitchDerivativePolynomial(cutoff2, switch2, rij2, r) <= 0.0
    ensures SwitchDerivativePolynomial(cutoff2, switch2, rij2, r) < 0.0 <==> r > 0.0
  {
    var d := cutoff2 - switch2;
    PowPositive(d, 3);
    var a := (cutoff2 - rij2) * (rij2 - switch2);
    assert a > 0.0;
    assert SwitchDerivativePolynomial(cutoff2, switch2, rij2, r) == -12.0 * r * (a / Pow(d, 3));
    assert a / Pow(d, 3) > 0.0;
  }

  /** Energy tail correction `(8 pi / 9) (N / L^3) N (rc^-9 - 3 rc^-3)`. */
  function TailCorrection(ff: LennardJones, numParticles: nat, length: real, pi: real): (e: real)
    requires ff.cutoff != 0.0 && length > 0.0
    ensures numParticles == 0 ==> e == 0.0
  {
    var sigByCutoff3 := Pow(1.0 / ff.cutoff, 3);
    var sigByCutoff9 := Pow(sigByCutoff3, 3);
    var eCorrection := sigByCutoff9 - 3.0 * sigByCutoff3;
    PowPositive(length, 3);
    8.0 / 9.0 * pi * numParticles as real / Pow(length, 3) * numParticles as real * eCorrection
  }

  /** The tail correction of N particles in a box of edge L is `N * rho`
      times that of one particle in a unit box (rho = N / L^3). */
  lemma TailCorrectionScaling(ff: LennardJones, numParticles: nat, length: real, pi: real)
    requires ff.cutoff != 0.0 && length > 0.0
    ensures Pow(length, 3) > 0.0
    ensures TailCorrection(ff, numParticles, length, pi)
            == numParticles as real * (numParticles as real / Pow(length, 3)) * TailCorrection(ff, 1, 1.0, pi)
  {
    PowOne(3);
    PowPositive(length, 3);
    var n := numParticles as real;
    var v := Pow(length, 3);
    var a := 8.0 / 9.0 * pi;
    var c := Pow(Pow(1.0 / ff.cutoff, 3), 3) - 3.0 * Pow(1.0 / ff.cutoff, 3);
    assert TailCorrection(ff, 1, 1.0, pi) == a * c;
    assert a * n / v * n * c == n * (n / v) * (a * c);
  }

  /** Pressure tail correction `(16 pi / 3) (N / L^3)^2 ((2/3) rc^-9 - rc^-3)`. */
  function PressureCorrection(ff: LennardJones, numParticles: nat, length: real, pi: real): (p: real)
    requires ff.cutoff != 0.0 && length > 0.0
    ensures numParticles == 0 ==> p == 0.0
  {
    var sigByCutoff3 := Pow(1.0 / ff.cutoff, 3);
    var sigByCutoff9 := Pow(sigByCutoff3, 3);
    var pCorrection := 2.0 / 3.0 * sigByCutoff9 - sigByCutoff3;
    PowPositive(length, 3);
    16.0 / 3.0 * pi * Pow(numParticles as real / Pow(length, 3), 2) * pCorrection
  }

  /** The pressure correction grows with the square of the density. */
  lemma PressureCorrectionScaling(ff: LennardJones, numParticles: nat, length: real, pi: real)
    requires ff.cutoff != 0.0 && length > 0.0
    ensures Pow(length, 3) > 0.0
    ensures PressureCorrection(ff, numParticles, length, pi)
            == Pow(numParticles as real / Pow(length, 3), 2) * PressureCorrection(ff, 1, 1.0, pi)
  {
    PowOne(3);
    PowOne(2);
    PowPositive(length, 3);
    assert 1.0 / Pow(1.0, 3) == 1.0;
  }
}
