/** The Lennard-Jones potential with explicit parameters `(sigma, epsilon)`,
    used by the particle-object variant of the engine. */
module ParamForceField {
  import opened Outcomes
  import opened Powers
  import Reduced = ReducedForceField

  /** The `parms` argument: a tuple of reals, or anything else (a list,
      an array) that the constructor refuses. */
  datatype ParmsArg = Tuple(items: seq<real>) | NotATuple

  datatype LennardJones = LennardJones(parms: seq<real>, cutoff: real, cutoff2: real)

  /** `LennardJones(parms, cutoff)`: raises a type error when `parms` is not
      a tuple; otherwise keeps `parms` unchanged and stores `cutoff^2`. */
  function NewLennardJones(parms: ParmsArg, cutoff: real): (r: Result<LennardJones>)
    ensures r.Fail? <==> parms.NotATuple?
    ensures r.Fail? ==> r.failure == ParmsNotTuple
    ensures r.Ok? ==> r.value.parms == parms.items
                      && r.value.cutoff == cutoff
                      && r.value.cutoff2 == cutoff * cutoff
  {
    match parms
    case NotATuple => Fail(ParmsNotTuple)
    case Tuple(items) =>
      PowSquare(cutoff);
      Ok(LennardJones(items, cutoff, Pow(cutoff, 2)))
  }

  /** `(sigma, epsilon)` are the first two parameters. */
  predicate HasLennardJonesParms(ff: LennardJones)
  {
    |ff.parms| >= 2
  }

  function Sigma(ff: LennardJones): real
    requires HasLennardJonesParms(ff)
  {
    ff.parms[0]
  }

  function Epsilon(ff: LennardJones): real
    requires HasLennardJonesParms(ff)
  {
    ff.parms[1]
  }

  /** Pair energy `4 eps ((sigma^2/r2)^6 - (sigma^2/r2)^3)`. */
  function Evaluate(ff: LennardJones, rij2: real): (e: real)
    requires HasLennardJonesParms(ff) && rij2 > 0.0
    ensures e == 4.0 * Epsilon(ff) * (Pow(Pow(Sigma(ff), 2) / rij2, 6) - Pow(Pow(Sigma(ff), 2) / rij2, 3))
  {
    var sigByR2 := Pow(Sigma(ff), 2) / rij2;
    var sigByR6 := Pow(sigByR2, 3);
    var sigByR12 := Pow(sigByR6, 2);
    PowPow(sigByR2, 3, 2);
    4.0 * Epsilon(ff) * (sigByR12 - sigByR6)
  }

  /** Measured in units of sigma and epsilon the energy is the reduced
      one: `U(r2) = eps * U*(r2 / sigma^2)`. */
  lemma EvaluateScaling(ff: LennardJones, rij2: real)
    requires HasLennardJonesParms(ff) && rij2 > 0.0 && Sigma(ff) != 0.0
    ensures Pow(Sigma(ff), 2) > 0.0
    ensures Evaluate(ff, rij2) == Epsilon(ff) * Reduced.Evaluate(rij2 / Pow(Sigma(ff), 2))
  {
    var s2 := Pow(Sigma(ff), 2);
    PowSquarePositive(Sigma(ff));
    var x := rij2 / s2;
    assert x > 0.0;
    assert 1.0 / x == s2 / rij2;
  }

  /** The energy vanishes exactly at `r = sigma` (when both parameters are
      non-zero). */
  lemma EvaluateRoot(ff: LennardJones, rij2: real)
    requires HasLennardJonesParms(ff) && rij2 > 0.0 && Sigma(ff) != 0.0 && Epsilon(ff) != 0.0
    ensures Evaluate(ff, rij2) == 0.0 <==> rij2 == Pow(Sigma(ff), 2)
  {
    EvaluateScaling(ff, rij2);
    var s2 := Pow(Sigma(ff), 2);
    var x := rij2 / s2;
    assert x * s2 == rij2;
    if rij2 == s2 {
      UnitFactor(x, s2);
    }
    assert x > 0.0;
    assert Reduced.Evaluate(x) == 0.0 <==> x == 1.0;
    assert Epsilon(ff) * Reduced.Evaluate(x) == 0.0 <==> Reduced.Evaluate(x) == 0.0;
  }

  lemma UnitFactor(x: real, s: real)
    requires s != 0.0 && x * s == s
    ensures x == 1.0
  {
    assert (x - 1.0) * s == 0.0;
  }

  /** With `sigma = epsilon = 1` the energy is the reduced-unit energy. */
  lemma EvaluateReducedUnits(ff: LennardJones, rij2: real)
    requires |ff.parms| >= 2 && ff.parms[0] == 1.0 && ff.parms[1] == 1.0 && rij2 > 0.0
    ensures Evaluate(ff, rij2) == Reduced.Evaluate(rij2)
  {
    EvaluateScaling(ff, rij2);
    PowOne(2);
  }

  /** Energy tail correction
      `(8 pi / 9) (N / L^3) sigma^3 N eps ((sigma/rc)^9 - 3 (sigma/rc)^3)`. */
  function TailCorrection(ff: LennardJones, numParticles: nat, length: real, pi: real): (e: real)
    requires HasLennardJonesParms(ff) && ff.cutoff != 0.0 && length > 0.0
    ensures numParticles == 0 ==> e == 0.0
  {
    var sigByCutoff3 := Pow(Sigma(ff) / ff.cutoff, 3);
    var sigByCutoff9 := Pow(sigByCutoff3, 3);
    var eCorrection := sigByCutoff9 - 3.0 * sigByCutoff3;
    PowPositive(length, 3);
    8.0 / 9.0 * pi * numParticles as real / Pow(length, 3) * Pow(Sigma(ff), 3)
      * numParticles as real * Epsilon(ff) * eCorrection
  }

  /** The tail correction is linear in epsilon: it is epsilon times the
      correction of the same system with epsilon = 1. */
  lemma TailCorrectionLinearInEpsilon(ff: LennardJones, numParticles: nat, length: real, pi: real)
    requires HasLennardJonesParms(ff) && ff.cutoff != 0.0 && length > 0.0
    ensures TailCorrection(ff, numParticles, length, pi)
            == Epsilon(ff) * TailCorrection(ff.(parms := ff.parms[1 := 1.0]), numParticles, length, pi)
  {
    var unit := ff.(parms := ff.parms[1 := 1.0]);
    PowPositive(length, 3);
    assert Sigma(unit) == Sigma(ff) && Epsilon(unit) == 1.0;
    var a := 8.0 / 9.0 * pi * numParticles as real / Pow(length, 3) * Pow(Sigma(ff), 3) * numParticles as real;
    var c := Pow(Pow(Sigma(ff) / ff.cutoff, 3), 3) - 3.0 * Pow(Sigma(ff) / ff.cutoff, 3);
    assert TailCorrection(ff, numParticles, length, pi) == a * Epsilon(ff) * c;
    assert TailCorrection(unit, numParticles, length, pi) == a * 1.0 * c;
  }

  /** With `sigma = epsilon = 1` the tail correction is the reduced-unit one. */
  lemma TailCorrectionReducedUnits(ff: LennardJones, numParticles: nat, length: real, pi: real)
    requires |ff.parms| >= 2 && ff.parms[0] == 1.0 && ff.parms[1] == 1.0
    requires ff.cutoff != 0.0 && length > 0.0
    ensures TailCorrection(ff, numParticles, length, pi)
            == Reduced.TailCorrection(Reduced.LennardJones(ff.cutoff, ff.cutoff2, Reduced.NoSwitch), numParticles, length, pi)
  {
    PowOne(3);
  }
}
