/** The pair terms of the reduced-unit engine over a configuration (one
    position per particle): minimum-image separations, the cutoff mask,
    energy, virial and force, and the per-particle and whole-box sums the
    engine's loops compute. */
module Interactions {
  import opened Geometry
  import opened Powers
  import opened PairSums
  import Reduced = ReducedForceField

  /** Minimum-image separation `r_i - r_j`, wrapped componentwise. */
  function Separation(c: seq<Vec3>, len: real, i: nat, j: nat): Vec3
    requires len > 0.0 && i < |c| && j < |c|
  {
    WrapVec(Sub(c[i], c[j]), len)
  }

  /** The separation seen from the other particle is the opposite vector,
      because the wrap is odd (round-half-to-even is). */
  lemma SeparationSwap(c: seq<Vec3>, len: real, i: nat, j: nat)
    requires len > 0.0 && i < |c| && j < |c|
    ensures Separation(c, len, j, i) == Neg(Separation(c, len, i, j))
    ensures Norm2(Separation(c, len, j, i)) == Norm2(Separation(c, len, i, j))
  {
    assert Sub(c[j], c[i]) == Neg(Sub(c[i], c[j]));
    WrapVecOdd(Sub(c[i], c[j]), len);
    Norm2Neg(Separation(c, len, i, j));
  }

  /** No two particles sit on the same minimum image (the energy of such a
      pair is infinite). */
  ghost predicate Separated(c: seq<Vec3>, len: real)
    requires len > 0.0
  {
    forall i: nat, j: nat :: i < |c| && j < |c| && i != j ==> Norm2(Separation(c, len, i, j)) > 0.0
  }

  /** The pair `(i, j)` contributes: two different particles closer than
      the cutoff (strictly). */
  predicate Interacting(ff: Reduced.LennardJones, c: seq<Vec3>, len: real, i: nat, j: nat)
    requires len > 0.0
  {
    i < |c| && j < |c| && i != j && 0.0 < Norm2(Separation(c, len, i, j)) < ff.cutoff2
  }

  function EnergyTerm(ff: Reduced.LennardJones, c: seq<Vec3>, len: real, i: nat, j: nat): real
    requires len > 0.0
  {
    if Interacting(ff, c, len, i, j) then Reduced.Evaluate(Norm2(Separation(c, len, i, j))) else 0.0
  }

  function VirialTerm(ff: Reduced.LennardJones, c: seq<Vec3>, len: real, i: nat, j: nat): real
    requires len > 0.0
  {
    if Interacting(ff, c, len, i, j) then Reduced.PairVirial(Norm2(Separation(c, len, i, j))) else 0.0
  }

  /** Force on `i` from `j`: `w_ij * r_ij / r_ij^2`. */
  function ForceTerm(ff: Reduced.LennardJones, c: seq<Vec3>, len: real, i: nat, j: nat): Vec3
    requires len > 0.0
  {
    if Interacting(ff, c, len, i, j) then
      var r := Separation(c, len, i, j);
      Scale(Reduced.PairVirial(Norm2(r)) / Norm2(r), r)
    else Zero
  }

  /** Component `k` (0, 1 or 2) of a vector. */
  function Axis(v: Vec3, k: nat): real
  {
    if k == 0 then v.x else if k == 1 then v.y else v.z
  }

  function Energy(ff: Reduced.LennardJones, c: seq<Vec3>, len: real): PairTerm
    requires len > 0.0
  {
    (i: nat, j: nat) => EnergyTerm(ff, c, len, i, j)
  }

  function Virial(ff: Reduced.LennardJones, c: seq<Vec3>, len: real): PairTerm
    requires len > 0.0
  {
    (i: nat, j: nat) => VirialTerm(ff, c, len, i, j)
  }

  function ForceAxis(ff: Reduced.LennardJones, c: seq<Vec3>, len: real, k: nat): PairTerm
    requires len > 0.0
  {
    (i: nat, j: nat) => Axis(ForceTerm(ff, c, len, i, j), k)
  }

  /** The force on particle `i` from its partners `j < n`. */
  function MolForce(ff: Reduced.LennardJones, c: seq<Vec3>, len: real, i: nat, n: nat): Vec3
    requires len > 0.0
  {
    Vec3(Row(ForceAxis(ff, c, len, 0), i, n), Row(ForceAxis(ff, c, len, 1), i, n), Row(ForceAxis(ff, c, len, 2), i, n))
  }

  /** The force on every particle of the configuration. */
  function Forces(ff: Reduced.LennardJones, c: seq<Vec3>, len: real): (fs: seq<Vec3>)
    requires len > 0.0
    ensures |fs| == |c|
  {
    seq(|c|, i requires 0 <= i < |c| => MolForce(ff, c, len, i, |c|))
  }

  /** One more partner adds its pair force (or nothing, for `j == i`). */
  lemma MolForceStep(ff: Reduced.LennardJones, c: seq<Vec3>, len: real, i: nat, j: nat)
    requires len > 0.0
    ensures MolForce(ff, c, len, i, j + 1)
            == if j == i then MolForce(ff, c, len, i, j) else Add(MolForce(ff, c, len, i, j), ForceTerm(ff, c, len, i, j))
  {
  }

  function VecSum(s: seq<Vec3>): Vec3
  {
    if |s| == 0 then Zero else Add(VecSum(s[..|s| - 1]), s[|s| - 1])
  }

  lemma EnergySymmetric(ff: Reduced.LennardJones, c: seq<Vec3>, len: real)
    requires len > 0.0
    ensures Symmetric(Energy(ff, c, len))
  {
    forall i: nat, j: nat
      ensures EnergyTerm(ff, c, len, i, j) == EnergyTerm(ff, c, len, j, i)
    {
      if i < |c| && j < |c| {
        SeparationSwap(c, len, i, j);
      }
    }
  }

  lemma VirialSymmetric(ff: Reduced.LennardJones, c: seq<Vec3>, len: real)
    requires len > 0.0
    ensures Symmetric(Virial(ff, c, len))
  {
    forall i: nat, j: nat
      ensures VirialTerm(ff, c, len, i, j) == VirialTerm(ff, c, len, j, i)
    {
      if i < |c| && j < |c| {
        SeparationSwap(c, len, i, j);
      }
    }
  }

  /** Newton's third law for one pair: the force on `j` from `i` is the
      opposite of the force on `i` from `j`. */
  lemma ForceTermSwap(ff: Reduced.LennardJones, c: seq<Vec3>, len: real, i: nat, j: nat)
    requires len > 0.0
    ensures ForceTerm(ff, c, len, j, i) == Neg(ForceTerm(ff, c, len, i, j))
  {
    if i < |c| && j < |c| {
      SeparationSwap(c, len, i, j);
      if Interacting(ff, c, len, i, j) {
        var r := Separation(c, len, i, j);
        var k := Reduced.PairVirial(Norm2(r)) / Norm2(r);
        assert ForceTerm(ff, c, len, j, i) == Scale(k, Neg(r));
        ScaleNeg(k, r);
      }
    }
  }

  lemma ScaleNeg(k: real, r: Vec3)
    ensures Scale(k, Neg(r)) == Neg(Scale(k, r))
  {
  }

  lemma ForceAntisymmetric(ff: Reduced.LennardJones, c: seq<Vec3>, len: real, k: nat)
    requires len > 0.0
    ensures Antisymmetric(ForceAxis(ff, c, len, k))
  {
    forall i: nat, j: nat
      ensures Axis(ForceTerm(ff, c, len, i, j), k) == -Axis(ForceTerm(ff, c, len, j, i), k)
    {
      ForceTermSwap(ff, c, len, i, j);
      AxisNeg(ForceTerm(ff, c, len, i, j), k);
    }
  }

  lemma AxisNeg(v: Vec3, k: nat)
    ensures Axis(Neg(v), k) == -Axis(v, k)
  {
  }

  lemma {:induction false} VecSumOfForces(ff: Reduced.LennardJones, c: seq<Vec3>, len: real, m: nat)
    requires len > 0.0 && m <= |c|
    ensures VecSum(Forces(ff, c, len)[..m])
            == Vec3(Rows(ForceAxis(ff, c, len, 0), |c|, m),
                    Rows(ForceAxis(ff, c, len, 1), |c|, m),
                    Rows(ForceAxis(ff, c, len, 2), |c|, m))
  {
    if m > 0 {
      var fs := Forces(ff, c, len);
      assert fs[..m][..m - 1] == fs[..m - 1];
      VecSumOfForces(ff, c, len, m - 1);
    }
  }

  /** The forces on all particles add up to zero (Newton's third law for
      the whole box). */
  lemma ForcesSumToZero(ff: Reduced.LennardJones, c: seq<Vec3>, len: real)
    requires len > 0.0
    ensures VecSum(Forces(ff, c, len)) == Zero
  {
    var fs := Forces(ff, c, len);
    assert fs[..|c|] == fs;
    VecSumOfForces(ff, c, len, |c|);
    ForceAntisymmetric(ff, c, len, 0);
    ForceAntisymmetric(ff, c, len, 1);
    ForceAntisymmetric(ff, c, len, 2);
    AntisymmetricTotalVanishes(ForceAxis(ff, c, len, 0), |c|);
    AntisymmetricTotalVanishes(ForceAxis(ff, c, len, 1), |c|);
    AntisymmetricTotalVanishes(ForceAxis(ff, c, len, 2), |c|);
  }

  /** Moving particle `i` to `p` leaves every pair term away from `i`
      unchanged. */
  lemma MoveAgreesAwayFrom(ff: Reduced.LennardJones, c: seq<Vec3>, len: real, i: nat, p: Vec3)
    requires len > 0.0 && i < |c|
    ensures AgreeAwayFrom(Energy(ff, c, len), Energy(ff, c[i := p], len), i)
    ensures AgreeAwayFrom(Virial(ff, c, len), Virial(ff, c[i := p], len), i)
  {
    var d := c[i := p];
    forall a: nat, b: nat | a != i && b != i
      ensures EnergyTerm(ff, c, len, a, b) == EnergyTerm(ff, d, len, a, b)
      ensures VirialTerm(ff, c, len, a, b) == VirialTerm(ff, d, len, a, b)
    {
      if a < |c| && b < |c| {
        assert Separation(c, len, a, b) == Separation(d, len, a, b);
      }
    }
  }

  /** Moving one particle changes the halved whole-box energy and virial
      by exactly the change of that particle's own sums. */
  lemma MoveOneParticle(ff: Reduced.LennardJones, c: seq<Vec3>, len: real, i: nat, p: Vec3)
    requires len > 0.0 && i < |c|
    ensures Total(Energy(ff, c[i := p], len), |c|) / 2.0
            == Total(Energy(ff, c, len), |c|) / 2.0
               + (Row(Energy(ff, c[i := p], len), i, |c|) - Row(Energy(ff, c, len), i, |c|))
    ensures Total(Virial(ff, c[i := p], len), |c|) / 2.0
            == Total(Virial(ff, c, len), |c|) / 2.0
               + (Row(Virial(ff, c[i := p], len), i, |c|) - Row(Virial(ff, c, len), i, |c|))
  {
    var d := c[i := p];
    MoveAgreesAwayFrom(ff, c, len, i, p);
    EnergySymmetric(ff, c, len);
    EnergySymmetric(ff, d, len);
    VirialSymmetric(ff, c, len);
    VirialSymmetric(ff, d, len);
    HalfTotalMoveOne(Energy(ff, c, len), Energy(ff, d, len), i, |c|);
    HalfTotalMoveOne(Virial(ff, c, len), Virial(ff, d, len), i, |c|);
  }

  /** No partner `j < n` of `i` is counted. */
  predicate Alone(ff: Reduced.LennardJones, c: seq<Vec3>, len: real, i: nat, n: nat)
    requires len > 0.0
  {
    n == 0 || (!Interacting(ff, c, len, i, n - 1) && Alone(ff, c, len, i, n - 1))
  }

  /** The force update as written: after each counted pair the running
      virial sum `wPair`, not the pair's own virial, is multiplied into
      `r_ij / r_ij^2` and added to the force on `i`. */
  function RunningTotalForce(ff: Reduced.LennardJones, c: seq<Vec3>, len: real, i: nat, n: nat): (r: Vec3)
    requires len > 0.0
    ensures Alone(ff, c, len, i, n) ==> r == Zero
  {
    if n == 0 then Zero
    else
      var j := n - 1;
      if Interacting(ff, c, len, i, j) then
        var r := Separation(c, len, i, j);
        Add(RunningTotalForce(ff, c, len, i, n - 1), Scale(Row(Virial(ff, c, len), i, n) / Norm2(r), r))
      else RunningTotalForce(ff, c, len, i, n - 1)
  }

  /** Three particles on a line, one unit apart, in a box of edge 10 with
      cutoff 3. */
  const LineOfThree: seq<Vec3> := [Vec3(0.0, 0.0, 0.0), Vec3(1.0, 0.0, 0.0), Vec3(2.0, 0.0, 0.0)]

  const CutoffThree: Reduced.LennardJones := Reduced.LennardJones(3.0, 9.0, Reduced.NoSwitch)

  /** Three particles whose first pair has virial 24 and whose second
      separation is (-2, 0, 0): the x force on particle 0 as written is off
      by `w_01 * x_02 / r_02^2 = 24 * (-2) / 4 = -12`. */
  lemma RunningTotalForceOffBy(ff: Reduced.LennardJones, c: seq<Vec3>, len: real)
    requires len > 0.0 && |c| == 3
    requires Interacting(ff, c, len, 0, 1) && Interacting(ff, c, len, 0, 2)
    requires Separation(c, len, 0, 2) == Vec3(-2.0, 0.0, 0.0) && VirialTerm(ff, c, len, 0, 1) == 24.0
    ensures RunningTotalForce(ff, c, len, 0, 3).x == MolForce(ff, c, len, 0, 3).x - 12.0
  {
    ForcesOnFirstOfThree(ff, c, len);
    var r2 := Separation(c, len, 0, 2);
    assert Norm2(r2) == 4.0;
    assert VirialTerm(ff, c, len, 0, 1) / Norm2(r2) * r2.x == -12.0;
  }

  /** `LineOfThree` is such a configuration. */
  lemma RunningTotalForceCounterexample(ff: Reduced.LennardJones, c: seq<Vec3>, len: real)
    requires ff == CutoffThree && c == LineOfThree && len == 10.0
    ensures RunningTotalForce(ff, c, len, 0, 3).x == MolForce(ff, c, len, 0, 3).x - 12.0
  {
    LineOfThreePairs(ff, c, len);
    RunningTotalForceOffBy(ff, c, len);
  }

  /** For particle 0 of three particles that both interact with it, the
      force as written adds `w_01 * r_02 / r_02^2` to the sum of the pair
      forces. */
  lemma ForcesOnFirstOfThree(ff: Reduced.LennardJones, c: seq<Vec3>, len: real)
    requires len > 0.0 && |c| == 3
    requires Interacting(ff, c, len, 0, 1) && Interacting(ff, c, len, 0, 2)
    ensures var r2 := Separation(c, len, 0, 2);
            RunningTotalForce(ff, c, len, 0, 3).x
            == MolForce(ff, c, len, 0, 3).x + VirialTerm(ff, c, len, 0, 1) / Norm2(r2) * r2.x
  {
    var r1, r2 := Separation(c, len, 0, 1), Separation(c, len, 0, 2);
    var w1, w2 := VirialTerm(ff, c, len, 0, 1), VirialTerm(ff, c, len, 0, 2);
    var s1, s2 := Scale(w1 / Norm2(r1), r1), Scale(w2 / Norm2(r2), r2);
    RowOfFirstOfThree(Virial(ff, c, len));
    RowOfFirstOfThree(ForceAxis(ff, c, len, 0));
    InteractingForce(ff, c, len, 0, 1);
    InteractingForce(ff, c, len, 0, 2);
    assert MolForce(ff, c, len, 0, 3).x == s1.x + s2.x;
    RunningTotalForceStep(ff, c, len, 0, 1);
    RunningTotalForceStep(ff, c, len, 0, 2);
    RunningTotalForceStep(ff, c, len, 0, 3);
    assert RunningTotalForce(ff, c, len, 0, 3) == Add(Add(Zero, s1), Scale((w1 + w2) / Norm2(r2), r2));
    SplitQuotient(w1, w2, Norm2(r2), r2.x);
  }

  lemma RunningTotalForceStep(ff: Reduced.LennardJones, c: seq<Vec3>, len: real, i: nat, n: nat)
    requires len > 0.0 && n > 0
    ensures RunningTotalForce(ff, c, len, i, n)
            == if Interacting(ff, c, len, i, n - 1)
               then Add(RunningTotalForce(ff, c, len, i, n - 1),
                        Scale(Row(Virial(ff, c, len), i, n) / Norm2(Separation(c, len, i, n - 1)), Separation(c, len, i, n - 1)))
               else RunningTotalForce(ff, c, len, i, n - 1)
  {
  }

  lemma SplitQuotient(w1: real, w2: real, n2: real, x: real)
    requires n2 != 0.0
    ensures (w1 + w2) / n2 * x == w2 / n2 * x + w1 / n2 * x
  {
    var a, b := w1 / n2, w2 / n2;
    assert a * n2 == w1;
    assert b * n2 == w2;
    assert (a + b) * n2 == w1 + w2;
    DivideBy(w1 + w2, n2, a + b);
    assert (a + b) * x == b * x + a * x;
  }

  lemma DivideBy(p: real, n: real, q: real)
    requires n != 0.0 && q * n == p
    ensures p / n == q
  {
  }

  lemma InteractingForce(ff: Reduced.LennardJones, c: seq<Vec3>, len: real, i: nat, j: nat)
    requires len > 0.0 && Interacting(ff, c, len, i, j)
    ensures var r := Separation(c, len, i, j);
            ForceTerm(ff, c, len, i, j) == Scale(VirialTerm(ff, c, len, i, j) / Norm2(r), r)
  {
  }

  lemma RowOfFirstOfThree(f: PairTerm)
    ensures Row(f, 0, 2) == f(0, 1)
    ensures Row(f, 0, 3) == f(0, 1) + f(0, 2)
  {
    assert Row(f, 0, 1) == 0.0;
  }

  /** The two pairs of particle 0 in `LineOfThree`: separations (-1, 0, 0)
      and (-2, 0, 0), both inside the cutoff, and `w_01 = 24`. */
  lemma LineOfThreePairs(ff: Reduced.LennardJones, c: seq<Vec3>, len: real)
    requires ff == CutoffThree && c == LineOfThree && len == 10.0
    ensures Separation(c, len, 0, 1) == Vec3(-1.0, 0.0, 0.0)
    ensures Separation(c, len, 0, 2) == Vec3(-2.0, 0.0, 0.0)
    ensures Interacting(ff, c, len, 0, 1)
    ensures Interacting(ff, c, len, 0, 2)
    ensures VirialTerm(ff, c, len, 0, 1) == 24.0
  {
    WrapInBox(-1.0, 10.0);
    WrapInBox(-2.0, 10.0);
    WrapInBox(0.0, 10.0);
    assert Norm2(Vec3(-1.0, 0.0, 0.0)) == 1.0;
    assert Norm2(Vec3(-2.0, 0.0, 0.0)) == 4.0;
    PowOne(6);
    PowOne(3);
    assert Reduced.PairVirial(1.0) == 24.0;
  }
}
