/** The simulation drivers: one Metropolis Monte Carlo step with its
    running totals and displacement control, and one Velocity-Verlet
    molecular dynamics step. Random draws, `exp` and the thermostat are
    inputs or left to the caller. */
module Simulations {
  import opened Geometry
  import opened Powers
  import opened PairSums
  import opened Interactions
  import opened Boxes
  import opened Engine
  import opened Integrators
  import opened BoxManagers
  import opened Lattice

  /** numpy's integer `np.mod(a, b)`: the remainder has the sign of the
      divisor, and a zero divisor gives 0 (with a warning, not an error). */
  function NpMod(a: int, b: int): (r: int)
    ensures b > 0 ==> 0 <= r < b
    ensures b < 0 ==> b < r <= 0
    ensures b != 0 ==> (a - r) % b == 0
    ensures r == 0 <==> b == 0 || a % b == 0
  {
    var r := if b == 0 then 0 else if b > 0 then a % b else -((-a) % (-b));
    NpModFacts(a, b, r);
    r
  }

  lemma NpModFacts(a: int, b: int, r: int)
    requires r == if b == 0 then 0 else if b > 0 then a % b else -((-a) % (-b))
    ensures b > 0 ==> 0 <= r < b
    ensures b < 0 ==> b < r <= 0
    ensures b != 0 ==> (a - r) % b == 0
    ensures r == 0 <==> b == 0 || a % b == 0
  {
    if b > 0 {
      assert a == b * (a / b) + r;
      assert a - r == b * (a / b) + 0;
      DivModUnique(a - r, b, a / b, 0);
    } else if b < 0 {
      NegatedRemainder(a, -b);
      ModOfNegatedDivisor(a, b);
      ModOfNegatedDivisor(a - r, b);
    }
  }

  /** Dafny's `%` depends only on the size of the divisor. */
  lemma ModOfNegatedDivisor(a: int, b: int)
    requires b < 0
    ensures a % b == a % (-b)
  {
    var q, r := a / (-b), a % (-b);
    assert a == (-b) * q + r && 0 <= r < -b;
    assert a == b * (-q) + r;
  }

  /** `(-a) mod m` is zero exactly when `a mod m` is, and adding it to `a`
      gives a multiple of `m`. */
  lemma NegatedRemainder(a: int, m: int)
    requires m > 0
    ensures (-a) % m == 0 <==> a % m == 0
    ensures (a + (-a) % m) % m == 0
  {
    var q, s := (-a) / m, (-a) % m;
    assert -a == m * q + s && 0 <= s < m;
    if s == 0 {
      assert a == m * (-q) + 0;
      DivModUnique(a, m, -q, 0);
    } else {
      assert a == m * (-q - 1) + (m - s);
      DivModUnique(a, m, -q - 1, m - s);
    }
    assert a + s == m * (-q) + 0;
    DivModUnique(a + s, m, -q, 0);
  }

  /** The thermostat condition as written, `np.mod(iStep + 1, scaleFreq) == 0`. */
  predicate RescaleScheduled(iStep: nat, scaleFreq: int)
  {
    NpMod(iStep + 1, scaleFreq) == 0
  }

  /** With the default `scaleFreq = 0` the condition holds at every step,
      so the velocities would be rescaled after every step. */
  lemma RescaleScheduledEveryStep(iStep: nat)
    ensures RescaleScheduled(iStep, 0)
  {
  }

  /** The thermostat condition as intended: every `scaleFreq`-th step, and
      never when `scaleFreq` is not positive (the default, meaning off). */
  predicate RescaleDue(iStep: nat, scaleFreq: int)
  {
    scaleFreq > 0 && (iStep + 1) % scaleFreq == 0
  }

  /** For a positive frequency the two conditions agree; with the default
      `scaleFreq = 0` the intended one never fires, while the written one
      always does. */
  lemma RescaleDueAgrees(iStep: nat, scaleFreq: int)
    ensures scaleFreq > 0 ==> (RescaleDue(iStep, scaleFreq) <==> RescaleScheduled(iStep, scaleFreq))
    ensures scaleFreq == 0 ==> !RescaleDue(iStep, scaleFreq) && RescaleScheduled(iStep, scaleFreq)
    ensures RescaleDue(iStep, scaleFreq) ==> RescaleScheduled(iStep, scaleFreq)
  {
  }

  /** `RescaleDue` fires exactly `count / scaleFreq` times in the first
      `count` steps. */
  function Rescales(count: nat, scaleFreq: int): nat
  {
    if count == 0 then 0 else Rescales(count - 1, scaleFreq) + (if RescaleDue(count - 1, scaleFreq) then 1 else 0)
  }

  lemma {:induction false} RescalesCount(count: nat, scaleFreq: int)
    requires scaleFreq > 0
    ensures Rescales(count, scaleFreq) == count / scaleFreq
  {
    if count > 0 {
      RescalesCount(count - 1, scaleFreq);
      DivStep(count - 1, scaleFreq);
    }
  }

  lemma DivStep(a: nat, b: int)
    requires b > 0
    ensures (a + 1) / b == a / b + (if (a + 1) % b == 0 then 1 else 0)
  {
    var q, r := a / b, a % b;
    assert a == b * q + r && 0 <= r < b;
    if r + 1 == b {
      assert a + 1 == b * (q + 1) + 0;
      DivModUnique(a + 1, b, q + 1, 0);
    } else {
      assert a + 1 == b * q + (r + 1);
      DivModUnique(a + 1, b, q, r + 1);
    }
  }

  /** `accRate`, in percent, after `iStep + 1` trials with `nAccept`
      acceptances. */
  function AcceptanceRate(nAccept: nat, iStep: nat): (rate: real)
    ensures 0.0 <= rate
    ensures rate <= 100.0 <==> nAccept <= iStep + 1
    ensures rate == 0.0 <==> nAccept == 0
  {
    var trials := iStep as real + 1.0;
    assert nAccept as real / trials * 100.0 <= 100.0 <==> nAccept as real <= trials;
    nAccept as real / trials * 100.0
  }

  /** The displacement control: shrink by 0.8 below 38%, grow by 1.2 above
      42%, keep it in between. */
  function AdaptedMaxDisp(maxDisp: real, accRate: real): (r: real)
    ensures maxDisp > 0.0 ==> r > 0.0
    ensures maxDisp > 0.0 ==> (r < maxDisp <==> accRate < 38.0)
    ensures maxDisp > 0.0 ==> (r > maxDisp <==> accRate > 42.0)
    ensures 38.0 <= accRate <= 42.0 ==> r == maxDisp
  {
    if accRate < 38.0 then maxDisp * 0.8
    else if accRate > 42.0 then maxDisp * 1.2
    else maxDisp
  }

  /** The trial position: each component moves by `(2u - 1) maxDisp` for a
      draw `u`, and the row is wrapped back into the box. */
  function TrialPosition(x: Vec3, draw: Vec3, maxDisp: real, len: real): (p: Vec3)
    requires len > 0.0
    ensures InBox(p, len)
  {
    var moved := Add(x, Scale(maxDisp, Shift(Scale(2.0, draw), -1.0)));
    WrapVecInBox(moved, len);
    WrapVec(moved, len)
  }

  /** A draw in `[0, 1)` moves each component by less than `maxDisp`
      before the wrap. */
  lemma DisplacementBounded(u: real, maxDisp: real)
    requires 0.0 <= u < 1.0 && maxDisp >= 0.0
    ensures -maxDisp <= maxDisp * (2.0 * u + -1.0) <= maxDisp
  {
    var d := 2.0 * u + -1.0;
    assert -1.0 <= d < 1.0;
    MulNonNegative(maxDisp, 1.0 - d);
    MulNonNegative(maxDisp, d + 1.0);
  }

  /** With no draw offset (every `u = 1/2`) a particle already in the box
      stays where it is. */
  lemma TrialAtCentre(x: Vec3, maxDisp: real, len: real)
    requires len > 0.0 && InBox(x, len)
    ensures TrialPosition(x, Vec3(0.5, 0.5, 0.5), maxDisp, len) == x
  {
    assert Add(x, Scale(maxDisp, Shift(Scale(2.0, Vec3(0.5, 0.5, 0.5)), -1.0))) == x;
    WrapInBox(x.x, len);
    WrapInBox(x.y, len);
    WrapInBox(x.z, len);
  }

  /** The printed pressure `(W + 3 N / beta) / (3 L^3) + correction`: the
      virial equation of state, an ideal-gas part `N kT / V` (with
      `kT = 1 / beta`) plus an interaction part `W / (3 V)`. */
  function Pressure(totalPairVirial: real, numParticles: nat, beta: real, length: real, correction: real): (p: real)
    requires beta != 0.0 && length > 0.0
    ensures Pow(length, 3) > 0.0
    ensures p == numParticles as real / (beta * Pow(length, 3)) + totalPairVirial / (3.0 * Pow(length, 3)) + correction
  {
    PowPositive(length, 3);
    (totalPairVirial + 3.0 * numParticles as real / beta) / (3.0 * Pow(length, 3)) + correction
  }

  /** Without interactions and tail correction the pressure is the ideal
      gas law `P V = N k T`, with `k T = 1 / beta`. */
  lemma IdealGas(numParticles: nat, beta: real, length: real)
    requires beta != 0.0 && length > 0.0
    ensures Pressure(0.0, numParticles, beta, length, 0.0) * Pow(length, 3) == numParticles as real / beta
  {
    var v := Pow(length, 3);
    PowPositive(length, 3);
    var n := numParticles as real / beta;
    assert (0.0 + 3.0 * numParticles as real / beta) == 3.0 * n;
    assert 3.0 * n / (3.0 * v) * v == n;
  }

  /** The energy change of moving particle `i` of `c` to `p`: the change
      of its own row. */
  function EnergyChange(ff: ForceFieldManager, c: seq<Vec3>, len: real, i: nat, p: Vec3): real
    requires len > 0.0 && i < |c|
  {
    Row(Energy(ff.forceField, c[i := p], len), i, |c|) - Row(Energy(ff.forceField, c, len), i, |c|)
  }

  function VirialChange(ff: ForceFieldManager, c: seq<Vec3>, len: real, i: nat, p: Vec3): real
    requires len > 0.0 && i < |c|
  {
    Row(Virial(ff.forceField, c[i := p], len), i, |c|) - Row(Virial(ff.forceField, c, len), i, |c|)
  }

  /** The Metropolis rule: a downhill move is always taken; an uphill one
      when the uniform draw falls below `exp(-beta dE)`. */
  predicate Metropolis(dE: real, beta: real, uniform: real, exp: real -> real): (accept: bool)
    ensures dE <= 0.0 ==> accept
    ensures !accept ==> exp(-(beta * dE)) <= uniform
  {
    dE <= 0.0 || uniform < exp(-(beta * dE))
  }

  /** With `exp` positive, a draw of zero accepts every move. */
  lemma ZeroDrawAccepts(dE: real, beta: real, exp: real -> real)
    requires forall x :: exp(x) > 0.0
    ensures Metropolis(dE, beta, 0.0, exp)
  {
    if dE > 0.0 {
      assert exp(-(beta * dE)) > 0.0;
    }
  }

  /** The running totals a Monte Carlo run keeps. */
  datatype Tally = Tally(nAccept: nat, totalPairEnergy: real, totalPairVirial: real)

  /** The totals match a from-scratch evaluation of the configuration. */
  ghost predicate Tracks(t: Tally, ff: ForceFieldManager, c: seq<Vec3>, len: real)
    requires len > 0.0
  {
    && t.totalPairEnergy == Total(Energy(ff.forceField, c, len), |c|) / 2.0
    && t.totalPairVirial == Total(Virial(ff.forceField, c, len), |c|) / 2.0
  }

  class Simulation {
    const temperature: real
    const beta: real
    const printProp: int
    const scaleFreq: int
    const ffManager: ForceFieldManager
    const boxManager: BoxManager
    const integrator: VelocityVerlet?
    var maxDisp: real

    /** `Simulation(...)`: keeps the settings and sets `beta = 1 / T`. */
    constructor(temperature: real, printProp: int, ffManager: ForceFieldManager, boxManager: BoxManager,
                maxDisp: real, integrator: VelocityVerlet?, scaleFreq: int)
      requires temperature != 0.0
      ensures beta == 1.0 / temperature && beta * temperature == 1.0
      ensures this.temperature == temperature && this.printProp == printProp && this.scaleFreq == scaleFreq
      ensures this.ffManager == ffManager && this.boxManager == boxManager && this.integrator == integrator
      ensures this.maxDisp == maxDisp
    {
      this.temperature := temperature;
      this.printProp := printProp;
      this.maxDisp := maxDisp;
      this.ffManager := ffManager;
      this.boxManager := boxManager;
      this.beta := 1.0 / temperature;
      this.integrator := integrator;
      this.scaleFreq := scaleFreq;
    }

    /** One pass of the Monte Carlo loop with trial particle `iParticle`,
        displacement draw `draw` and uniform draw `uniform`. The trial is
        kept exactly when the Metropolis rule says so; otherwise the old
        row is put back. Only that row can change. The totals move by the
        change of the particle's own energy and virial, so totals that
        matched the configuration before still match it after. Every
        `printProp` steps `maxDisp` is adapted to the acceptance rate. */
    method MonteCarloStep(iStep: nat, iParticle: nat, draw: Vec3, uniform: real, exp: real -> real, tally: Tally)
      returns (accepted: bool, next: Tally)
      requires Ready(boxManager.box) && iParticle < boxManager.box.numParticles
      requires Separated(boxManager.box.Configuration()[iParticle := TrialPosition(
                 boxManager.box.coordinates[iParticle], draw, maxDisp, boxManager.box.length)], boxManager.box.length)
      modifies this, boxManager.box.coordinates
      ensures Ready(boxManager.box)
      ensures
        var len := boxManager.box.length;
        var c := old(boxManager.box.Configuration());
        var p := TrialPosition(c[iParticle], draw, old(maxDisp), len);
        accepted <==> Metropolis(EnergyChange(ffManager, c, len, iParticle, p), beta, uniform, exp)
      ensures
        var len := boxManager.box.length;
        var c := old(boxManager.box.Configuration());
        var p := TrialPosition(c[iParticle], draw, old(maxDisp), len);
        boxManager.box.coordinates[..]
        == (if accepted then old(boxManager.box.coordinates[..])[iParticle := p] else old(boxManager.box.coordinates[..]))
      ensures
        var len := boxManager.box.length;
        var c := old(boxManager.box.Configuration());
        var p := TrialPosition(c[iParticle], draw, old(maxDisp), len);
        next == (if accepted
                 then Tally(tally.nAccept + 1, tally.totalPairEnergy + EnergyChange(ffManager, c, len, iParticle, p),
                            tally.totalPairVirial + VirialChange(ffManager, c, len, iParticle, p))
                 else tally)
      ensures
        var len := boxManager.box.length;
        Tracks(tally, ffManager, old(boxManager.box.Configuration()), len)
        ==> Tracks(next, ffManager, boxManager.box.Configuration(), len)
      ensures maxDisp == if NpMod(iStep + 1, printProp) == 0
                         then AdaptedMaxDisp(old(maxDisp), AcceptanceRate(next.nAccept, iStep))
                         else old(maxDisp)
    {
      var box := boxManager.box;
      ghost var c := box.Configuration();
      ghost var p := TrialPosition(c[iParticle], draw, maxDisp, box.length);
      var oldPosition := box.coordinates[iParticle];
      var oldEnergy, oldVirial := ffManager.GetMolPairEnergyAndVirial(iParticle, box, false);
      DisplaceParticle(iParticle, draw);
      assert box.Configuration() == c[iParticle := p];
      var newEnergy, newVirial := ffManager.GetMolPairEnergyAndVirial(iParticle, box, false);
      var dE := newEnergy - oldEnergy;
      assert dE == EnergyChange(ffManager, c, box.length, iParticle, p);
      accepted := Decide(dE, uniform, exp);
      MoveOneParticle(ffManager.forceField, c, box.length, iParticle, p);
      if accepted {
        next := Tally(tally.nAccept + 1, tally.totalPairEnergy + dE, tally.totalPairVirial + (newVirial - oldVirial));
      } else {
        box.coordinates[iParticle] := oldPosition;
        assert box.coordinates[..] == old(box.coordinates[..]);
        next := tally;
      }
      AdaptMaxDisp(iStep, next.nAccept);
    }

    /** The accept flag of the loop body: set for a downhill move, and
        for an uphill one when the draw is below `pAcc = exp(-beta dE)`. */
    method Decide(dE: real, uniform: real, exp: real -> real) returns (accept: bool)
      ensures accept == Metropolis(dE, beta, uniform, exp)
    {
      accept := false;
      if dE <= 0.0 {
        accept := true;
      } else {
        var factor := beta * dE;
        var pAcc := exp(-factor);
        if uniform < pAcc {
          accept := true;
        }
      }
    }

    /** `coordinates[iParticle] += (2 u - 1) maxDisp`, then wrapped. */
    method DisplaceParticle(iParticle: nat, draw: Vec3)
      requires boxManager.box.Valid() && iParticle < boxManager.box.coordinates.Length
      modifies boxManager.box.coordinates
      ensures boxManager.box.coordinates[..]
              == old(boxManager.box.coordinates[..])[iParticle := TrialPosition(
                   old(boxManager.box.coordinates[iParticle]), draw, maxDisp, boxManager.box.length)]
    {
      var box := boxManager.box;
      var randomDisplacement := Scale(maxDisp, Shift(Scale(2.0, draw), -1.0));
      box.coordinates[iParticle] := Add(box.coordinates[iParticle], randomDisplacement);
      box.coordinates[iParticle] := WrapVec(box.coordinates[iParticle], box.length);
    }

    /** On each `printProp` multiple, `maxDisp` follows the acceptance
        rate so far. */
    method AdaptMaxDisp(iStep: nat, nAccept: nat)
      modifies this
      ensures maxDisp == if NpMod(iStep + 1, printProp) == 0
                         then AdaptedMaxDisp(old(maxDisp), AcceptanceRate(nAccept, iStep))
                         else old(maxDisp)
    {
      if NpMod(iStep + 1, printProp) == 0 {
        var accRate := AcceptanceRate(nAccept, iStep);
        if accRate < 38.0 {
          maxDisp := maxDisp * 0.8;
        } else if accRate > 42.0 {
          maxDisp := maxDisp * 1.2;
        }
      }
    }

    /** The three arrays of the box line up with the particle count, as
        the molecular dynamics loop needs. */
    ghost predicate Integrating()
      reads this, integrator, boxManager, boxManager.box
    {
      && integrator != null && integrator.box == boxManager.box && integrator.Shaped()
      && boxManager.box.numParticles == boxManager.box.coordinates.Length
    }

    /** One pass of the molecular dynamics loop: positions, half kick,
        forces and energies of the new positions, half kick with the new
        forces. It reports the energies and whether the velocities are due
        for rescaling. */
    method MolecularDynamicsStep(iStep: nat) returns (pairEnergy: real, pairVirial: real, rescale: bool)
      requires Integrating()
      requires Separated(DriftAll(boxManager.box.coordinates[..], boxManager.box.velocities[..], boxManager.box.forces[..],
                                  integrator.timeStep, boxManager.box.length), boxManager.box.length)
      modifies boxManager.box, boxManager.box.coordinates, boxManager.box.velocities
      ensures Integrating() && Ready(boxManager.box)
      ensures boxManager.box.coordinates == old(boxManager.box.coordinates)
      ensures boxManager.box.velocities == old(boxManager.box.velocities)
      ensures
        var len := boxManager.box.length;
        var dt := integrator.timeStep;
        var c := DriftAll(old(boxManager.box.coordinates[..]), old(boxManager.box.velocities[..]),
                          old(boxManager.box.forces[..]), dt, len);
        && boxManager.box.coordinates[..] == c
        && fresh(boxManager.box.forces) && boxManager.box.forces[..] == Forces(ffManager.forceField, c, len)
        && boxManager.box.velocities[..]
           == KickAll(KickAll(old(boxManager.box.velocities[..]), old(boxManager.box.forces[..]), dt),
                      Forces(ffManager.forceField, c, len), dt)
        && pairEnergy == Pairs(Energy(ffManager.forceField, c, len), |c|)
        && pairVirial == Pairs(Virial(ffManager.forceField, c, len), |c|)
      ensures rescale == RescaleScheduled(iStep, scaleFreq)
    {
      var box := boxManager.box;
      integrator.UpdatePositions();
      ghost var c := box.coordinates[..];
      integrator.UpdateVelocities();
      ghost var halfKicked := box.velocities[..];
      assert box.Configuration() == c;
      pairEnergy, pairVirial := ffManager.GetTotalPairEnergyAndVirial(box, true);
      integrator.UpdateVelocities();
      rescale := NpMod(iStep + 1, scaleFreq) == 0;
    }
  }
}
