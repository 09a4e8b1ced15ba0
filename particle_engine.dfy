/** The particle-object engine: it hands the force field's parameters to
    every particle and sums the explicit-parameter Lennard-Jones energy
    over the particles of a `ParticleBox`. */
module ParticleEngine {
  import opened Outcomes
  import opened Geometry
  import opened PairSums
  import opened Interactions
  import opened Boxes
  import Param = ParamForceField
  import Reduced = ReducedForceField

  /** Energy of the pair `(i, j)` with the force field's own `(sigma,
      epsilon)`: two different particles strictly inside the cutoff. */
  predicate ParamInteracting(ff: Param.LennardJones, c: seq<Vec3>, len: real, i: nat, j: nat)
    requires len > 0.0
  {
    i < |c| && j < |c| && i != j && 0.0 < Norm2(Separation(c, len, i, j)) < ff.cutoff2
  }

  function ParamEnergyTerm(ff: Param.LennardJones, c: seq<Vec3>, len: real, i: nat, j: nat): real
    requires len > 0.0 && Param.HasLennardJonesParms(ff)
  {
    if ParamInteracting(ff, c, len, i, j) then Param.Evaluate(ff, Norm2(Separation(c, len, i, j))) else 0.0
  }

  /** Some partner of `i` is inside the cutoff, so `evaluate` is called
      for `i`. */
  ghost predicate RowInteracts(ff: Param.LennardJones, c: seq<Vec3>, len: real, i: nat)
    requires len > 0.0
  {
    exists j: nat :: ParamInteracting(ff, c, len, i, j)
  }

  /** Some pair of the configuration is inside the cutoff. */
  ghost predicate AnyInteracts(ff: Param.LennardJones, c: seq<Vec3>, len: real)
    requires len > 0.0
  {
    exists i: nat, j: nat :: ParamInteracting(ff, c, len, i, j)
  }

  function ParamEnergy(ff: Param.LennardJones, c: seq<Vec3>, len: real): PairTerm
    requires len > 0.0 && Param.HasLennardJonesParms(ff)
  {
    (i: nat, j: nat) => ParamEnergyTerm(ff, c, len, i, j)
  }

  lemma ParamEnergySymmetric(ff: Param.LennardJones, c: seq<Vec3>, len: real)
    requires len > 0.0 && Param.HasLennardJonesParms(ff)
    ensures Symmetric(ParamEnergy(ff, c, len))
  {
    forall i: nat, j: nat
      ensures ParamEnergyTerm(ff, c, len, i, j) == ParamEnergyTerm(ff, c, len, j, i)
    {
      if i < |c| && j < |c| {
        SeparationSwap(c, len, i, j);
      }
    }
  }

  /** The reduced-unit force field with the same cutoff and no switch. */
  function ReducedOf(ff: Param.LennardJones): (r: Reduced.LennardJones)
    ensures r.cutoff2 == ff.cutoff2 && r.switching.NoSwitch?
  {
    Reduced.LennardJones(ff.cutoff, ff.cutoff2, Reduced.NoSwitch)
  }

  /** With `sigma = epsilon = 1` every pair energy is the reduced-unit one. */
  lemma ParamEnergyReducedUnits(ff: Param.LennardJones, c: seq<Vec3>, len: real)
    requires len > 0.0 && |ff.parms| >= 2 && ff.parms[0] == 1.0 && ff.parms[1] == 1.0
    ensures Agree(ParamEnergy(ff, c, len), Energy(ReducedOf(ff), c, len))
  {
    forall i: nat, j: nat
      ensures ParamEnergyTerm(ff, c, len, i, j) == EnergyTerm(ReducedOf(ff), c, len, i, j)
    {
      if i < |c| && j < |c| && i != j && 0.0 < Norm2(Separation(c, len, i, j)) {
        Param.EvaluateReducedUnits(ff, Norm2(Separation(c, len, i, j)));
      }
    }
  }

  /** So the two engines agree on the energy of a particle and of the box. */
  lemma PairEnergyReducedUnits(ff: Param.LennardJones, c: seq<Vec3>, len: real, i: nat)
    requires len > 0.0 && |ff.parms| >= 2 && ff.parms[0] == 1.0 && ff.parms[1] == 1.0
    ensures Row(ParamEnergy(ff, c, len), i, |c|) == Row(Energy(ReducedOf(ff), c, len), i, |c|)
    ensures Total(ParamEnergy(ff, c, len), |c|) / 2.0 == Total(Energy(ReducedOf(ff), c, len), |c|) / 2.0
  {
    ParamEnergyReducedUnits(ff, c, len);
    RowsAgree(ParamEnergy(ff, c, len), Energy(ReducedOf(ff), c, len), i, |c|);
    TotalsAgree(ParamEnergy(ff, c, len), Energy(ReducedOf(ff), c, len), |c|, |c|);
  }

  /** The positions the engine loops reach: the first `numParticles`
      entries of the list, or the whole list when the count runs past it
      (the loops raise there), or none for a negative count. */
  ghost function Reached(box: ParticleBox): (c: seq<Vec3>)
    reads box, box.particle
    ensures |c| == if box.numParticles < 0 then 0
                   else if box.numParticles > |box.particle| then |box.particle|
                   else box.numParticles
    ensures forall k :: 0 <= k < |c| ==> c[k] == box.particle[k].position
  {
    var m := if box.numParticles < 0 then 0
             else if box.numParticles > |box.particle| then |box.particle|
             else box.numParticles;
    box.Positions()[..m]
  }

  /** The box can be evaluated: no two particles the loops reach
      coincide. */
  ghost predicate Ready(box: ParticleBox)
    reads box, box.particle
  {
    box.Valid() && Separated(Reached(box), box.length)
  }

  class ParticleForceFieldManager {
    const forceField: Param.LennardJones

    constructor(forceField: Param.LennardJones)
      ensures this.forceField == forceField
    {
      this.forceField := forceField;
    }

    /** `assignSystemForceField(box)`: the first `numParticles` particles
        get the force field's parameters; the loop stops with an index
        error at the end of the list. Positions do not change. */
    method AssignSystemForceField(box: ParticleBox) returns (ok: bool)
      requires box.Valid()
      modifies box.particle
      ensures ok <==> box.numParticles <= |box.particle|
      ensures forall k :: 0 <= k < |box.particle| ==>
                box.particle[k].parms == if k < box.numParticles then forceField.parms else old(box.particle[k].parms)
      ensures box.Positions() == old(box.Positions())
    {
      var iParticle := 0;
      while iParticle < box.numParticles
        invariant 0 <= iParticle <= |box.particle|
        invariant iParticle == 0 || iParticle <= box.numParticles
        invariant forall k :: 0 <= k < |box.particle| ==>
                    box.particle[k].parms == if k < iParticle then forceField.parms else old(box.particle[k].parms)
        invariant box.Positions() == old(box.Positions())
        decreases box.numParticles - iParticle
      {
        if iParticle == |box.particle| {
          return false;
        }
        box.particle[iParticle].parms := forceField.parms;
        iParticle := iParticle + 1;
      }
      return true;
    }

    /** `getMolEnergy(iParticle, box)`: the energy of one particle with
        its partners, skipping itself. It raises an IndexError when the
        count runs past the list, and when a partner inside the cutoff
        makes `evaluate` read a missing `parms[0]` or `parms[1]`. */
    method GetMolEnergy(iParticle: nat, box: ParticleBox) returns (r: Result<real>)
      requires Ready(box) && iParticle < box.numParticles
      ensures r.Fail? <==> box.numParticles > |box.particle|
                           || (!Param.HasLennardJonesParms(forceField)
                               && RowInteracts(forceField, Reached(box), box.length, iParticle))
      ensures r.Fail? ==> r.failure == IndexOutOfRange
      ensures r.Ok? && Param.HasLennardJonesParms(forceField) ==>
                r.value == Row(ParamEnergy(forceField, Reached(box), box.length), iParticle, box.numParticles)
      ensures r.Ok? && !Param.HasLennardJonesParms(forceField) ==> r.value == 0.0
    {
      if iParticle >= |box.particle| {
        return Fail(IndexOutOfRange);
      }
      ghost var c := Reached(box);
      var iPosition := box.particle[iParticle].position;
      var eij := 0.0;
      for jParticle := 0 to box.numParticles
        invariant jParticle <= |box.particle|
        invariant forall j: nat :: j < jParticle && !Param.HasLennardJonesParms(forceField) ==>
                    !ParamInteracting(forceField, c, box.length, iParticle, j)
        invariant Param.HasLennardJonesParms(forceField) ==>
                    eij == Row(ParamEnergy(forceField, c, box.length), iParticle, jParticle)
        invariant !Param.HasLennardJonesParms(forceField) ==> eij == 0.0
      {
        if iParticle == jParticle {
          continue;
        }
        if jParticle == |box.particle| {
          return Fail(IndexOutOfRange);
        }
        var jPosition := box.particle[jParticle].position;
        var rij := WrapVec(Sub(iPosition, jPosition), box.length);
        var rij2 := Norm2(rij);
        assert rij == Separation(c, box.length, iParticle, jParticle);
        if rij2 < forceField.cutoff2 {
          if !Param.HasLennardJonesParms(forceField) {
            assert ParamInteracting(forceField, c, box.length, iParticle, jParticle);
            return Fail(IndexOutOfRange);
          }
          eij := eij + Param.Evaluate(forceField, rij2);
        }
      }
      return Ok(eij);
    }

    /** Once every row up to `n` has been summed without an exception, no
        pair of the configuration reaches `evaluate` with short `parms`. */
    lemma NoneRaised(c: seq<Vec3>, len: real, n: nat)
      requires len > 0.0 && |c| <= n
      requires forall k: nat :: k < n && !Param.HasLennardJonesParms(forceField) ==> !RowInteracts(forceField, c, len, k)
      ensures !Param.HasLennardJonesParms(forceField) ==> !AnyInteracts(forceField, c, len)
    {
      if !Param.HasLennardJonesParms(forceField) && AnyInteracts(forceField, c, len) {
        var i: nat, j: nat :| ParamInteracting(forceField, c, len, i, j);
        assert RowInteracts(forceField, c, len, i);
      }
    }

    /** `getPairEnergy(box)`: the rows of all particles, halved, which is
        the energy summed over unordered pairs. The first row that raises
        ends the sum with its exception. */
    method GetPairEnergy(box: ParticleBox) returns (r: Result<real>)
      requires Ready(box)
      ensures r.Fail? <==> box.numParticles > |box.particle|
                           || (!Param.HasLennardJonesParms(forceField)
                               && AnyInteracts(forceField, Reached(box), box.length))
      ensures r.Fail? ==> r.failure == IndexOutOfRange
      ensures r.Ok? && Param.HasLennardJonesParms(forceField) ==>
                && r.value == Total(ParamEnergy(forceField, Reached(box), box.length), |Reached(box)|) / 2.0
                && r.value == Pairs(ParamEnergy(forceField, Reached(box), box.length), |Reached(box)|)
      ensures r.Ok? && !Param.HasLennardJonesParms(forceField) ==> r.value == 0.0
    {
      ghost var c := Reached(box);
      var ePair := 0.0;
      var iParticle := 0;
      while iParticle < box.numParticles
        invariant 0 <= iParticle
        invariant iParticle > 0 ==> iParticle <= box.numParticles <= |box.particle|
        invariant forall k: nat :: k < iParticle && !Param.HasLennardJonesParms(forceField) ==>
                    !RowInteracts(forceField, c, box.length, k)
        invariant Param.HasLennardJonesParms(forceField) ==>
                    ePair == Rows(ParamEnergy(forceField, c, box.length), |c|, iParticle)
        invariant !Param.HasLennardJonesParms(forceField) ==> ePair == 0.0
        decreases box.numParticles - iParticle
      {
        var eInter := GetMolEnergy(iParticle, box);
        if eInter.Fail? {
          if box.numParticles <= |box.particle| {
            ghost var j: nat :| ParamInteracting(forceField, c, box.length, iParticle, j);
          }
          return eInter;
        }
        if Param.HasLennardJonesParms(forceField) {
          RowsStep(ParamEnergy(forceField, c, box.length), |c|, iParticle, ePair, eInter.value);
        }
        ePair := ePair + eInter.value;
        iParticle := iParticle + 1;
      }
      NoneRaised(c, box.length, iParticle);
      ePair := ePair / 2.0;
      if Param.HasLennardJonesParms(forceField) {
        ParamEnergySymmetric(forceField, c, box.length);
        HalfTotalIsPairs(ParamEnergy(forceField, c, box.length), |c|);
      }
      return Ok(ePair);
    }
  }
}
