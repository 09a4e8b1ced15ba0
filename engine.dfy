/** The reduced-unit interaction engine over an array-layout box: loops
    over the partners `j != i` of a particle, the minimum-image wrap of each
    separation, the strict cutoff mask, the sums of energy and virial, and
    the forces written into `box.forces`. */
module Engine {
  import opened Geometry
  import opened PairSums
  import opened Interactions
  import opened Boxes
  import Reduced = ReducedForceField

  /** What the engine needs of a box: three separate arrays, a particle
      count within the coordinate rows, and no two particles on the same
      minimum image. */
  ghost predicate Ready(box: Box)
    reads box, box.coordinates
  {
    box.Valid() && box.Populated() && Separated(box.Configuration(), box.length)
  }

  /** The squared minimum-image distance of two distinct particles of a
      ready box is positive. */
  lemma ReadySeparation(box: Box, i: nat, j: nat)
    requires Ready(box) && i < box.numParticles && j < box.numParticles && i != j
    ensures Norm2(WrapVec(Sub(box.coordinates[i], box.coordinates[j]), box.length)) > 0.0
  {
    var c := box.Configuration();
    assert c[i] == box.coordinates[i] && c[j] == box.coordinates[j];
    assert Separation(c, box.length, i, j) == WrapVec(Sub(box.coordinates[i], box.coordinates[j]), box.length);
  }

  lemma AddZero(v: Vec3)
    ensures Add(Zero, v) == v
  {
  }

  class ForceFieldManager {
    const forceField: Reduced.LennardJones

    constructor(forceField: Reduced.LennardJones)
      ensures this.forceField == forceField
    {
      this.forceField := forceField;
    }

    /** Energy of particle `iParticle` with every other particle. */
    method GetMolEnergy(iParticle: nat, box: Box) returns (eij: real)
      requires Ready(box) && iParticle < box.numParticles
      ensures eij == Row(Energy(forceField, box.Configuration(), box.length), iParticle, box.numParticles)
    {
      ghost var c := box.Configuration();
      var iPosition := box.coordinates[iParticle];
      eij := 0.0;
      for jParticle := 0 to box.numParticles
        invariant eij == Row(Energy(forceField, c, box.length), iParticle, jParticle)
      {
        if iParticle == jParticle {
          continue;
        }
        var jPosition := box.coordinates[jParticle];
        var rij := WrapVec(Sub(iPosition, jPosition), box.length);
        var rij2 := Norm2(rij);
        ReadySeparation(box, iParticle, jParticle);
        assert rij == Separation(c, box.length, iParticle, jParticle);
        if rij2 < forceField.cutoff2 {
          eij := eij + Reduced.Evaluate(rij2);
        }
      }
    }

    /** Energy and virial of particle `iParticle`; with `populateForces`
        its pair forces are added into `box.forces[iParticle]`, and no other
        row of `box.forces` changes. */
    method GetMolPairEnergyAndVirial(iParticle: nat, box: Box, populateForces: bool) returns (ePair: real, wPair: real)
      requires Ready(box) && iParticle < box.numParticles
      requires populateForces ==> iParticle < box.forces.Length
      modifies if populateForces then {box.forces} else {}
      ensures ePair == Row(Energy(forceField, box.Configuration(), box.length), iParticle, box.numParticles)
      ensures wPair == Row(Virial(forceField, box.Configuration(), box.length), iParticle, box.numParticles)
      ensures populateForces ==>
                box.forces[iParticle]
                == Add(old(box.forces[iParticle]), MolForce(forceField, box.Configuration(), box.length, iParticle, box.numParticles))
      ensures forall k :: 0 <= k < box.forces.Length && k != iParticle ==> box.forces[k] == old(box.forces[k])
    {
      ghost var c := box.Configuration();
      var iPosition := box.coordinates[iParticle];
      ePair, wPair := 0.0, 0.0;
      for jParticle := 0 to box.numParticles
        invariant box.Configuration() == c
        invariant ePair == Row(Energy(forceField, c, box.length), iParticle, jParticle)
        invariant wPair == Row(Virial(forceField, c, box.length), iParticle, jParticle)
        invariant populateForces ==>
                    box.forces[iParticle] == Add(old(box.forces[iParticle]), MolForce(forceField, c, box.length, iParticle, jParticle))
        invariant forall k :: 0 <= k < box.forces.Length && k != iParticle ==> box.forces[k] == old(box.forces[k])
      {
        MolForceStep(forceField, c, box.length, iParticle, jParticle);
        if iParticle == jParticle {
          continue;
        }
        var jPosition := box.coordinates[jParticle];
        var rij := WrapVec(Sub(iPosition, jPosition), box.length);
        var rij2 := Norm2(rij);
        ReadySeparation(box, iParticle, jParticle);
        assert rij == Separation(c, box.length, iParticle, jParticle);
        if rij2 < forceField.cutoff2 {
          ePair := ePair + Reduced.Evaluate(rij2);
          var w := Reduced.PairVirial(rij2);
          wPair := wPair + w;
          if populateForces {
            box.forces[iParticle] := Add(box.forces[iParticle], Scale(w / rij2, rij));
          }
        }
      }
    }

    /** Virial of particle `iParticle`, with the same force update as
        `GetMolPairEnergyAndVirial`. */
    method GetMolVirial(iParticle: nat, box: Box, populateForces: bool) returns (wPair: real)
      requires Ready(box) && iParticle < box.numParticles
      requires populateForces ==> iParticle < box.forces.Length
      modifies if populateForces then {box.forces} else {}
      ensures wPair == Row(Virial(forceField, box.Configuration(), box.length), iParticle, box.numParticles)
      ensures populateForces ==>
                box.forces[iParticle]
                == Add(old(box.forces[iParticle]), MolForce(forceField, box.Configuration(), box.length, iParticle, box.numParticles))
      ensures forall k :: 0 <= k < box.forces.Length && k != iParticle ==> box.forces[k] == old(box.forces[k])
    {
      ghost var c := box.Configuration();
      var iPosition := box.coordinates[iParticle];
      wPair := 0.0;
      for jParticle := 0 to box.numParticles
        invariant box.Configuration() == c
        invariant wPair == Row(Virial(forceField, c, box.length), iParticle, jParticle)
        invariant populateForces ==>
                    box.forces[iParticle] == Add(old(box.forces[iParticle]), MolForce(forceField, c, box.length, iParticle, jParticle))
        invariant forall k :: 0 <= k < box.forces.Length && k != iParticle ==> box.forces[k] == old(box.forces[k])
      {
        MolForceStep(forceField, c, box.length, iParticle, jParticle);
        if iParticle == jParticle {
          continue;
        }
        var jPosition := box.coordinates[jParticle];
        var rij := WrapVec(Sub(iPosition, jPosition), box.length);
        var rij2 := Norm2(rij);
        ReadySeparation(box, iParticle, jParticle);
        assert rij == Separation(c, box.length, iParticle, jParticle);
        if rij2 < forceField.cutoff2 {
          var w := Reduced.PairVirial(rij2);
          wPair := wPair + w;
          if populateForces {
            box.forces[iParticle] := Add(box.forces[iParticle], Scale(w / rij2, rij));
          }
        }
      }
    }

    /** One pass of the loop of `getTotalPairEnergyAndVirial`: particle
        `iParticle`'s sums are added to the running totals and, with
        `populateForces`, its zero row of `box.forces` becomes its force. */
    method AddRow(iParticle: nat, box: Box, populateForces: bool, eSum: real, wSum: real,
                  ghost c: seq<Vec3>, ghost e: PairTerm, ghost w: PairTerm)
      returns (eNext: real, wNext: real)
      requires Ready(box) && box.Configuration() == c && iParticle < box.numParticles
      requires e == Energy(forceField, c, box.length) && w == Virial(forceField, c, box.length)
      requires eSum == Rows(e, box.numParticles, iParticle) && wSum == Rows(w, box.numParticles, iParticle)
      requires populateForces ==> box.forces.Length == box.numParticles && box.forces[iParticle] == Zero
      modifies if populateForces then {box.forces} else {}
      ensures eNext == Rows(e, box.numParticles, iParticle + 1)
      ensures wNext == Rows(w, box.numParticles, iParticle + 1)
      ensures populateForces ==> box.forces[iParticle] == MolForce(forceField, c, box.length, iParticle, box.numParticles)
      ensures forall k :: 0 <= k < box.forces.Length && k != iParticle ==> box.forces[k] == old(box.forces[k])
    {
      var eInter, wInter := GetMolPairEnergyAndVirial(iParticle, box, populateForces);
      RowsStep(e, box.numParticles, iParticle, eSum, eInter);
      RowsStep(w, box.numParticles, iParticle, wSum, wInter);
      if populateForces {
        AddZero(MolForce(forceField, c, box.length, iParticle, box.numParticles));
      }
      eNext, wNext := eSum + eInter, wSum + wInter;
    }

    /** The loop of `getTotalPairEnergyAndVirial`: the per-particle sums
        added up over every particle; with `populateForces`, starting from
        zero rows, every particle's force ends in its row. */
    method SumRows(box: Box, populateForces: bool) returns (eSum: real, wSum: real)
      requires Ready(box)
      requires populateForces ==> box.forces.Length == box.numParticles
                                  && forall k :: 0 <= k < box.numParticles ==> box.forces[k] == Zero
      modifies if populateForces then {box.forces} else {}
      ensures eSum == Total(Energy(forceField, box.Configuration(), box.length), box.numParticles)
      ensures wSum == Total(Virial(forceField, box.Configuration(), box.length), box.numParticles)
      ensures populateForces ==> box.forces[..] == Forces(forceField, box.Configuration(), box.length)
    {
      ghost var c := box.Configuration();
      ghost var e, w := Energy(forceField, c, box.length), Virial(forceField, c, box.length);
      var n := box.numParticles;
      eSum, wSum := 0.0, 0.0;
      for iParticle := 0 to n
        invariant Ready(box) && box.Configuration() == c
        invariant eSum == Rows(e, n, iParticle) && wSum == Rows(w, n, iParticle)
        invariant populateForces ==> forall k :: 0 <= k < iParticle ==> box.forces[k] == MolForce(forceField, c, box.length, k, n)
        invariant populateForces ==> forall k :: iParticle <= k < n ==> box.forces[k] == Zero
      {
        eSum, wSum := AddRow(iParticle, box, populateForces, eSum, wSum, c, e, w);
      }
      if populateForces {
        assert box.forces[..] == Forces(forceField, c, box.length);
      }
    }

    /** Energy and virial of the whole box: half the sum of the
        per-particle sums, which is the sum over unordered pairs. With
        `populateForces` the force array is first replaced by zero rows and
        ends holding the force on every particle. Coordinates and
        velocities never change. */
    method GetTotalPairEnergyAndVirial(box: Box, populateForces: bool) returns (ePair: real, wPair: real)
      requires Ready(box)
      modifies box
      ensures box.coordinates == old(box.coordinates) && box.velocities == old(box.velocities)
      ensures box.numParticles == old(box.numParticles) && Ready(box)
      ensures ePair == Total(Energy(forceField, box.Configuration(), box.length), box.numParticles) / 2.0
      ensures wPair == Total(Virial(forceField, box.Configuration(), box.length), box.numParticles) / 2.0
      ensures ePair == Pairs(Energy(forceField, box.Configuration(), box.length), box.numParticles)
      ensures wPair == Pairs(Virial(forceField, box.Configuration(), box.length), box.numParticles)
      ensures populateForces ==> fresh(box.forces) && box.forces[..] == Forces(forceField, box.Configuration(), box.length)
      ensures !populateForces ==> box.forces == old(box.forces)
    {
      ghost var c := box.Configuration();
      var n := box.numParticles;
      if populateForces {
        box.forces := new Vec3[n](_ => Zero);
      }
      ePair, wPair := SumRows(box, populateForces);
      wPair := wPair / 2.0;
      ePair := ePair / 2.0;
      EnergySymmetric(forceField, c, box.length);
      VirialSymmetric(forceField, c, box.length);
      HalfTotalIsPairs(Energy(forceField, c, box.length), n);
      HalfTotalIsPairs(Virial(forceField, c, box.length), n);
    }
  }
}
