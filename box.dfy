/** The simulation box. The array-layout engine keeps one `Vec3` row per
    particle in `coordinates`, `velocities` and `forces`; the particle-object
    engine keeps a list of `Particle` objects. */
module Boxes {
  import opened Geometry

  /** A box in the array layout: edge length, particle count and the
      `N x 3` arrays, each numpy row a `Vec3` element. */
  class Box {
    const length: real
    var numParticles: int
    var coordinates: array<Vec3>
    var velocities: array<Vec3>
    var forces: array<Vec3>

    /** A positive edge, and three different arrays, so that writing one of
        them never changes another. */
    ghost predicate Valid()
      reads this
    {
      && length > 0.0
      && coordinates != velocities && coordinates != forces && velocities != forces
    }

    /** The engine loops over the first `numParticles` rows. */
    ghost predicate Populated()
      reads this
    {
      0 <= numParticles <= coordinates.Length
    }

    /** The positions the engine sees. */
    ghost function Configuration(): (c: seq<Vec3>)
      reads this, coordinates
      requires Populated()
      ensures |c| == numParticles
    {
      coordinates[..numParticles]
    }

    /** `Box(length)`: no particles yet. */
    constructor(length: real)
      ensures Valid() <==> length > 0.0
      ensures this.length == length && numParticles == 0
      ensures coordinates.Length == 0 && velocities.Length == 0 && forces.Length == 0
    {
      this.length := length;
      numParticles := 0;
      coordinates := new Vec3[0];
      velocities := new Vec3[0];
      forces := new Vec3[0];
    }
  }

  /** A particle object: its position and its force-field parameters. */
  class Particle {
    var position: Vec3
    var parms: seq<real>

    /** `Particle()`: at the origin, with two parameter slots whose values
        are whatever memory held (`np.empty`). */
    constructor()
      ensures position == Zero && |parms| == 2
    {
      position := Zero;
      parms := [0.0, 0.0];
    }
  }

  /** A box in the particle-object layout. */
  class ParticleBox {
    const length: real
    var particle: seq<Particle>
    var numParticles: int

    /** Every list entry is its own object. */
    ghost predicate Valid()
      reads this
    {
      && length > 0.0
      && forall a, b :: 0 <= a < b < |particle| ==> particle[a] != particle[b]
    }

    /** The engine loops over the first `numParticles` entries. */
    ghost predicate Populated()
      reads this
    {
      0 <= numParticles <= |particle|
    }

    /** The positions of the particles the engine sees. */
    ghost function Configuration(): (c: seq<Vec3>)
      reads this, particle
      requires Populated()
      ensures |c| == numParticles
      ensures forall k :: 0 <= k < numParticles ==> c[k] == particle[k].position
    {
      seq(numParticles, k requires 0 <= k < numParticles <= |particle| reads this, particle => particle[k].position)
    }

    /** The position of every particle in the list. */
    ghost function Positions(): (p: seq<Vec3>)
      reads this, particle
      ensures |p| == |particle|
      ensures forall k :: 0 <= k < |particle| ==> p[k] == particle[k].position
    {
      seq(|particle|, k requires 0 <= k < |particle| reads this, particle => particle[k].position)
    }

    /** `particle.append(Particle())`: one more particle, at the origin. */
    method AppendParticle()
      requires Valid()
      modifies this
      ensures Valid() && numParticles == old(numParticles)
      ensures |particle| == |old(particle)| + 1 && particle[..|old(particle)|] == old(particle)
      ensures fresh(particle[|old(particle)|])
      ensures Positions() == old(Positions()) + [Zero]
    {
      var added := new Particle();
      particle := particle + [added];
    }

    /** `particle[k].position = p`: that particle moves, no other does. */
    method SetPosition(k: nat, p: Vec3)
      requires Valid() && k < |particle|
      modifies particle[k]
      ensures Positions() == old(Positions())[k := p]
      ensures particle[k].parms == old(particle[k].parms)
    {
      particle[k].position := p;
    }

    /** `numParticles += 1`. */
    method CountParticle()
      requires Valid()
      modifies this
      ensures Valid() && numParticles == old(numParticles) + 1 && particle == old(particle)
      ensures Positions() == old(Positions())
    {
      numParticles := numParticles + 1;
    }

    /** `Box(length)`: an empty particle list. */
    constructor(length: real)
      ensures Valid() <==> length > 0.0
      ensures this.length == length && particle == [] && numParticles == 0
    {
      this.length := length;
      particle := [];
      numParticles := 0;
    }
  }
}
