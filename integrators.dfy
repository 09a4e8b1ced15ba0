/** The Velocity-Verlet integrator: the position update (drift, then the
    minimum-image wrap) and the half-step velocity update (kick). The mass
    does not enter either update. */
module Integrators {
  import opened Geometry
  import opened Boxes

  /** One row of the position update, `x + v dt + f dt^2 / 2`, wrapped
      back into the box. */
  function Drift(x: Vec3, v: Vec3, f: Vec3, dt: real, len: real): (p: Vec3)
    requires len > 0.0
    ensures InBox(p, len)
  {
    var moved := Add(Add(x, Scale(dt, v)), Scale(0.5 * dt * dt, f));
    WrapVecInBox(moved, len);
    WrapVec(moved, len)
  }

  /** One row of the velocity update, `v + f dt / 2`. A kick with the
      opposite force undoes it, and no force leaves the velocity alone. */
  function Kick(v: Vec3, f: Vec3, dt: real): (w: Vec3)
    ensures Add(w, Scale(0.5 * dt, Neg(f))) == v
    ensures f == Zero ==> w == v
  {
    Add(v, Scale(0.5 * dt, f))
  }

  /** `Drift` applied row by row. */
  function DriftAll(c: seq<Vec3>, v: seq<Vec3>, f: seq<Vec3>, dt: real, len: real): (d: seq<Vec3>)
    requires len > 0.0 && |v| == |c| && |f| == |c|
    ensures |d| == |c|
    ensures forall k :: 0 <= k < |d| ==> InBox(d[k], len)
  {
    seq(|c|, k requires 0 <= k < |c| => Drift(c[k], v[k], f[k], dt, len))
  }

  /** `Kick` applied row by row. */
  function KickAll(v: seq<Vec3>, f: seq<Vec3>, dt: real): (w: seq<Vec3>)
    requires |f| == |v|
    ensures |w| == |v|
    ensures forall k :: 0 <= k < |w| ==> Add(w[k], Scale(0.5 * dt, Neg(f[k]))) == v[k]
    ensures forall k :: 0 <= k < |w| && f[k] == Zero ==> w[k] == v[k]
  {
    seq(|v|, k requires 0 <= k < |v| => Kick(v[k], f[k], dt))
  }

  /** A particle at rest, with no force on it, that is already in the box
      stays where it is. */
  lemma DriftAtRest(x: Vec3, dt: real, len: real)
    requires len > 0.0 && InBox(x, len)
    ensures Drift(x, Zero, Zero, dt, len) == x
  {
    var moved := Add(Add(x, Scale(dt, Zero)), Scale(0.5 * dt * dt, Zero));
    assert moved == x;
    WrapInBox(x.x, len);
    WrapInBox(x.y, len);
    WrapInBox(x.z, len);
  }

  /** Two half kicks with the same forces make one full kick `v + f dt`. */
  lemma KickTwice(v: seq<Vec3>, f: seq<Vec3>, dt: real)
    requires |f| == |v|
    ensures KickAll(KickAll(v, f, dt), f, dt) == seq(|v|, k requires 0 <= k < |v| => Add(v[k], Scale(dt, f[k])))
  {
    var twice := KickAll(KickAll(v, f, dt), f, dt);
    forall k | 0 <= k < |v|
      ensures twice[k] == Add(v[k], Scale(dt, f[k]))
    {
      assert 0.5 * dt * f[k].x + 0.5 * dt * f[k].x == dt * f[k].x;
      assert 0.5 * dt * f[k].y + 0.5 * dt * f[k].y == dt * f[k].y;
      assert 0.5 * dt * f[k].z + 0.5 * dt * f[k].z == dt * f[k].z;
    }
  }

  /** The integrator of a box, with a fixed time step. */
  class VelocityVerlet {
    const timeStep: real
    const box: Box

    constructor(timeStep: real, box: Box)
      ensures this.timeStep == timeStep && this.box == box
    {
      this.timeStep := timeStep;
      this.box := box;
    }

    /** The three arrays have the same number of rows, as the whole-array
        arithmetic of the updates needs. */
    ghost predicate Shaped()
      reads this, box
    {
      box.Valid()
      && box.velocities.Length == box.coordinates.Length
      && box.forces.Length == box.coordinates.Length
    }

    /** Every coordinate row becomes its drifted, wrapped position; the
        velocities and forces are left alone. */
    method UpdatePositions()
      requires Shaped()
      modifies box.coordinates
      ensures box.coordinates[..]
              == DriftAll(old(box.coordinates[..]), box.velocities[..], box.forces[..], timeStep, box.length)
      ensures forall k :: 0 <= k < box.coordinates.Length ==> InBox(box.coordinates[k], box.length)
      ensures unchanged(box.velocities) && unchanged(box.forces)
    {
      ghost var c := box.coordinates[..];
      for k := 0 to box.coordinates.Length
        invariant forall m :: 0 <= m < k ==>
                    box.coordinates[m] == Drift(c[m], box.velocities[m], box.forces[m], timeStep, box.length)
        invariant forall m :: k <= m < box.coordinates.Length ==> box.coordinates[m] == c[m]
      {
        box.coordinates[k] := Drift(box.coordinates[k], box.velocities[k], box.forces[k], timeStep, box.length);
      }
    }

    /** Every velocity row gets half a kick from the current forces; the
        coordinates and forces are left alone. */
    method UpdateVelocities()
      requires Shaped()
      modifies box.velocities
      ensures box.velocities[..] == KickAll(old(box.velocities[..]), box.forces[..], timeStep)
      ensures unchanged(box.coordinates) && unchanged(box.forces)
    {
      ghost var v := box.velocities[..];
      for k := 0 to box.velocities.Length
        invariant forall m :: 0 <= m < k ==> box.velocities[m] == Kick(v[m], box.forces[m], timeStep)
        invariant forall m :: k <= m < box.velocities.Length ==> box.velocities[m] == v[m]
      {
        box.velocities[k] := Kick(box.velocities[k], box.forces[k], timeStep);
      }
    }
  }
}
