/** The particle-object box manager: appends `Particle` objects for a
    random or lattice configuration, or while reading the lines of an xyz
    file. Positions are written by list index counting from zero, whatever
    the list held before. */
module ParticleBoxManagers {
  import opened Geometry
  import opened ConfigLines
  import opened Lattice
  import opened Boxes
  import BoxManagers

  /** The number of passes of `for _ in range(n)`. */
  function Count(n: int): nat
  {
    if n < 0 then 0 else n
  }

  /** The positions after appending `|rows|` particles at the origin to a
      list holding `p` and writing `rows[k]` into entry `k` for each `k`. */
  function AppendAndWrite(p: seq<Vec3>, rows: seq<Vec3>): (q: seq<Vec3>)
    ensures |q| == |p| + |rows|
  {
    seq(|p| + |rows|, k requires 0 <= k < |p| + |rows| => if k < |rows| then rows[k] else if k < |p| then p[k] else Zero)
  }

  /** Starting from an empty list, the rows are the positions. */
  lemma AppendToEmpty(rows: seq<Vec3>)
    ensures AppendAndWrite([], rows) == rows
  {
  }

  /** Entries past the written ones keep their old positions, and the
      appended ones past them stay at the origin. */
  lemma AppendKeepsTail(p: seq<Vec3>, rows: seq<Vec3>, k: nat)
    requires |rows| <= k < |p| + |rows|
    ensures AppendAndWrite(p, rows)[k] == if k < |p| then p[k] else Zero
  {
  }

  /** Appending one more particle and writing the next row into entry
      `i` extends the written prefix by one. */
  lemma AppendAndWriteStep(p: seq<Vec3>, rows: seq<Vec3>, i: nat)
    requires i < |rows|
    ensures AppendAndWrite(p, rows[..i + 1]) == (AppendAndWrite(p, rows[..i]) + [Zero])[i := rows[i]]
  {
  }

  /** The lattice cell centres, `(counter + 0.5) L / s`, of `n` particles. */
  function CornerRows(n: nat, len: real): (rows: seq<Vec3>)
    ensures |rows| == n
  {
    seq(n, k requires 0 <= k < n => CellCentre(Odometer(k, LatticeSide(n)), LatticeSide(n), len))
  }

  /** `position -= 0.5` for the first `m` entries. */
  function ShiftPrefix(q: seq<Vec3>, m: int): (r: seq<Vec3>)
    ensures |r| == |q|
  {
    seq(|q|, k requires 0 <= k < |q| => if k < m then Shift(q[k], -0.5) else q[k])
  }

  /** Starting from an empty box, lattice particle `k` ends at its cell
      centre moved by `-0.5`, with no `-L/2` centring. */
  lemma LatticeFromEmpty(n: nat, len: real)
    ensures ShiftPrefix(AppendAndWrite([], CornerRows(n, len)), n)
            == seq(n, k requires 0 <= k < n => CornerSite(k, LatticeSide(n), len))
  {
    AppendToEmpty(CornerRows(n, len));
  }

  /** The particle count and the positions of the whole list. */
  datatype Particles = Particles(numParticles: int, positions: seq<Vec3>)

  /** The particles after some lines, and whether every line was read without
      an exception (on an exception, the particles as they were when it was
      raised). */
  datatype Reading = Reading(state: Particles, ok: bool)

  /** One line: a single field sets the count and nothing else; more
      fields append a particle at the origin first, and then write
      entry `index - 1` (a Python index) when the line has x, y and z. */
  function ReadLine(st: Particles, line: Line): (r: Reading)
    ensures |r.state.positions| == |st.positions| + (if line.width > 1 then 1 else 0)
    ensures line.width != 1 ==> r.state.numParticles == st.numParticles
    ensures line.width <= 1 ==> r.ok
  {
    if line.width == 1 then Reading(st.(numParticles := line.first), true)
    else if line.width > 1 then
      var grown := st.positions + [Zero];
      if !Complete(line) then Reading(st.(positions := grown), false)
      else
        match PyIndex(line.first - 1, |grown|)
        case None => Reading(st.(positions := grown), false)
        case Some(k) => Reading(st.(positions := grown[k := Vec3(line.x, line.y, line.z)]), true)
    else Reading(st, true)
  }

  /** The lines in order, stopping at the first exception. The array box
      of `BoxManager.py` resets its rows on a count line and never grows,
      so its `ReadLines` is a separate function over its own state. An
      exception needs a data line to raise it. */
  function ReadLines(st: Particles, lines: seq<Line>): (r: Reading)
    ensures !r.ok ==> exists k :: 0 <= k < |lines| && lines[k].width > 1
  {
    if |lines| == 0 then Reading(st, true)
    else
      var before := ReadLines(st, lines[..|lines| - 1]);
      if before.ok then ReadLine(before.state, lines[|lines| - 1]) else before
  }

  /** Nothing after the first exception has any effect. */
  lemma {:induction false} ReadLinesStops(st: Particles, a: seq<Line>, b: seq<Line>)
    requires !ReadLines(st, a).ok
    ensures ReadLines(st, a + b) == ReadLines(st, a)
  {
    if |b| > 0 {
      assert (a + b)[..|a + b| - 1] == a + b[..|b| - 1];
      ReadLinesStops(st, a, b[..|b| - 1]);
    } else {
      assert a + b == a;
    }
  }

  /** An exception at line `i` is the outcome of the whole file. */
  lemma FailureIsFinal(st: Particles, lines: seq<Line>, i: nat)
    requires i < |lines| && !ReadLines(st, lines[..i + 1]).ok
    ensures ReadLines(st, lines) == ReadLines(st, lines[..i + 1])
  {
    ReadLinesStops(st, lines[..i + 1], lines[i + 1..]);
    assert lines[..i + 1] + lines[i + 1..] == lines;
  }

  /** How many lines have two or more fields. */
  function DataLines(lines: seq<Line>): nat
  {
    if |lines| == 0 then 0 else DataLines(lines[..|lines| - 1]) + (if lines[|lines| - 1].width > 1 then 1 else 0)
  }

  /** Every data line appends exactly one particle; count lines append
      none. */
  lemma {:induction false} ReadLinesGrowth(st: Particles, lines: seq<Line>)
    requires ReadLines(st, lines).ok
    ensures |ReadLines(st, lines).state.positions| == |st.positions| + DataLines(lines)
  {
    if |lines| > 0 {
      ReadLinesGrowth(st, lines[..|lines| - 1]);
    }
  }

  /** From an empty list, data lines numbered 1, 2, 3, ... in order give
      exactly their positions. */
  lemma {:induction false} ReadInOrder(st: Particles, data: seq<Line>)
    requires st.positions == []
    requires forall i :: 0 <= i < |data| ==> Complete(data[i]) && data[i].first == i + 1
    ensures ReadLines(st, data).ok
    ensures ReadLines(st, data).state.positions
            == seq(|data|, i requires 0 <= i < |data| => Vec3(data[i].x, data[i].y, data[i].z))
  {
    if |data| > 0 {
      var front := data[..|data| - 1];
      ReadInOrder(st, front);
    }
  }

  class ParticleBoxManager {
    const box: ParticleBox

    constructor(box: ParticleBox)
      ensures this.box == box
    {
      this.box := box;
    }

    /** `addParticles(n, method)`: `"random"` and `"lattice"` append
        particles as `AddRandom` and `AddLattice` say; any other method
        changes nothing. */
    method AddParticles(n: int, placement: string, draws: seq<Vec3>) returns (ok: bool)
      requires box.Valid()
      requires placement == "random" ==> |draws| == Count(n)
      modifies box, box.particle
      ensures box.Valid() && old(box.particle) <= box.particle
      ensures forall k :: 0 <= k < |old(box.particle)| ==> box.particle[k].parms == old(box.particle[k].parms)
      ensures forall k :: |old(box.particle)| <= k < |box.particle| ==> fresh(box.particle[k])
      ensures placement == "random" ==>
                && ok && box.numParticles == old(box.numParticles) + Count(n)
                && box.Positions() == AppendAndWrite(old(box.Positions()), BoxManagers.RandomRows(draws, box.length))
      ensures placement == "lattice" ==>
                && box.numParticles == old(box.numParticles) + Count(n)
                && (ok <==> box.numParticles <= |box.particle|)
                && box.Positions()
                   == ShiftPrefix(AppendAndWrite(old(box.Positions()), CornerRows(Count(n), box.length)), box.numParticles)
      ensures placement != "random" && placement != "lattice" ==>
                ok && box.particle == old(box.particle) && box.numParticles == old(box.numParticles)
                && box.Positions() == old(box.Positions())
    {
      if placement == "random" {
        AddRandom(n, draws);
        ok := true;
      } else if placement == "lattice" {
        ok := AddLattice(n);
      } else {
        ok := true;
      }
    }

    /** `addParticles(n, method)` with `"random"`: appends `n` particles
        and writes the draws into entries `0 .. n-1`, counting one particle
        each time. */
    method AddRandom(n: int, draws: seq<Vec3>)
      requires box.Valid() && |draws| == Count(n)
      modifies box, box.particle
      ensures box.Valid() && old(box.particle) <= box.particle
      ensures forall k :: 0 <= k < |old(box.particle)| ==> box.particle[k].parms == old(box.particle[k].parms)
      ensures forall k :: |old(box.particle)| <= k < |box.particle| ==> fresh(box.particle[k])
      ensures box.numParticles == old(box.numParticles) + Count(n)
      ensures box.Positions() == AppendAndWrite(old(box.Positions()), BoxManagers.RandomRows(draws, box.length))
    {
      ghost var p := box.Positions();
      ghost var objects := box.particle;
      for iParticle := 0 to Count(n)
        invariant box.Valid() && |box.particle| == |objects| + iParticle && box.particle[..|objects|] == objects
        invariant forall k :: |objects| <= k < |box.particle| ==> fresh(box.particle[k])
        invariant forall k :: 0 <= k < |objects| ==> objects[k].parms == old(objects[k].parms)
        invariant box.numParticles == old(box.numParticles) + iParticle
        invariant box.Positions() == AppendAndWrite(p, BoxManagers.RandomRows(draws[..iParticle], box.length))
      {
        box.AppendParticle();
        var newPosition := Scale(box.length, Sub(Vec3(0.5, 0.5, 0.5), draws[iParticle]));
        box.SetPosition(iParticle, newPosition);
        box.CountParticle();
        assert BoxManagers.RandomRows(draws[..iParticle + 1], box.length)
               == BoxManagers.RandomRows(draws, box.length)[..iParticle + 1];
        assert BoxManagers.RandomRows(draws[..iParticle], box.length)
               == BoxManagers.RandomRows(draws, box.length)[..iParticle];
        AppendAndWriteStep(p, BoxManagers.RandomRows(draws, box.length), iParticle);
      }
      assert draws[..Count(n)] == draws;
    }

    /** `addParticles(n, method)` with `"lattice"`: appends `n` particles
        at the cell centres of the counter, writing entries `0 .. n-1`, and
        then moves the first `numParticles` entries by `-0.5`. The second
        loop runs off the list (an index error) when the count was already
        ahead of the list. */
    method AddLattice(n: int) returns (ok: bool)
      requires box.Valid()
      modifies box, box.particle
      ensures box.Valid() && old(box.particle) <= box.particle
      ensures forall k :: 0 <= k < |old(box.particle)| ==> box.particle[k].parms == old(box.particle[k].parms)
      ensures forall k :: |old(box.particle)| <= k < |box.particle| ==> fresh(box.particle[k])
      ensures box.numParticles == old(box.numParticles) + Count(n)
      ensures ok <==> box.numParticles <= |box.particle|
      ensures box.Positions()
              == ShiftPrefix(AppendAndWrite(old(box.Positions()), CornerRows(Count(n), box.length)), box.numParticles)
    {
      var nSide := BoxManagers.FindLatticeSide(n);
      PlaceOnLattice(n, nSide);
      ok := ShiftParticles();
    }

    /** The counter loop: `n` particles appended and counted, particle
        `k` written at the centre of cell `k` of the `nSide` lattice. */
    method PlaceOnLattice(n: int, nSide: int)
      requires box.Valid() && nSide == LatticeSide(n)
      modifies box, box.particle
      ensures box.Valid() && old(box.particle) <= box.particle
      ensures forall k :: 0 <= k < |old(box.particle)| ==> box.particle[k].parms == old(box.particle[k].parms)
      ensures forall k :: |old(box.particle)| <= k < |box.particle| ==> fresh(box.particle[k])
      ensures box.numParticles == old(box.numParticles) + Count(n)
      ensures box.Positions() == AppendAndWrite(old(box.Positions()), CornerRows(Count(n), box.length))
    {
      ghost var p := box.Positions();
      ghost var objects := box.particle;
      ghost var rows := CornerRows(Count(n), box.length);
      var a, b, c := 0, 0, 0;
      for iParticle := 0 to Count(n)
        invariant box.Valid() && |box.particle| == |objects| + iParticle && box.particle[..|objects|] == objects
        invariant forall k :: |objects| <= k < |box.particle| ==> fresh(box.particle[k])
        invariant forall k :: 0 <= k < |objects| ==> objects[k].parms == old(objects[k].parms)
        invariant box.numParticles == old(box.numParticles) + iParticle
        invariant Cell(a, b, c) == Odometer(iParticle, nSide)
        invariant box.Positions() == AppendAndWrite(p, rows[..iParticle])
      {
        box.CountParticle();
        box.AppendParticle();
        assert rows[iParticle] == CellCentre(Cell(a, b, c), nSide, box.length);
        box.SetPosition(iParticle, CellCentre(Cell(a, b, c), nSide, box.length));
        AppendAndWriteStep(p, rows, iParticle);
        OdometerTick(iParticle, nSide);
        a := a + 1;
        if a == nSide {
          a := 0;
          b := b + 1;
          if b == nSide {
            b := 0;
            c := c + 1;
          }
        }
      }
      assert rows[..Count(n)] == rows;
    }

    /** `for iParticle in range(numParticles): position -= 0.5`, which
        stops with an index error at the end of the list. */
    method ShiftParticles() returns (ok: bool)
      requires box.Valid()
      modifies box.particle
      ensures ok <==> box.numParticles <= |box.particle|
      ensures box.Positions() == ShiftPrefix(old(box.Positions()), box.numParticles)
      ensures forall k :: 0 <= k < |box.particle| ==> box.particle[k].parms == old(box.particle[k].parms)
    {
      ghost var q := box.Positions();
      var iParticle := 0;
      while iParticle < box.numParticles
        invariant 0 <= iParticle <= |q| && |box.particle| == |q|
        invariant iParticle == 0 || iParticle <= box.numParticles
        invariant box.Positions() == ShiftPrefix(q, iParticle)
        invariant forall k :: 0 <= k < |box.particle| ==> box.particle[k].parms == old(box.particle[k].parms)
        decreases box.numParticles - iParticle
      {
        if iParticle == |box.particle| {
          assert ShiftPrefix(q, iParticle) == ShiftPrefix(q, box.numParticles);
          return false;
        }
        box.SetPosition(iParticle, Shift(box.particle[iParticle].position, -0.5));
        assert box.Positions() == ShiftPrefix(q, iParticle + 1);
        iParticle := iParticle + 1;
      }
      assert ShiftPrefix(q, iParticle) == ShiftPrefix(q, box.numParticles);
      return true;
    }

    /** One line of `getConfigFromFile`, as `ReadLine` says. */
    method ReadOne(line: Line) returns (ok: bool)
      requires box.Valid()
      modifies box, box.particle
      ensures box.Valid() && old(box.particle) <= box.particle
      ensures forall k :: 0 <= k < |old(box.particle)| ==> box.particle[k].parms == old(box.particle[k].parms)
      ensures forall k :: |old(box.particle)| <= k < |box.particle| ==> fresh(box.particle[k])
      ensures ReadLine(Particles(old(box.numParticles), old(box.Positions())), line)
              == Reading(Particles(box.numParticles, box.Positions()), ok)
    {
      if line.width == 1 {
        box.numParticles := line.first;
      }
      if line.width > 1 {
        box.AppendParticle();
        if line.width < 4 {
          return false;
        }
        var row := PyIndex(line.first - 1, |box.particle|);
        if row.None? {
          return false;
        }
        box.SetPosition(row.value, Vec3(line.x, line.y, line.z));
      }
      return true;
    }

    /** `getConfigFromFile`: the lines in order, as `ReadLines` says,
        until the first exception. */
    method GetConfigFromFile(lines: seq<Line>) returns (ok: bool)
      requires box.Valid()
      modifies box, box.particle
      ensures box.Valid() && old(box.particle) <= box.particle
      ensures forall k :: 0 <= k < |old(box.particle)| ==> box.particle[k].parms == old(box.particle[k].parms)
      ensures forall k :: |old(box.particle)| <= k < |box.particle| ==> fresh(box.particle[k])
      ensures ReadLines(Particles(old(box.numParticles), old(box.Positions())), lines)
              == Reading(Particles(box.numParticles, box.Positions()), ok)
    {
      ghost var st := Particles(box.numParticles, box.Positions());
      ghost var objects := box.particle;
      for i := 0 to |lines|
        invariant box.Valid() && objects <= box.particle
        invariant forall k :: |objects| <= k < |box.particle| ==> fresh(box.particle[k])
        invariant forall k :: 0 <= k < |objects| ==> objects[k].parms == old(objects[k].parms)
        invariant ReadLines(st, lines[..i]) == Reading(Particles(box.numParticles, box.Positions()), true)
      {
        assert lines[..i + 1][..i] == lines[..i];
        ok := ReadOne(lines[i]);
        if !ok {
          FailureIsFinal(st, lines, i);
          return;
        }
      }
      assert lines[..|lines|] == lines;
      return true;
    }
  }
}
