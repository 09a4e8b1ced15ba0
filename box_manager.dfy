/** The array-layout box manager: fills `box.coordinates` with a random or
    lattice configuration, or from the lines of an xyz file. */
module BoxManagers {
  import opened Geometry
  import opened Outcomes
  import opened ConfigLines
  import opened Lattice
  import opened Boxes

  /** `(0.5 - u) L` for every row `u` of uniform draws. */
  function RandomRows(draws: seq<Vec3>, len: real): (rows: seq<Vec3>)
    ensures |rows| == |draws|
  {
    seq(|draws|, k requires 0 <= k < |draws| => Scale(len, Sub(Vec3(0.5, 0.5, 0.5), draws[k])))
  }

  /** Every component of `v` lies in `[0, 1)`, as a draw of `np.random.rand` does. */
  ghost predicate UnitDraw(v: Vec3)
  {
    0.0 <= v.x < 1.0 && 0.0 <= v.y < 1.0 && 0.0 <= v.z < 1.0
  }

  lemma RandomComponentInBox(u: real, len: real)
    requires len > 0.0 && 0.0 <= u < 1.0
    ensures -len / 2.0 <= len * (0.5 - u) <= len / 2.0
  {
    MulNonNegative(len, u);
    MulNonNegative(len, 1.0 - u);
    assert len * (0.5 - u) == len / 2.0 - len * u;
    assert len * (1.0 - u) == len - len * u;
  }

  lemma RandomRowInBox(u: Vec3, len: real)
    requires len > 0.0 && UnitDraw(u)
    ensures InBox(Scale(len, Sub(Vec3(0.5, 0.5, 0.5), u)), len)
  {
    var p := Scale(len, Sub(Vec3(0.5, 0.5, 0.5), u));
    assert p == Vec3(len * (0.5 - u.x), len * (0.5 - u.y), len * (0.5 - u.z));
    RandomComponentInBox(u.x, len);
    RandomComponentInBox(u.y, len);
    RandomComponentInBox(u.z, len);
  }

  /** Random placement puts every particle inside the box. */
  lemma RandomRowsInBox(draws: seq<Vec3>, len: real)
    requires len > 0.0 && forall k :: 0 <= k < |draws| ==> UnitDraw(draws[k])
    ensures forall k :: 0 <= k < |draws| ==> InBox(RandomRows(draws, len)[k], len)
  {
    forall k | 0 <= k < |draws|
      ensures InBox(RandomRows(draws, len)[k], len)
    {
      RandomRowInBox(draws[k], len);
    }
  }

  /** The lattice configuration of `n` particles: particle `k` at the
      centre of cell `Odometer(k, s)`, moved by `-L/2` and `-0.5`. */
  function LatticeRows(n: nat, len: real): (rows: seq<Vec3>)
    ensures |rows| == n
  {
    seq(n, k requires 0 <= k < n => CentredSite(k, LatticeSide(n), len))
  }

  /** No two lattice particles share a position, and every counter
      component stays below the side. */
  lemma LatticeRowsDistinct(n: nat, len: real)
    requires len > 0.0
    ensures forall k, m :: 0 <= k < m < n ==> LatticeRows(n, len)[k] != LatticeRows(n, len)[m]
    ensures forall k :: 0 <= k < n ==> 0 <= Odometer(k, LatticeSide(n)).c < LatticeSide(n)
  {
    var s := LatticeSide(n);
    forall k, m | 0 <= k < m < n
      ensures LatticeRows(n, len)[k] != LatticeRows(n, len)[m]
    {
      SitesDistinct(k, m, s, len);
    }
    forall k | 0 <= k < n
      ensures 0 <= Odometer(k, s).c < s
    {
      OdometerBounds(k, s);
    }
  }

  /** The part of the box a configuration file rewrites. */
  datatype Rows = Rows(numParticles: int, coordinates: seq<Vec3>)

  /** The rows after some lines, and whether every line was read without
      an exception (on an exception, the rows as they were when it was
      raised). */
  datatype Reading = Reading(rows: Rows, ok: bool)

  /** One line: a single field is the particle count and resets the rows
      to that many zero rows (a negative count sets the count and then
      fails to build the array); more fields write row `index - 1` (a
      Python index, so 0 names the last row); an empty line is skipped. */
  function ReadLine(st: Rows, line: Line): (r: Reading)
    ensures !r.ok ==> r.rows.coordinates == st.coordinates
    ensures line.width == 1 && r.ok ==> |r.rows.coordinates| == r.rows.numParticles
    ensures line.width != 1 ==> r.rows.numParticles == st.numParticles && |r.rows.coordinates| == |st.coordinates|
  {
    if line.width == 1 then
      if line.first < 0 then Reading(st.(numParticles := line.first), false)
      else Reading(Rows(line.first, seq(line.first, _ => Zero)), true)
    else if line.width > 1 then
      if !Complete(line) then Reading(st, false)
      else
        match PyIndex(line.first - 1, |st.coordinates|)
        case None => Reading(st, false)
        case Some(k) => Reading(st.(coordinates := st.coordinates[k := Vec3(line.x, line.y, line.z)]), true)
    else Reading(st, true)
  }

  /** The lines in order, stopping at the first exception. The particle
      box of `boxManager.py` reads the same lines into a list it appends
      to, so its `ReadLines` is a separate function over its own state.
      Without a count line neither the count nor the number of rows
      changes. */
  function ReadLines(st: Rows, lines: seq<Line>): (r: Reading)
    ensures NoCountLine(lines) ==> r.rows.numParticles == st.numParticles && |r.rows.coordinates| == |st.coordinates|
  {
    if |lines| == 0 then Reading(st, true)
    else
      var before := ReadLines(st, lines[..|lines| - 1]);
      if before.ok then ReadLine(before.rows, lines[|lines| - 1]) else before
  }

  /** No line of `lines` is a single field. */
  predicate NoCountLine(lines: seq<Line>)
  {
    forall k :: 0 <= k < |lines| ==> lines[k].width != 1
  }

  /** Nothing after the first exception has any effect. */
  lemma {:induction false} ReadLinesStops(st: Rows, a: seq<Line>, b: seq<Line>)
    requires !ReadLines(st, a).ok
    ensures ReadLines(st, a + b) == ReadLines(st, a)
  {
    if |b| > 0 {
      assert (a + b)[..|a + b| - 1] == a + b[..|b| - 1];
      ReadLinesStops(st, a, b[..|b| - 1]);
    } else {
      assert a + b == a;
    }
  }

  /** An exception at line `i` is the outcome of the whole file. */
  lemma FailureIsFinal(st: Rows, lines: seq<Line>, i: nat)
    requires i < |lines| && !ReadLines(st, lines[..i + 1]).ok
    ensures ReadLines(st, lines) == ReadLines(st, lines[..i + 1])
  {
    ReadLinesStops(st, lines[..i + 1], lines[i + 1..]);
    assert lines[..i + 1] + lines[i + 1..] == lines;
  }

  /** The position the last of `data` that names row `r` (1-based index
      `r + 1`) gives it, or zero when none does. */
  function LastListed(data: seq<Line>, r: nat): Vec3
  {
    if |data| == 0 then Zero
    else
      var line := data[|data| - 1];
      if line.first - 1 == r then Vec3(line.x, line.y, line.z) else LastListed(data[..|data| - 1], r)
  }

  /** Every data line is complete and names one of the first `n` rows. */
  ghost predicate DataFor(data: seq<Line>, n: nat)
  {
    forall i :: 0 <= i < |data| ==> data[i].width >= 4 && 1 <= data[i].first <= n
  }

  /** A count line followed by data lines for that many particles: the
      count is stored, and each row holds the position of the last line
      that names it, or zero when no line does. */
  lemma {:induction false} ReadCountThenData(st: Rows, count: Line, data: seq<Line>)
    requires count.width == 1 && count.first >= 0 && DataFor(data, count.first)
    ensures ReadLines(st, [count] + data)
            == Reading(Rows(count.first, seq(count.first, r requires 0 <= r < count.first => LastListed(data, r))), true)
  {
    var n := count.first;
    if |data| == 0 {
      assert [count] + data == [count];
      assert [count][..0] == [];
      assert seq(n, r requires 0 <= r < n => LastListed(data, r)) == seq(n, _ => Zero);
    } else {
      var front := data[..|data| - 1];
      assert ([count] + data)[..|[count] + data| - 1] == [count] + front;
      ReadCountThenData(st, count, front);
      var line := data[|data| - 1];
      assert line.width >= 4 && 1 <= line.first <= n;
    }
  }

  /** Python indexing: a data line with index 0 writes the LAST row. */
  lemma IndexZeroWritesLastRow(st: Rows, line: Line)
    requires Complete(line) && line.first == 0 && |st.coordinates| > 0
    ensures ReadLine(st, line).ok
    ensures ReadLine(st, line).rows.coordinates
            == st.coordinates[|st.coordinates| - 1 := Vec3(line.x, line.y, line.z)]
  {
  }

  /** `nSide = 1; while nSide^3 < n: nSide += 1`. */
  method FindLatticeSide(n: int) returns (nSide: int)
    ensures nSide == LatticeSide(n)
  {
    nSide := 1;
    while Cube(nSide) < n
      invariant nSide >= 1 && forall t :: 1 <= t < nSide ==> Cube(t) < n
      invariant SideFrom(n, nSide) == LatticeSide(n)
      decreases n - nSide
    {
      CubeAtLeast(nSide);
      nSide := nSide + 1;
    }
  }

  /** The counter loop: row `k` gets the centre of the counter's cell,
      moved by `-L/2`, and the counter ticks. */
  method FillLattice(coordinates: array<Vec3>, nSide: int, len: real)
    requires nSide >= 1
    modifies coordinates
    ensures forall m :: 0 <= m < coordinates.Length ==>
              coordinates[m] == Shift(CellCentre(Odometer(m, nSide), nSide, len), -0.5 * len)
  {
    var a, b, c := 0, 0, 0;
    for iParticle := 0 to coordinates.Length
      invariant Cell(a, b, c) == Odometer(iParticle, nSide)
      invariant forall m :: 0 <= m < iParticle ==>
                  coordinates[m] == Shift(CellCentre(Odometer(m, nSide), nSide, len), -0.5 * len)
    {
      coordinates[iParticle] := Shift(CellCentre(Cell(a, b, c), nSide, len), -0.5 * len);
      OdometerTick(iParticle, nSide);
      a := a + 1;
      if a == nSide {
        a := 0;
        b := b + 1;
        if b == nSide {
          b := 0;
          c := c + 1;
        }
      }
    }
  }

  /** `L * (0.5 - np.random.rand(n, 3))`, with the draws given. */
  method BuildRandom(draws: seq<Vec3>, len: real) returns (coordinates: array<Vec3>)
    ensures fresh(coordinates) && coordinates[..] == RandomRows(draws, len)
  {
    coordinates := new Vec3[|draws|](k requires 0 <= k < |draws| => Scale(len, Sub(Vec3(0.5, 0.5, 0.5), draws[k])));
    assert coordinates[..] == RandomRows(draws, len);
  }

  /** `coordinates -= d`-style broadcasting, row by row: every row moves by
      `d` in each component. */
  method ShiftRows(coordinates: array<Vec3>, d: real)
    modifies coordinates
    ensures forall m :: 0 <= m < coordinates.Length ==> coordinates[m] == Shift(old(coordinates[m]), d)
  {
    for iParticle := 0 to coordinates.Length
      invariant forall m :: 0 <= m < iParticle ==> coordinates[m] == Shift(old(coordinates[m]), d)
      invariant forall m :: iParticle <= m < coordinates.Length ==> coordinates[m] == old(coordinates[m])
    {
      coordinates[iParticle] := Shift(coordinates[iParticle], d);
    }
  }

  /** The lattice branch: a fresh `n x 3` array, the counter loop, then
      `coordinates -= 0.5` row by row. */
  method BuildLattice(n: nat, len: real) returns (coordinates: array<Vec3>)
    ensures fresh(coordinates) && coordinates[..] == LatticeRows(n, len)
  {
    coordinates := new Vec3[n](_ => Zero);
    var nSide := FindLatticeSide(n);
    FillLattice(coordinates, nSide, len);
    ShiftRows(coordinates, -0.5);
    assert coordinates[..] == LatticeRows(n, len);
  }

  class BoxManager {
    const box: Box

    constructor(box: Box)
      ensures this.box == box
    {
      this.box := box;
    }

    /** `addParticles(n, method)`: the count becomes `n` whatever the
        method. `"random"` fills `n` rows from the draws; `"lattice"` fills
        `n` rows with the lattice; both fail on a negative `n` (numpy
        refuses the array) after setting the count. Any other method
        changes only the count. */
    method AddParticles(n: int, placement: string, draws: seq<Vec3>) returns (ok: bool)
      requires box.Valid()
      requires placement == "random" && n >= 0 ==> |draws| == n
      modifies box
      ensures box.Valid() && box.numParticles == n
      ensures box.velocities == old(box.velocities) && box.forces == old(box.forces)
      ensures ok <==> !(n < 0 && (placement == "random" || placement == "lattice"))
      ensures ok && placement == "random" ==> fresh(box.coordinates) && box.coordinates[..] == RandomRows(draws, box.length)
      ensures ok && placement == "lattice" ==> fresh(box.coordinates) && box.coordinates[..] == LatticeRows(n, box.length)
      ensures !ok || (placement != "random" && placement != "lattice") ==> box.coordinates == old(box.coordinates)
    {
      box.numParticles := n;
      if placement == "random" {
        if n < 0 {
          return false;
        }
        box.coordinates := BuildRandom(draws, box.length);
      } else if placement == "lattice" {
        if n < 0 {
          return false;
        }
        box.coordinates := BuildLattice(n, box.length);
      }
      return true;
    }

    /** `getConfigFromFile`: the lines in order, as `ReadLines` says,
        until the first exception. */
    method GetConfigFromFile(lines: seq<Line>) returns (ok: bool)
      requires box.Valid()
      modifies box, box.coordinates
      ensures box.Valid() && box.velocities == old(box.velocities) && box.forces == old(box.forces)
      ensures ReadLines(Rows(old(box.numParticles), old(box.coordinates[..])), lines)
              == Reading(Rows(box.numParticles, box.coordinates[..]), ok)
    {
      ghost var st := Rows(box.numParticles, box.coordinates[..]);
      for i := 0 to |lines|
        invariant box.Valid() && box.velocities == old(box.velocities) && box.forces == old(box.forces)
        invariant box.coordinates == old(box.coordinates) || fresh(box.coordinates)
        invariant ReadLines(st, lines[..i]) == Reading(Rows(box.numParticles, box.coordinates[..]), true)
      {
        assert lines[..i + 1][..i] == lines[..i];
        var line := lines[i];
        if line.width == 1 {
          box.numParticles := line.first;
          if line.first < 0 {
            FailureIsFinal(st, lines, i);
            return false;
          }
          box.coordinates := new Vec3[line.first](_ => Zero);
        }
        if line.width > 1 {
          var iParticle := line.first - 1;
          if line.width < 4 {
            FailureIsFinal(st, lines, i);
            return false;
          }
          var row := PyIndex(iParticle, box.coordinates.Length);
          if row.None? {
            FailureIsFinal(st, lines, i);
            return false;
          }
          box.coordinates[row.value] := Vec3(line.x, line.y, line.z);
        }
      }
      assert lines[..|lines|] == lines;
      return true;
    }
  }
}
