/** Lattice placement: the side of the smallest cube lattice that holds
    `n` particles, the odometer-style counter that walks its cells, and the
    position of each cell in the box. */
module Lattice {
  import opened Geometry

  function Cube(t: int): int
  {
    t * t * t
  }

  /** `s` is the smallest positive integer whose cube is at least `n`. */
  ghost predicate IsLatticeSide(n: int, s: int)
  {
    s >= 1 && Cube(s) >= n && forall t :: 1 <= t < s ==> Cube(t) < n
  }

  lemma CubeAtLeast(t: int)
    requires t >= 1
    ensures Cube(t) >= t
  {
    assert t * t >= 1;
    assert t * t * t >= t;
  }

  /** The search `while s^3 < n: s += 1` started from `s`. */
  function SideFrom(n: int, s: int): (r: int)
    requires s >= 1
    requires forall t :: 1 <= t < s ==> Cube(t) < n
    ensures IsLatticeSide(n, r) && r >= s
    decreases n - s
  {
    CubeAtLeast(s);
    if Cube(s) >= n then s else SideFrom(n, s + 1)
  }

  /** The lattice side for `n` particles (1 when `n <= 1`). */
  function LatticeSide(n: int): (s: int)
    ensures IsLatticeSide(n, s)
  {
    SideFrom(n, 1)
  }

  /** There is only one smallest side. */
  lemma LatticeSideUnique(n: int, s: int, t: int)
    requires IsLatticeSide(n, s) && IsLatticeSide(n, t)
    ensures s == t
  {
  }

  /** The three counter components, fastest first. */
  datatype Cell = Cell(a: int, b: int, c: int)

  /** One tick of the counter: bump the first component; when it reaches
      `s` it goes back to zero and carries into the second, which carries
      into the third in the same way. The third never wraps. */
  function Tick(cell: Cell, s: int): (r: Cell)
    ensures 0 <= cell.a < s && 0 <= cell.b < s ==> 0 <= r.a < s && 0 <= r.b < s && cell.c <= r.c <= cell.c + 1
  {
    if cell.a + 1 == s then
      if cell.b + 1 == s then Cell(0, 0, cell.c + 1) else Cell(0, cell.b + 1, cell.c)
    else Cell(cell.a + 1, cell.b, cell.c)
  }

  /** The counter after `k` ticks from zero: the base-`s` digits of `k`. */
  function Odometer(k: nat, s: int): (r: Cell)
    requires s >= 1
    ensures 0 <= r.a < s && 0 <= r.b < s && 0 <= r.c
  {
    Cell(k % s, (k / s) % s, k / (s * s))
  }

  lemma DivModUnique(k: int, s: int, q: int, r: int)
    requires s > 0 && 0 <= r < s && k == q * s + r
    ensures k / s == q && k % s == r
  {
    var q', r' := k / s, k % s;
    var d := q - q';
    assert q * s == q' * s + d * s;
    assert d * s == r' - r;
    if d >= 1 {
      MulAtLeast(d, s);
    } else if d <= -1 {
      MulAtLeast(-d, s);
    }
  }

  lemma MulAtLeast(d: int, s: int)
    requires d >= 1 && s > 0
    ensures d * s >= s
  {
    assert d * s == (d - 1) * s + s;
    assert (d - 1) * s >= 0;
  }

  /** Dividing by `s` twice is dividing by `s^2`. */
  lemma DivDiv(k: nat, s: int)
    requires s >= 1
    ensures k / (s * s) == (k / s) / s
  {
    var q, r := k / s, k % s;
    var q2, r2 := q / s, q % s;
    assert k == q * s + r;
    assert q == q2 * s + r2;
    Regroup(q2, r2, r, s);
    MulLeq(r2, s - 1, s);
    assert (s - 1) * s == s * s - s;
    DivModUnique(k, s * s, q2, r2 * s + r);
  }

  lemma Regroup(q2: int, r2: int, r: int, s: int)
    ensures (q2 * s + r2) * s + r == q2 * (s * s) + (r2 * s + r)
  {
  }

  lemma MulLeq(a: int, b: int, s: int)
    requires a <= b && s >= 0
    ensures a * s <= b * s
  {
    assert b * s - a * s == (b - a) * s;
  }

  /** Adding one to `k` either bumps its last digit or carries. */
  lemma DigitStep(k: nat, s: int)
    requires s >= 1
    ensures k % s + 1 < s ==> (k + 1) % s == k % s + 1 && (k + 1) / s == k / s
    ensures k % s + 1 == s ==> (k + 1) % s == 0 && (k + 1) / s == k / s + 1
  {
    var q, r := k / s, k % s;
    assert k == q * s + r;
    if r + 1 < s {
      DivModUnique(k + 1, s, q, r + 1);
    } else {
      DivModUnique(k + 1, s, q + 1, 0);
    }
  }

  /** The counter loop keeps the counter equal to the digits of the
      particle index. */
  lemma {:induction false} OdometerTick(k: nat, s: int)
    requires s >= 1
    ensures Tick(Odometer(k, s), s) == Odometer(k + 1, s)
  {
    var q := k / s;
    DigitStep(k, s);
    DivDiv(k, s);
    DivDiv(k + 1, s);
    if k % s + 1 == s {
      DigitStep(q, s);
    }
  }

  /** The index a cell stands for: the digits read back. */
  function CellIndex(cell: Cell, s: int): int
  {
    cell.a + s * cell.b + s * s * cell.c
  }

  /** Different indices get different cells. */
  lemma OdometerIndex(k: nat, s: int)
    requires s >= 1
    ensures CellIndex(Odometer(k, s), s) == k
  {
    var q := k / s;
    assert k == q * s + k % s;
    assert q == (q / s) * s + q % s;
    DivDiv(k, s);
    assert s * s * (q / s) == s * ((q / s) * s);
  }

  /** While `k < s^3` every component of the counter lies in `[0, s)`. */
  lemma OdometerBounds(k: nat, s: int)
    requires s >= 1 && k < Cube(s)
    ensures 0 <= Odometer(k, s).a < s && 0 <= Odometer(k, s).b < s && 0 <= Odometer(k, s).c < s
  {
    var c := k / (s * s);
    assert k == c * (s * s) + k % (s * s);
  }

  /** Centre coordinate of cell component `a`: `(a + 0.5) L / s`. */
  function CellCoordinate(a: int, s: int, len: real): real
    requires s >= 1
  {
    (a as real + 0.5) * len / s as real
  }

  lemma CellCoordinateInjective(a: int, b: int, s: int, len: real)
    requires s >= 1 && len > 0.0
    requires CellCoordinate(a, s, len) == CellCoordinate(b, s, len)
    ensures a == b
  {
    var h := len / s as real;
    assert h > 0.0;
    assert CellCoordinate(a, s, len) == (a as real + 0.5) * h;
    assert CellCoordinate(b, s, len) == (b as real + 0.5) * h;
    assert (a as real - b as real) * h == 0.0;
  }

  /** Cell centres, `(counter + 0.5) L / s` componentwise. */
  function CellCentre(cell: Cell, s: int, len: real): Vec3
    requires s >= 1
  {
    Vec3(CellCoordinate(cell.a, s, len), CellCoordinate(cell.b, s, len), CellCoordinate(cell.c, s, len))
  }

  lemma CellCentreInjective(k: nat, m: nat, s: int, len: real)
    requires s >= 1 && len > 0.0 && k != m
    ensures CellCentre(Odometer(k, s), s, len) != CellCentre(Odometer(m, s), s, len)
  {
    OdometerIndex(k, s);
    OdometerIndex(m, s);
    if CellCentre(Odometer(k, s), s, len) == CellCentre(Odometer(m, s), s, len) {
      CellCoordinateInjective(Odometer(k, s).a, Odometer(m, s).a, s, len);
      CellCoordinateInjective(Odometer(k, s).b, Odometer(m, s).b, s, len);
      CellCoordinateInjective(Odometer(k, s).c, Odometer(m, s).c, s, len);
      assert false;
    }
  }

  /** The array-layout lattice: each cell centre moved by `-L/2`, then by
      `-0.5` in every component. */
  function CentredSite(k: nat, s: int, len: real): Vec3
    requires s >= 1
  {
    Shift(Shift(CellCentre(Odometer(k, s), s, len), -0.5 * len), -0.5)
  }

  /** The particle-object lattice: each cell centre moved by `-0.5` in
      every component, without the `-L/2`. */
  function CornerSite(k: nat, s: int, len: real): Vec3
    requires s >= 1
  {
    Shift(CellCentre(Odometer(k, s), s, len), -0.5)
  }

  lemma ShiftInjective(a: Vec3, b: Vec3, k: real)
    requires Shift(a, k) == Shift(b, k)
    ensures a == b
  {
  }

  /** Different particles get different lattice positions. */
  lemma SitesDistinct(k: nat, m: nat, s: int, len: real)
    requires s >= 1 && len > 0.0 && k != m
    ensures CentredSite(k, s, len) != CentredSite(m, s, len)
    ensures CornerSite(k, s, len) != CornerSite(m, s, len)
  {
    CellCentreInjective(k, m, s, len);
    var p, q := CellCentre(Odometer(k, s), s, len), CellCentre(Odometer(m, s), s, len);
    if CentredSite(k, s, len) == CentredSite(m, s, len) {
      ShiftInjective(Shift(p, -0.5 * len), Shift(q, -0.5 * len), -0.5);
      ShiftInjective(p, q, -0.5 * len);
    }
    if CornerSite(k, s, len) == CornerSite(m, s, len) {
      ShiftInjective(p, q, -0.5);
    }
  }
}
