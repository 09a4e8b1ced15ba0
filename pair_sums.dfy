/** Sums of a pair term `f(i, j)` over the particles of a box: the
    per-particle sum that skips `j == i`, the whole-box sum of those, and
    the sum over unordered pairs. The engine's energies, virials and
    force components are all instances. */
module PairSums {

  /** The value a pair term gives for particle `i` and partner `j`. */
  type PairTerm = (nat, nat) -> real

  /** `sum_{j < n, j != i} f(i, j)`: the loop of one particle over its
      partners, skipping itself. */
  function Row(f: PairTerm, i: nat, n: nat): real
  {
    if n == 0 then 0.0
    else Row(f, i, n - 1) + (if n - 1 == i then 0.0 else f(i, n - 1))
  }

  /** `sum_{a < m} Row(f, a, n)`. */
  function Rows(f: PairTerm, n: nat, m: nat): real
  {
    if m == 0 then 0.0 else Rows(f, n, m - 1) + Row(f, m - 1, n)
  }

  /** Adding row `m` to the sum of the rows before it. */
  lemma RowsStep(f: PairTerm, n: nat, m: nat, sum: real, row: real)
    requires sum == Rows(f, n, m) && row == Row(f, m, n)
    ensures sum + row == Rows(f, n, m + 1)
  {
  }

  /** Sum of every particle's row: twice the pair sum for a symmetric term. */
  function Total(f: PairTerm, n: nat): real
  {
    Rows(f, n, n)
  }

  /** `sum_{a < m} f(a, k)`: a column. */
  function Column(f: PairTerm, k: nat, m: nat): real
  {
    if m == 0 then 0.0 else Column(f, k, m - 1) + f(m - 1, k)
  }

  /** `sum_{j < k < n} f(k, j)`: every unordered pair once. */
  function Pairs(f: PairTerm, n: nat): real
  {
    if n == 0 then 0.0 else Pairs(f, n - 1) + Row(f, n - 1, n - 1)
  }

  ghost predicate Symmetric(f: PairTerm)
  {
    forall a: nat, b: nat :: f(a, b) == f(b, a)
  }

  ghost predicate Antisymmetric(f: PairTerm)
  {
    forall a: nat, b: nat :: f(a, b) == -f(b, a)
  }

  /** `f` and `g` differ at most in the row and the column of particle `i`. */
  ghost predicate AgreeAwayFrom(f: PairTerm, g: PairTerm, i: nat)
  {
    forall a: nat, b: nat :: a != i && b != i ==> f(a, b) == g(a, b)
  }

  ghost predicate Agree(f: PairTerm, g: PairTerm)
  {
    forall a: nat, b: nat :: f(a, b) == g(a, b)
  }

  /** Adding particle `n` adds `f(a, n)` to the row of every older `a`, so
      the rows of the first `m` particles grow by a column. */
  lemma {:induction false} RowsGrow(f: PairTerm, n: nat, m: nat)
    requires m <= n
    ensures Rows(f, n + 1, m) == Rows(f, n, m) + Column(f, n, m)
  {
    if m > 0 {
      RowsGrow(f, n, m - 1);
    }
  }

  /** The whole-box sum counts each pair from both ends:
      `Total(f, n) == sum_{k < n} (Row(f, k, k) + Column(f, k, k))`. */
  function BothEnds(f: PairTerm, n: nat): real
  {
    if n == 0 then 0.0 else BothEnds(f, n - 1) + Row(f, n - 1, n - 1) + Column(f, n - 1, n - 1)
  }

  lemma {:induction false} TotalIsBothEnds(f: PairTerm, n: nat)
    ensures Total(f, n) == BothEnds(f, n)
  {
    if n > 0 {
      TotalIsBothEnds(f, n - 1);
      RowsGrow(f, n - 1, n - 1);
    }
  }

  lemma {:induction false} ColumnIsRow(f: PairTerm, k: nat, m: nat)
    requires Symmetric(f) && m <= k
    ensures Column(f, k, m) == Row(f, k, m)
  {
    if m > 0 {
      ColumnIsRow(f, k, m - 1);
      assert f(m - 1, k) == f(k, m - 1);
    }
  }

  lemma {:induction false} ColumnIsMinusRow(f: PairTerm, k: nat, m: nat)
    requires Antisymmetric(f) && m <= k
    ensures Column(f, k, m) == -Row(f, k, m)
  {
    if m > 0 {
      ColumnIsMinusRow(f, k, m - 1);
      assert f(m - 1, k) == -f(k, m - 1);
    }
  }

  /** For a symmetric term, the sum over all particles of their rows is
      twice the sum over unordered pairs: halving it counts each pair once. */
  lemma {:induction false} HalfTotalIsPairs(f: PairTerm, n: nat)
    requires Symmetric(f)
    ensures Total(f, n) / 2.0 == Pairs(f, n)
  {
    TotalIsBothEnds(f, n);
    BothEndsSymmetric(f, n);
  }

  lemma {:induction false} BothEndsSymmetric(f: PairTerm, n: nat)
    requires Symmetric(f)
    ensures BothEnds(f, n) == 2.0 * Pairs(f, n)
  {
    if n > 0 {
      BothEndsSymmetric(f, n - 1);
      ColumnIsRow(f, n - 1, n - 1);
    }
  }

  /** For an antisymmetric term (pair forces) the rows cancel: the
      whole-box sum is zero. */
  lemma {:induction false} AntisymmetricTotalVanishes(f: PairTerm, n: nat)
    requires Antisymmetric(f)
    ensures Total(f, n) == 0.0
  {
    TotalIsBothEnds(f, n);
    BothEndsAntisymmetric(f, n);
  }

  lemma {:induction false} BothEndsAntisymmetric(f: PairTerm, n: nat)
    requires Antisymmetric(f)
    ensures BothEnds(f, n) == 0.0
  {
    if n > 0 {
      BothEndsAntisymmetric(f, n - 1);
      ColumnIsMinusRow(f, n - 1, n - 1);
    }
  }

  /** A row away from `i` sees only the single entry in column `i` change. */
  lemma {:induction false} RowAwayFrom(f: PairTerm, g: PairTerm, i: nat, k: nat, m: nat)
    requires AgreeAwayFrom(f, g, i) && k != i
    ensures Row(g, k, m) - Row(f, k, m) == (if i < m then g(k, i) - f(k, i) else 0.0)
  {
    if m > 0 {
      RowAwayFrom(f, g, i, k, m - 1);
    }
  }

  /** Pairs among particles before `i` do not see `i` at all. */
  lemma {:induction false} PairsBefore(f: PairTerm, g: PairTerm, i: nat, n: nat)
    requires AgreeAwayFrom(f, g, i) && n <= i
    ensures Pairs(g, n) == Pairs(f, n)
  {
    if n > 0 {
      PairsBefore(f, g, i, n - 1);
      RowAwayFrom(f, g, i, n - 1, n - 1);
    }
  }

  /** Changing only the pair terms of particle `i` changes the pair sum by
      exactly the change of `i`'s own row. This is why the Monte Carlo
      driver can track the total energy by `newEnergy - oldEnergy`. */
  lemma {:induction false} MoveOne(f: PairTerm, g: PairTerm, i: nat, n: nat)
    requires Symmetric(f) && Symmetric(g) && AgreeAwayFrom(f, g, i) && i < n
    ensures Pairs(g, n) - Pairs(f, n) == Row(g, i, n) - Row(f, i, n)
  {
    if n == i + 1 {
      PairsBefore(f, g, i, i);
    } else {
      MoveOne(f, g, i, n - 1);
      RowAwayFrom(f, g, i, n - 1, n - 1);
      assert g(n - 1, i) == g(i, n - 1) && f(n - 1, i) == f(i, n - 1);
    }
  }

  /** The same fact for the halved whole-box sums the engine returns. */
  lemma HalfTotalMoveOne(f: PairTerm, g: PairTerm, i: nat, n: nat)
    requires Symmetric(f) && Symmetric(g) && AgreeAwayFrom(f, g, i) && i < n
    ensures Total(g, n) / 2.0 == Total(f, n) / 2.0 + (Row(g, i, n) - Row(f, i, n))
  {
    MoveOne(f, g, i, n);
    HalfTotalIsPairs(f, n);
    HalfTotalIsPairs(g, n);
  }

  /** Equal terms give equal rows. */
  lemma {:induction false} RowsAgree(f: PairTerm, g: PairTerm, i: nat, n: nat)
    requires Agree(f, g)
    ensures Row(f, i, n) == Row(g, i, n)
  {
    if n > 0 {
      RowsAgree(f, g, i, n - 1);
    }
  }

  lemma {:induction false} TotalsAgree(f: PairTerm, g: PairTerm, n: nat, m: nat)
    requires Agree(f, g)
    ensures Rows(f, n, m) == Rows(g, n, m)
  {
    if m > 0 {
      TotalsAgree(f, g, n, m - 1);
      RowsAgree(f, g, m - 1, n);
    }
  }
}
