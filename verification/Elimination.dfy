/** Row reduction, and the two solvers built on it: Gauss-Jordan (audio_tests/dsd_public/analysis.rs)
    and forward elimination with back substitution (tools/gen_beam_error_profiles.py). */
module Elimination {
  import opened Wrappers
  import opened Linear
  import opened Numbers

  // ----- Row operations keep the solutions -----

  /** y is orthogonal to every row. */
  ghost predicate Annihilates(m: Matrix, y: Vector) {
    forall i | 0 <= i < |m| :: Dot(m[i], y) == 0.0
  }

  ghost predicate SameKernel(a: Matrix, b: Matrix, n: nat) {
    |a| == |b| && forall y: Vector | |y| == n :: Annihilates(a, y) <==> Annihilates(b, y)
  }

  lemma SwapRows(m: Matrix, i: nat, j: nat, n: nat)
    requires i < |m| && j < |m|
    ensures SameKernel(m, m[i := m[j]][j := m[i]], n)
  {
    var s := m[i := m[j]][j := m[i]];
    forall y: Vector | |y| == n ensures Annihilates(m, y) <==> Annihilates(s, y) {
      if Annihilates(s, y) {
        forall k | 0 <= k < |m| ensures Dot(m[k], y) == 0.0 {
          assert Dot(s[if k == i then j else if k == j then i else k], y) == 0.0;
        }
      }
    }
  }

  lemma ScaleRow(m: Matrix, i: nat, c: real, n: nat)
    requires i < |m| && c != 0.0
    ensures SameKernel(m, m[i := Scale(c, m[i])], n)
  {
    var s := m[i := Scale(c, m[i])];
    forall y: Vector | |y| == n ensures Annihilates(m, y) <==> Annihilates(s, y) {
      DotScale(c, m[i], y);
      ZeroProduct(c, Dot(m[i], y), Dot(s[i], y));
      forall k | 0 <= k < |m| && k != i ensures s[k] == m[k] {
      }
      if Annihilates(s, y) {
        assert forall k | 0 <= k < |m| :: k == i || Dot(s[k], y) == Dot(m[k], y);
      }
    }
  }

  lemma ZeroProduct(c: real, x: real, p: real)
    requires c != 0.0 && p == c * x
    ensures p == 0.0 <==> x == 0.0
  {
    if p == 0.0 {
      assert x == p / c;
    }
  }

  lemma CombineRows(m: Matrix, i: nat, c: real, p: nat, n: nat)
    requires i < |m| && p < |m| && i != p && |m[i]| == |m[p]|
    ensures SameKernel(m, m[i := Combine(m[i], c, m[p])], n)
  {
    var s := m[i := Combine(m[i], c, m[p])];
    forall y: Vector | |y| == n ensures Annihilates(m, y) <==> Annihilates(s, y) {
      DotCombine(m[i], c, m[p], y);
      if Annihilates(m, y) {
        assert Dot(m[p], y) == 0.0;
      }
      if Annihilates(s, y) {
        assert Dot(s[p], y) == 0.0 && Dot(s[i], y) == 0.0;
        forall k | 0 <= k < |m| ensures Dot(m[k], y) == 0.0 {
          assert k != i ==> Dot(s[k], y) == Dot(m[k], y);
        }
      }
    }
  }

  lemma SameKernelTransitive(a: Matrix, b: Matrix, c: Matrix, n: nat)
    requires SameKernel(a, b, n) && SameKernel(b, c, n)
    ensures SameKernel(a, c, n)
  {
  }

  // ----- Systems of equations -----

  /** Each row followed by its right-hand side. */
  function Augment(m: Matrix, rhs: Vector): (r: Matrix)
    requires |rhs| == |m|
    ensures |r| == |m|
  {
    seq(|m|, i requires 0 <= i < |m| => m[i] + [rhs[i]])
  }

  lemma DotAppend(a: Vector, s: real, x: Vector, t: real)
    requires |a| == |x|
    ensures Dot(a + [s], x + [t]) == Dot(a, x) + s * t
  {
    SumEqual(|a|, Products(a + [s], x + [t]), Products(a, x));
  }

  /** x solves the system exactly when x followed by -1 annihilates the augmented rows. */
  lemma SolutionAnnihilates(m: Matrix, rhs: Vector, x: Vector)
    requires IsMatrix(m, |rhs|, |x|)
    ensures MatVec(m, x) == rhs <==> Annihilates(Augment(m, rhs), x + [-1.0])
  {
    forall i | 0 <= i < |m|
      ensures Dot(Augment(m, rhs)[i], x + [-1.0]) == MatVec(m, x)[i] - rhs[i]
    {
      DotAppend(m[i], rhs[i], x, -1.0);
    }
    if Annihilates(Augment(m, rhs), x + [-1.0]) {
      forall i | 0 <= i < |m| ensures MatVec(m, x)[i] == rhs[i] {
        assert Dot(Augment(m, rhs)[i], x + [-1.0]) == 0.0;
      }
    }
  }

  ghost predicate OnlySolution(m: Matrix, rhs: Vector, x: Vector) {
    && |x| == |rhs| && MatVec(m, x) == rhs
    && forall y: Vector | |y| == |rhs| && MatVec(m, y) == rhs :: y == x
  }

  /** A system with exactly one solution has a matrix that annihilates only zero. */
  lemma OnlySolutionIsRegular(m: Matrix, rhs: Vector, x: Vector, z: Vector)
    requires IsMatrix(m, |rhs|, |rhs|) && OnlySolution(m, rhs, x) && |z| == |rhs| && MatVec(m, z) == Zeros(|rhs|)
    ensures z == Zeros(|rhs|)
  {
    var y := Combine(x, 1.0, z);
    MatVecCombine(m, |rhs|, x, 1.0, z);
    assert MatVec(m, y) == rhs;
    forall i | 0 <= i < |rhs| ensures z[i] == 0.0 {
      assert y[i] == x[i] + 1.0 * z[i];
    }
  }

  // ----- Gauss-Jordan -----

  /** 2^-52, the gap above one in a double. */
  const EPSILON := 1.0 / 4_503_599_627_370_496.0

  /** The first n columns are those of the identity. */
  predicate UnitColumns(m: Matrix, n: nat) {
    forall i: nat, c: nat | i < |m| && c < n :: Entry(m, i, c) == if i == c then 1.0 else 0.0
  }

  // ----- The stages of Gauss-Jordan -----

  function Swapped(a: Matrix, i: nat, j: nat): (r: Matrix)
    requires i < |a| && j < |a|
    ensures |r| == |a|
  {
    a[i := a[j]][j := a[i]]
  }

  /** The last row from pivot on, before end, with the entry of largest magnitude. */
  function LastPivot(a: Matrix, pivot: nat, end: nat): (best: nat)
    requires pivot < end
    ensures pivot <= best < end
    decreases end
  {
    if end == pivot + 1 then pivot
    else
      var best := LastPivot(a, pivot, end - 1);
      if Abs(Entry(a, end - 1, pivot)) >= Abs(Entry(a, best, pivot)) then end - 1 else best
  }

  /** The pivot row brought up and scaled to a leading one. */
  function Lifted(a: Matrix, pivot: nat, best: nat): (r: Matrix)
    requires pivot < |a| && best < |a|
    ensures |r| == |a|
  {
    var s := Swapped(a, pivot, best);
    var divisor := Entry(s, pivot, pivot);
    if divisor == 0.0 then s else s[pivot := Divided(s[pivot], pivot, divisor)]
  }

  /** The pivot column cleared from every other row. */
  function Purged(a: Matrix, pivot: nat): (r: Matrix)
    requires pivot < |a|
    ensures |r| == |a|
  {
    seq(|a|, i requires 0 <= i < |a| => if i == pivot then a[i] else Reduced(a[i], pivot, At(a[i], pivot), a[pivot]))
  }

  /** The augmented matrix after k columns. */
  function JordanStage(a: Matrix, k: nat): (r: Matrix)
    requires k <= |a|
    ensures |r| == |a|
  {
    if k == 0 then a
    else
      var before := JordanStage(a, k - 1);
      Purged(Lifted(before, k - 1, LastPivot(before, k - 1, |a|)), k - 1)
  }

  /** No entry of the column from its diagonal down is beyond EPSILON. */
  predicate Flat(a: Matrix, k: nat) {
    forall i: nat | k <= i < |a| :: Abs(Entry(a, i, k)) <= EPSILON
  }

  /** Some stage has no pivot beyond EPSILON. */
  ghost predicate Stalls(m: Matrix, rhs: Vector)
    requires |rhs| == |m|
  {
    exists k: nat | k < |m| :: Flat(JordanStage(Augment(m, rhs), k), k)
  }

  method SolveLinearSystem(matrix0: Matrix, rhs0: Vector) returns (r: Option<Vector>)
    requires IsMatrix(matrix0, |rhs0|, |rhs0|)
    ensures r.Some? ==> OnlySolution(matrix0, rhs0, r.value)
    ensures r.None? <==> Stalls(matrix0, rhs0)
  {
    hide Flat, JordanStage, Lifted, Purged, LastPivot, UnitColumns, SameKernel, Augment;
    var matrix, rhs, size := matrix0, rhs0, |rhs0|;
    ghost var start := Augment(matrix0, rhs0);
    StartOfJordan(matrix0, rhs0);
    for pivot := 0 to size
      invariant IsMatrix(matrix, size, size) && |rhs| == size
      invariant SameKernel(start, Augment(matrix, rhs), size + 1)
      invariant UnitColumns(matrix, pivot)
      invariant Augment(matrix, rhs) == JordanStage(start, pivot)
      invariant forall k: nat | k < pivot :: !Flat(JordanStage(start, k), k)
    {
      var best := LastLargest(matrix, pivot, size);
      BestIsPivot(matrix, rhs, pivot, best);
      if Abs(matrix[best][pivot]) <= EPSILON {
        return None;
      }
      ghost var before, had, was := Augment(matrix, rhs), matrix, rhs;
      matrix, rhs := NormalizePivot(matrix, rhs, pivot, best);
      SameKernelTransitive(start, before, Augment(matrix, rhs), size + 1);
      before := Augment(matrix, rhs);
      matrix, rhs := ClearColumn(matrix, rhs, pivot);
      SameKernelTransitive(start, before, Augment(matrix, rhs), size + 1);
      NextJordanStage(start, pivot, best, Augment(had, was));
    }
    ReducedSolves(matrix0, rhs0, matrix, rhs);
    r := Some(rhs);
  }

  lemma StartOfJordan(m: Matrix, rhs: Vector)
    requires |rhs| == |m|
    ensures JordanStage(Augment(m, rhs), 0) == Augment(m, rhs) && UnitColumns(m, 0)
    ensures SameKernel(Augment(m, rhs), Augment(m, rhs), |m| + 1)
  {
  }

  lemma NextJordanStage(start: Matrix, pivot: nat, best: nat, before: Matrix)
    requires pivot < |start| && before == JordanStage(start, pivot) && best == LastPivot(before, pivot, |before|)
    ensures JordanStage(start, pivot + 1) == Purged(Lifted(before, pivot, best), pivot)
  {
    hide Purged, Lifted, LastPivot;
  }

  /** The row chosen is the specification's, and the column is flat exactly when its entry is. */
  lemma BestIsPivot(m: Matrix, rhs: Vector, pivot: nat, best: nat)
    requires IsMatrix(m, |rhs|, |rhs|) && pivot <= best < |rhs|
    requires forall i: nat | pivot <= i < |rhs| :: Abs(Entry(m, i, pivot)) <= Abs(m[best][pivot])
    requires forall i: nat | best < i < |rhs| :: Abs(Entry(m, i, pivot)) < Abs(m[best][pivot])
    ensures best == LastPivot(Augment(m, rhs), pivot, |rhs|)
    ensures Abs(m[best][pivot]) <= EPSILON <==> Flat(Augment(m, rhs), pivot)
  {
    var a := Augment(m, rhs);
    AugmentEntries(m, rhs);
    hide Augment, Abs;
    assert forall i: nat | pivot <= i < |rhs| :: Abs(Entry(a, i, pivot)) == Abs(Entry(m, i, pivot));
    LastPivotIs(a, pivot, |rhs|, best);
    if Flat(a, pivot) {
      assert Abs(Entry(a, best, pivot)) <= EPSILON;
    }
  }

  lemma {:induction false} LastPivotIs(a: Matrix, pivot: nat, end: nat, best: nat)
    requires pivot <= best < end
    requires forall i: nat | pivot <= i < end :: Abs(Entry(a, i, pivot)) <= Abs(Entry(a, best, pivot))
    requires forall i: nat | best < i < end :: Abs(Entry(a, i, pivot)) < Abs(Entry(a, best, pivot))
    ensures LastPivot(a, pivot, end) == best
    decreases end
  {
    hide Abs, Entry;
    if end > pivot + 1 && best < end - 1 {
      LastPivotIs(a, pivot, end - 1, best);
    }
  }

  lemma AugmentEntries(m: Matrix, rhs: Vector)
    requires |rhs| == |m|
    ensures forall i: nat, c: nat | i < |m| && c < |m[i]| :: Entry(Augment(m, rhs), i, c) == Entry(m, i, c)
  {
  }

  /** The last row from pivot on whose entry in that column is largest in magnitude. */
  method LastLargest(m: Matrix, pivot: nat, size: nat) returns (best: nat)
    requires IsMatrix(m, size, size) && pivot < size
    ensures pivot <= best < size
    ensures forall i: nat | pivot <= i < size :: Abs(Entry(m, i, pivot)) <= Abs(m[best][pivot])
    ensures forall i: nat | best < i < size :: Abs(Entry(m, i, pivot)) < Abs(m[best][pivot])
  {
    best := pivot;
    for i := pivot + 1 to size
      invariant pivot <= best < i
      invariant forall k: nat | pivot <= k < i :: Abs(Entry(m, k, pivot)) <= Abs(m[best][pivot])
      invariant forall k: nat | best < k < i :: Abs(Entry(m, k, pivot)) < Abs(m[best][pivot])
    {
      if Abs(m[i][pivot]) >= Abs(m[best][pivot]) {
        best := i;
      }
    }
  }

  /** Brings row best up and scales it to a leading one. */
  method NormalizePivot(m: Matrix, b: Vector, pivot: nat, best: nat) returns (matrix: Matrix, rhs: Vector)
    requires IsMatrix(m, |b|, |b|) && pivot <= best < |b| && UnitColumns(m, pivot) && m[best][pivot] != 0.0
    ensures IsMatrix(matrix, |b|, |b|) && |rhs| == |b|
    ensures SameKernel(Augment(m, b), Augment(matrix, rhs), |b| + 1)
    ensures UnitColumns(matrix, pivot) && matrix[pivot][pivot] == 1.0
    ensures Augment(matrix, rhs) == Lifted(Augment(m, b), pivot, best)
  {
    hide Entry, SameKernel, Annihilates, Augment, Lifted, Divided, UnitColumns;
    LiftedIs(m, b, pivot, best);
    matrix := m[pivot := m[best]][best := m[pivot]];
    rhs := b[pivot := b[best]][best := b[pivot]];
    SwapKeepsSystem(m, b, pivot, best);
    ghost var swapped, moved := matrix, rhs;
    var divisor := matrix[pivot][pivot];
    var pivotValues := DivideFrom(matrix[pivot], pivot, divisor);
    matrix := matrix[pivot := pivotValues];
    rhs := rhs[pivot := rhs[pivot] / divisor];
    ScaleKeepsSystem(swapped, moved, pivot);
    SameKernelTransitive(Augment(m, b), Augment(swapped, moved), Augment(matrix, rhs), |b| + 1);
  }

  lemma LiftedIs(m: Matrix, b: Vector, pivot: nat, best: nat)
    requires IsMatrix(m, |b|, |b|) && pivot <= best < |b| && m[best][pivot] != 0.0
    ensures var matrix, rhs := Swapped(m, pivot, best), b[pivot := b[best]][best := b[pivot]];
      var d := matrix[pivot][pivot];
      Augment(matrix[pivot := Divided(matrix[pivot], pivot, d)], rhs[pivot := rhs[pivot] / d]) ==
      Lifted(Augment(m, b), pivot, best)
  {
    var matrix, rhs := Swapped(m, pivot, best), b[pivot := b[best]][best := b[pivot]];
    var d := matrix[pivot][pivot];
    var s := Swapped(Augment(m, b), pivot, best);
    assert s == Augment(matrix, rhs);
    assert s[pivot] == matrix[pivot] + [rhs[pivot]];
    assert Divided(s[pivot], pivot, d) == Divided(matrix[pivot], pivot, d) + [rhs[pivot] / d];
    AugmentReplaced(matrix, rhs, pivot, Divided(matrix[pivot], pivot, d), rhs[pivot] / d);
  }

  lemma SwapKeepsSystem(m: Matrix, b: Vector, pivot: nat, best: nat)
    requires IsMatrix(m, |b|, |b|) && pivot <= best < |b| && UnitColumns(m, pivot)
    ensures var matrix := m[pivot := m[best]][best := m[pivot]];
      && SameKernel(Augment(m, b), Augment(matrix, b[pivot := b[best]][best := b[pivot]]), |b| + 1)
      && UnitColumns(matrix, pivot)
  {
    var a := Augment(m, b);
    var matrix, rhs := m[pivot := m[best]][best := m[pivot]], b[pivot := b[best]][best := b[pivot]];
    assert Augment(matrix, rhs) == a[pivot := a[best]][best := a[pivot]];
    SwapRows(a, pivot, best, |b| + 1);
    forall i: nat, c: nat | i < |m| && c < pivot ensures Entry(matrix, i, c) == if i == c then 1.0 else 0.0 {
      assert Entry(m, i, c) == if i == c then 1.0 else 0.0;
      assert Entry(m, pivot, c) == 0.0 && Entry(m, best, c) == 0.0;
    }
  }

  lemma ScaleKeepsSystem(m: Matrix, b: Vector, pivot: nat)
    requires IsMatrix(m, |b|, |b|) && pivot < |b| && UnitColumns(m, pivot) && m[pivot][pivot] != 0.0
    ensures var d := m[pivot][pivot];
      var r := Divided(m[pivot], pivot, d);
      && SameKernel(Augment(m, b), Augment(m[pivot := r], b[pivot := b[pivot] / d]), |b| + 1)
      && UnitColumns(m[pivot := r], pivot) && r[pivot] == 1.0
  {
    hide SameKernel, Annihilates, Divided, Scale;
    var a, d := Augment(m, b), m[pivot][pivot];
    var r := Divided(m[pivot], pivot, d);
    UnitRow(m, pivot, pivot);
    DividedBefore(m[pivot], pivot, d);
    UnitColumnsKept(m, pivot, pivot, r);
    hide UnitColumns;
    ScaledRow(m[pivot], b[pivot], pivot, d);
    AugmentReplaced(m, b, pivot, r, b[pivot] / d);
    assert a[pivot] == m[pivot] + [b[pivot]];
    hide Augment;
    ScaleRow(a, pivot, 1.0 / d, |b| + 1);
  }

  lemma DividedBefore(row: Vector, from: nat, divisor: real)
    requires divisor != 0.0 && from < |row|
    ensures forall i: nat | i < from :: Divided(row, from, divisor)[i] == row[i]
    ensures Divided(row, from, divisor)[from] == row[from] / divisor
  {
  }

  /** Clears the pivot column from every other row. */
  method ClearColumn(m: Matrix, b: Vector, pivot: nat) returns (matrix: Matrix, rhs: Vector)
    requires IsMatrix(m, |b|, |b|) && pivot < |b| && UnitColumns(m, pivot) && m[pivot][pivot] == 1.0
    ensures IsMatrix(matrix, |b|, |b|) && |rhs| == |b|
    ensures SameKernel(Augment(m, b), Augment(matrix, rhs), |b| + 1)
    ensures UnitColumns(matrix, pivot + 1)
    ensures Augment(matrix, rhs) == Purged(Augment(m, b), pivot)
  {
    hide SameKernel, Annihilates, Augment, Entry, Reduced;
    var pivotValues := m[pivot];
    matrix, rhs := m, b;
    SameKernelReflexive(Augment(m, b), |b| + 1);
    for row := 0 to |b|
      invariant IsMatrix(matrix, |b|, |b|) && |rhs| == |b| && matrix[pivot] == pivotValues
      invariant PurgedTo(m, b, pivot, row, matrix, rhs)
      invariant SameKernel(Augment(m, b), Augment(matrix, rhs), |b| + 1)
      invariant UnitColumns(matrix, pivot)
      invariant ClearedAbove(matrix, pivot, row)
    {
      if row != pivot {
        ghost var before, had := matrix, rhs;
        var factor := matrix[row][pivot];
        var reduced := SubtractFrom(matrix[row], pivot, factor, pivotValues);
        var value := rhs[row] - factor * rhs[pivot];
        matrix := matrix[row := reduced];
        rhs := rhs[row := value];
        ClearKeepsSystem(before, had, pivot, row, factor, value);
        ReducedPivot(before[row], pivot, factor, pivotValues);
        ClearedFurther(before, pivot, row, reduced);
        SameKernelTransitive(Augment(m, b), Augment(before, had), Augment(matrix, rhs), |b| + 1);
      } else {
        PivotIsClear(matrix, pivot);
      }
    }
    AllClear(matrix, pivot);
    AllPurged(m, b, pivot, matrix, rhs);
  }

  /** Rows before row are cleared, the others untouched. */
  ghost predicate PurgedTo(m: Matrix, b: Vector, pivot: nat, row: nat, matrix: Matrix, rhs: Vector)
    requires IsMatrix(m, |b|, |b|) && pivot < |b| && |matrix| == |rhs| == |b|
  {
    forall i | 0 <= i < |b| ::
      if i < row && i != pivot
      then matrix[i] == Reduced(m[i], pivot, m[i][pivot], m[pivot]) && rhs[i] == b[i] - m[i][pivot] * b[pivot]
      else matrix[i] == m[i] && rhs[i] == b[i]
  }

  lemma ReducedPivot(row: Vector, pivot: nat, factor: real, pivotValues: Vector)
    requires pivot < |row| == |pivotValues| && factor == row[pivot] && pivotValues[pivot] == 1.0
    ensures Reduced(row, pivot, factor, pivotValues)[pivot] == 0.0
  {
  }

  lemma AllPurged(m: Matrix, b: Vector, pivot: nat, matrix: Matrix, rhs: Vector)
    requires IsMatrix(m, |b|, |b|) && IsMatrix(matrix, |b|, |b|) && pivot < |b| == |rhs|
    requires PurgedTo(m, b, pivot, |b|, matrix, rhs)
    ensures Augment(matrix, rhs) == Purged(Augment(m, b), pivot)
  {
    var a, left, right := Augment(m, b), Augment(matrix, rhs), Purged(Augment(m, b), pivot);
    hide Reduced;
    forall i | 0 <= i < |b| ensures left[i] == right[i] {
      assert a[i] == m[i] + [b[i]] && a[pivot] == m[pivot] + [b[pivot]] && At(a[i], pivot) == m[i][pivot];
      if i != pivot {
        ReducedAugmented(m[i], b[i], pivot, m[i][pivot], m[pivot], b[pivot], rhs[i]);
      }
    }
  }

  lemma ReducedAugmented(row: Vector, s: real, from: nat, factor: real, p: Vector, t: real, value: real)
    requires from <= |row| == |p| && value == s - factor * t
    ensures Reduced(row + [s], from, factor, p + [t]) == Reduced(row, from, factor, p) + [value]
  {
    var left, right := Reduced(row + [s], from, factor, p + [t]), Reduced(row, from, factor, p) + [value];
    forall i | 0 <= i < |row| + 1 ensures left[i] == right[i] {
      assert At(p + [t], i) == if i < |row| then At(p, i) else t;
    }
  }

  /** In the pivot column, rows before row hold what the identity does. */
  ghost predicate ClearedAbove(m: Matrix, pivot: nat, row: nat) {
    forall i: nat | i < row :: Entry(m, i, pivot) == if i == pivot then 1.0 else 0.0
  }

  lemma SameKernelReflexive(m: Matrix, n: nat)
    ensures SameKernel(m, m, n)
  {
  }

  lemma PivotIsClear(m: Matrix, pivot: nat)
    requires pivot < |m| && pivot < |m[pivot]| && m[pivot][pivot] == 1.0 && ClearedAbove(m, pivot, pivot)
    ensures ClearedAbove(m, pivot, pivot + 1)
  {
  }

  lemma AllClear(m: Matrix, pivot: nat)
    requires UnitColumns(m, pivot) && ClearedAbove(m, pivot, |m|)
    ensures UnitColumns(m, pivot + 1)
  {
  }

  /** Before the pivot, unit columns leave rows from the pivot on with zeros. */
  lemma UnitRow(m: Matrix, pivot: nat, row: nat)
    requires UnitColumns(m, pivot) && pivot <= row < |m|
    ensures forall c: nat | c < pivot :: At(m[row], c) == 0.0
  {
    forall c: nat | c < pivot ensures At(m[row], c) == 0.0 {
      assert Entry(m, row, c) == 0.0;
    }
  }

  lemma UnitColumnsKept(m: Matrix, pivot: nat, row: nat, r: Vector)
    requires UnitColumns(m, pivot) && row < |m| && pivot <= |r|
    requires forall c: nat | c < pivot :: r[c] == At(m[row], c)
    ensures UnitColumns(m[row := r], pivot)
  {
    var k := m[row := r];
    forall i: nat, c: nat | i < |m| && c < pivot ensures Entry(k, i, c) == if i == c then 1.0 else 0.0 {
      assert Entry(m, i, c) == if i == c then 1.0 else 0.0;
    }
  }

  lemma ClearKeepsSystem(m: Matrix, b: Vector, pivot: nat, row: nat, factor: real, value: real)
    requires IsMatrix(m, |b|, |b|) && pivot < |b| && row < |b| && row != pivot && UnitColumns(m, pivot)
    requires value == b[row] - factor * b[pivot]
    ensures var r := Reduced(m[row], pivot, factor, m[pivot]);
      && SameKernel(Augment(m, b), Augment(m[row := r], b[row := value]), |b| + 1)
      && UnitColumns(m[row := r], pivot)
  {
    hide SameKernel, Annihilates, Augment, Reduced, Combine;
    UnitRow(m, pivot, pivot);
    ReducedBefore(m[row], pivot, factor, m[pivot]);
    UnitColumnsKept(m, pivot, row, Reduced(m[row], pivot, factor, m[pivot]));
    CombinedRow(m[row], m[pivot], pivot, factor);
    CombineKeepsSystem(m, b, pivot, row, -factor, value);
  }

  lemma ReducedBefore(row: Vector, from: nat, factor: real, p: Vector)
    requires from <= |row| == |p|
    ensures forall i: nat | i < from :: Reduced(row, from, factor, p)[i] == row[i]
  {
  }

  lemma CombineKeepsSystem(m: Matrix, b: Vector, pivot: nat, row: nat, c: real, value: real)
    requires IsMatrix(m, |b|, |b|) && pivot < |b| && row < |b| && row != pivot && value == b[row] + c * b[pivot]
    ensures SameKernel(Augment(m, b), Augment(m[row := Combine(m[row], c, m[pivot])], b[row := value]), |b| + 1)
  {
    hide SameKernel, Annihilates, Combine;
    var a := Augment(m, b);
    assert a[row] == m[row] + [b[row]] && a[pivot] == m[pivot] + [b[pivot]];
    CombineAppend(m[row], b[row], c, m[pivot], b[pivot], value);
    AugmentReplaced(m, b, row, Combine(m[row], c, m[pivot]), value);
    CombineRows(a, row, c, pivot, |b| + 1);
  }

  lemma AugmentReplaced(m: Matrix, b: Vector, row: nat, r: Vector, value: real)
    requires row < |m| == |b|
    ensures Augment(m[row := r], b[row := value]) == Augment(m, b)[row := r + [value]]
  {
  }

  lemma ClearedFurther(m: Matrix, pivot: nat, row: nat, r: Vector)
    requires row < |m| && row != pivot && pivot < |r| && r[pivot] == 0.0 && ClearedAbove(m, pivot, row)
    ensures ClearedAbove(m[row := r], pivot, row + 1)
  {
    var k := m[row := r];
    forall i: nat | i < row + 1 ensures Entry(k, i, pivot) == if i == pivot then 1.0 else 0.0 {
      assert i < row ==> Entry(m, i, pivot) == if i == pivot then 1.0 else 0.0;
    }
  }

  /** The row with the entries from a column on divided. */
  function Divided(row: Vector, from: nat, divisor: real): (r: Vector)
    requires divisor != 0.0
    ensures |r| == |row|
  {
    seq(|row|, i requires 0 <= i < |row| => if i < from then row[i] else row[i] / divisor)
  }

  /** The row with a multiple of the pivot row subtracted from a column on. */
  function Reduced(row: Vector, from: nat, factor: real, pivotValues: Vector): (r: Vector)
    ensures |r| == |row|
  {
    seq(|row|, i requires 0 <= i < |row| => if i < from then row[i] else row[i] - factor * At(pivotValues, i))
  }

  method DivideFrom(row: Vector, from: nat, divisor: real) returns (r: Vector)
    requires from <= |row| && divisor != 0.0
    ensures r == Divided(row, from, divisor)
  {
    r := row;
    for i := from to |row|
      invariant |r| == |row|
      invariant forall k | 0 <= k < |row| :: r[k] == if from <= k < i then row[k] / divisor else row[k]
    {
      r := r[i := r[i] / divisor];
    }
  }

  method SubtractFrom(row: Vector, from: nat, factor: real, pivotValues: Vector) returns (r: Vector)
    requires from <= |row| == |pivotValues|
    ensures r == Reduced(row, from, factor, pivotValues)
  {
    r := row;
    for i := from to |row|
      invariant |r| == |row|
      invariant forall k | 0 <= k < |row| ::
        r[k] == if k < i then Reduced(row, from, factor, pivotValues)[k] else row[k]
    {
      r := r[i := r[i] - factor * pivotValues[i]];
    }
  }

  /** Columns before from are zero, so dividing from there on scales the whole row. */
  lemma ScaledRow(row: Vector, rhs: real, from: nat, divisor: real)
    requires divisor != 0.0 && from <= |row|
    requires forall c: nat | c < from :: At(row, c) == 0.0
    ensures Divided(row, from, divisor) + [rhs / divisor] == Scale(1.0 / divisor, row + [rhs])
  {
    var r, s := Divided(row, from, divisor) + [rhs / divisor], Scale(1.0 / divisor, row + [rhs]);
    forall i | 0 <= i < |s| ensures r[i] == s[i] {
      DivideIsScale((row + [rhs])[i], divisor);
      if i < from {
        assert At(row, i) == 0.0;
        assert 1.0 / divisor * 0.0 == 0.0;
      }
    }
  }

  lemma DivideIsScale(x: real, d: real)
    requires d != 0.0
    ensures x / d == 1.0 / d * x
  {
  }

  /** Likewise, subtracting from there on combines the whole rows. */
  lemma CombinedRow(row: Vector, p: Vector, from: nat, factor: real)
    requires |row| == |p| && from <= |row|
    requires forall c: nat | c < from :: At(p, c) == 0.0
    ensures Reduced(row, from, factor, p) == Combine(row, -factor, p)
  {
    var r, s := Reduced(row, from, factor, p), Combine(row, -factor, p);
    forall i | 0 <= i < |row| ensures r[i] == s[i] {
      if i < from {
        assert At(p, i) == 0.0;
      }
    }
  }

  lemma CombineAppend(a: Vector, s: real, c: real, b: Vector, t: real, value: real)
    requires |a| == |b| && value == s + c * t
    ensures Combine(a, c, b) + [value] == Combine(a + [s], c, b + [t])
  {
    var l, r := Combine(a, c, b) + [value], Combine(a + [s], c, b + [t]);
    forall i | 0 <= i < |r| ensures l[i] == r[i] {
      assert (a + [s])[i] == if i < |a| then a[i] else s;
      assert At(b + [t], i) == if i < |a| then At(b, i) else t;
    }
  }

  /** When every column is a unit column the right-hand side is the solution. */
  lemma ReducedSolves(m: Matrix, rhs: Vector, matrix: Matrix, x: Vector)
    requires |rhs| == |x| && IsMatrix(m, |x|, |x|) && IsMatrix(matrix, |x|, |x|)
    requires SameKernel(Augment(m, rhs), Augment(matrix, x), |x| + 1) && UnitColumns(matrix, |x|)
    ensures OnlySolution(m, rhs, x)
  {
    var n := |x|;
    forall i | 0 <= i < n ensures matrix[i] == Identity(n)[i] {
      forall c: nat | c < n ensures matrix[i][c] == Identity(n)[i][c] {
        assert Entry(matrix, i, c) == if i == c then 1.0 else 0.0;
      }
    }
    assert matrix == Identity(n);
    forall y: Vector | |y| == n
      ensures MatVec(m, y) == rhs <==> y == x
    {
      SolutionAnnihilates(m, rhs, y);
      SolutionAnnihilates(matrix, x, y);
      MatVecIdentity(n, y);
    }
  }

  // ----- Forward elimination and back substitution -----

  const SINGULAR := 1.0 / 1_000_000_000_000_000_000_000_000_000_000.0

  datatype SolveError = Singular

  /** The first k columns are zero below the diagonal and not zero on it. */
  ghost predicate Triangular(m: Matrix, k: nat) {
    && (forall i: nat, c: nat | c < k && c < i < |m| :: Entry(m, i, c) == 0.0)
    && (forall c: nat | c < k :: Entry(m, c, c) != 0.0)
  }

  // ----- The stages of forward elimination -----

  /** The first row from column on, before end, with the entry of largest magnitude. */
  function FirstPivot(a: Matrix, column: nat, end: nat): (best: nat)
    requires column < end
    ensures column <= best < end
    decreases end
  {
    if end == column + 1 then column
    else
      var best := FirstPivot(a, column, end - 1);
      if Abs(Entry(a, end - 1, column)) > Abs(Entry(a, best, column)) then end - 1 else best
  }

  /** The column cleared below its diagonal. */
  function Eliminated(a: Matrix, column: nat): (r: Matrix)
    requires column < |a|
    ensures |r| == |a|
  {
    seq(|a|, i requires 0 <= i < |a| =>
      if i <= column || Entry(a, column, column) == 0.0 then a[i]
      else Reduced(a[i], column, At(a[i], column) / Entry(a, column, column), a[column]))
  }

  /** The augmented matrix after k columns. */
  function ForwardStage(a: Matrix, k: nat): (r: Matrix)
    requires k <= |a|
    ensures |r| == |a|
  {
    if k == 0 then a
    else
      var before := ForwardStage(a, k - 1);
      Eliminated(Swapped(before, k - 1, FirstPivot(before, k - 1, |a|)), k - 1)
  }

  /** Every entry of the column from its diagonal down is below SINGULAR. */
  predicate Weightless(a: Matrix, k: nat) {
    forall i: nat | k <= i < |a| :: Abs(Entry(a, i, k)) < SINGULAR
  }

  /** Some stage has no pivot of weight. */
  ghost predicate Collapses(m: Matrix, rhs: Vector)
    requires |rhs| == |m|
  {
    exists k: nat | k < |m| :: Weightless(ForwardStage(Augment(m, rhs), k), k)
  }

  method Solve(matrix: Matrix, rhs: Vector) returns (r: Result<Vector, SolveError>)
    requires IsMatrix(matrix, |rhs|, |rhs|)
    ensures r.Ok? ==> OnlySolution(matrix, rhs, r.value)
    ensures r.Err? <==> Collapses(matrix, rhs)
  {
    hide SameKernel, Annihilates, Triangular, SolvedFrom, ForcedFrom, ForwardStage, Eliminated, FirstPivot, Weightless;
    var size := |rhs|;
    var augmented := Augment(matrix, rhs);
    ghost var start := augmented;
    TriangularStart(augmented);
    StartOfForward(start);
    SameKernelReflexive(augmented, size + 1);
    for column := 0 to size
      invariant IsMatrix(augmented, size, size + 1)
      invariant SameKernel(start, augmented, size + 1)
      invariant Triangular(augmented, column)
      invariant augmented == ForwardStage(start, column)
      invariant forall k: nat | k < column :: !Weightless(ForwardStage(start, k), k)
    {
      ghost var before := augmented;
      var pivot := FirstLargest(augmented, column, size);
      FirstIsPivot(augmented, column, pivot);
      augmented := augmented[column := augmented[pivot]][pivot := augmented[column]];
      SwapRows(before, column, pivot, size + 1);
      SwapKeepsTriangle(before, column, pivot);
      SameKernelTransitive(start, before, augmented, size + 1);
      NextForwardStage(start, column, pivot, before);
      var divisor := augmented[column][column];
      if Abs(divisor) < SINGULAR {
        return Err(Singular);
      }
      before := augmented;
      augmented := EliminateBelow(augmented, column, size);
      SameKernelTransitive(start, before, augmented, size + 1);
    }
    var result := BackSubstitute(augmented, size);
    KernelIsSolution(matrix, rhs, augmented, result);
    r := Ok(result);
  }

  lemma StartOfForward(start: Matrix)
    ensures ForwardStage(start, 0) == start
  {
  }

  lemma NextForwardStage(start: Matrix, column: nat, pivot: nat, before: Matrix)
    requires column < |start| && before == ForwardStage(start, column) && pivot == FirstPivot(before, column, |before|)
    ensures ForwardStage(start, column + 1) == Eliminated(Swapped(before, column, pivot), column)
  {
    hide Eliminated, FirstPivot;
  }

  /** The row chosen is the specification's, and the column is weightless exactly when its entry is. */
  lemma FirstIsPivot(a: Matrix, column: nat, best: nat)
    requires column <= best < |a| && column < |a[best]|
    requires forall i: nat | column <= i < |a| :: Abs(Entry(a, i, column)) <= Abs(a[best][column])
    requires forall i: nat | column <= i < best :: Abs(Entry(a, i, column)) < Abs(a[best][column])
    ensures best == FirstPivot(a, column, |a|)
    ensures Abs(a[best][column]) < SINGULAR <==> Weightless(a, column)
  {
    hide Abs;
    FirstPivotIs(a, column, |a|, best);
    if Weightless(a, column) {
      assert Abs(Entry(a, best, column)) < SINGULAR;
    }
  }

  lemma {:induction false} FirstPivotIs(a: Matrix, column: nat, end: nat, best: nat)
    requires column <= best < end
    requires forall i: nat | column <= i < end :: Abs(Entry(a, i, column)) <= Abs(Entry(a, best, column))
    requires forall i: nat | column <= i < best :: Abs(Entry(a, i, column)) < Abs(Entry(a, best, column))
    ensures FirstPivot(a, column, end) == best
    decreases end
  {
    hide Abs, Entry;
    if end > column + 1 {
      if best < end - 1 {
        FirstPivotIs(a, column, end - 1, best);
      }
    }
  }

  lemma TriangularStart(m: Matrix)
    ensures Triangular(m, 0)
  {
  }

  lemma KernelIsSolution(matrix: Matrix, rhs: Vector, reduced: Matrix, x: Vector)
    requires IsMatrix(matrix, |rhs|, |rhs|) && |x| == |rhs|
    requires SameKernel(Augment(matrix, rhs), reduced, |rhs| + 1)
    requires forall y: Vector | |y| == |rhs| :: Annihilates(reduced, y + [-1.0]) <==> y == x
    ensures OnlySolution(matrix, rhs, x)
  {
    forall y: Vector | |y| == |rhs| ensures MatVec(matrix, y) == rhs <==> y == x {
      SolutionAnnihilates(matrix, rhs, y);
    }
  }

  /** The first row from column on whose entry in that column is largest in magnitude. */
  method FirstLargest(m: Matrix, column: nat, size: nat) returns (best: nat)
    requires IsMatrix(m, size, size + 1) && column < size
    ensures column <= best < size
    ensures forall i: nat | column <= i < size :: Abs(Entry(m, i, column)) <= Abs(m[best][column])
    ensures forall i: nat | column <= i < best :: Abs(Entry(m, i, column)) < Abs(m[best][column])
  {
    best := column;
    for i := column + 1 to size
      invariant column <= best < i
      invariant forall k: nat | column <= k < i :: Abs(Entry(m, k, column)) <= Abs(m[best][column])
      invariant forall k: nat | column <= k < best :: Abs(Entry(m, k, column)) < Abs(m[best][column])
    {
      if Abs(m[i][column]) > Abs(m[best][column]) {
        best := i;
      }
    }
  }

  lemma SwapKeepsTriangle(m: Matrix, column: nat, pivot: nat)
    requires Triangular(m, column) && column <= pivot < |m|
    ensures Triangular(m[column := m[pivot]][pivot := m[column]], column)
  {
    var s := m[column := m[pivot]][pivot := m[column]];
    forall i: nat, c: nat | c < column && c < i < |m| ensures Entry(s, i, c) == 0.0 {
      assert Entry(m, i, c) == 0.0 && Entry(m, column, c) == 0.0 && Entry(m, pivot, c) == 0.0;
    }
    forall c: nat | c < column ensures Entry(s, c, c) != 0.0 {
      assert Entry(m, c, c) != 0.0;
    }
  }

  method EliminateBelow(m: Matrix, column: nat, size: nat) returns (augmented: Matrix)
    requires IsMatrix(m, size, size + 1) && column < size && Triangular(m, column) && m[column][column] != 0.0
    ensures IsMatrix(augmented, size, size + 1)
    ensures SameKernel(m, augmented, size + 1) && Triangular(augmented, column + 1)
    ensures augmented == Eliminated(m, column)
  {
    hide SameKernel, Annihilates, Triangular;
    augmented := m;
    SameKernelReflexive(m, size + 1);
    var divisor := m[column][column];
    for row := column + 1 to size
      invariant IsMatrix(augmented, size, size + 1) && augmented[column] == m[column]
      invariant SameKernel(m, augmented, size + 1)
      invariant Triangular(augmented, column)
      invariant ClearedBelow(augmented, column, row)
      invariant forall i: nat | i < size :: augmented[i] == if i < row then Eliminated(m, column)[i] else m[i]
    {
      var factor := augmented[row][column] / divisor;
      if factor == 0.0 {
        NothingReduced(m[row], column, factor, m[column]);
        ZeroQuotient(augmented[row][column], divisor, factor);
        ClearedOneMore(augmented, column, row, augmented[row]);
        assert augmented[row := augmented[row]] == augmented;
        continue;
      }
      ghost var before := augmented;
      var reduced := SubtractFrom(augmented[row], column, factor, augmented[column]);
      augmented := augmented[row := reduced];
      EliminateRow(before, column, row, size, factor);
      SameKernelTransitive(m, before, augmented, size + 1);
      ExactFactor(before[row][column], divisor, factor);
      ClearedOneMore(before, column, row, reduced);
    }
    TriangleGrows(augmented, column);
  }

  lemma NothingReduced(row: Vector, from: nat, factor: real, p: Vector)
    requires factor == 0.0
    ensures Reduced(row, from, factor, p) == row
  {
  }

  /** In this column, rows strictly between the diagonal and row are zero. */
  ghost predicate ClearedBelow(m: Matrix, column: nat, row: nat) {
    forall i: nat | column < i < row :: Entry(m, i, column) == 0.0
  }

  lemma ClearedOneMore(m: Matrix, column: nat, row: nat, r: Vector)
    requires row < |m| && column < |r| && r[column] == 0.0 && ClearedBelow(m, column, row)
    ensures ClearedBelow(m[row := r], column, row + 1)
  {
    var k := m[row := r];
    forall i: nat | column < i < row + 1 ensures Entry(k, i, column) == 0.0 {
      assert i < row ==> Entry(m, i, column) == 0.0;
    }
  }

  lemma ZeroQuotient(x: real, d: real, q: real)
    requires d != 0.0 && q == x / d && q == 0.0
    ensures x == 0.0
  {
    assert x == q * d;
  }

  lemma ExactFactor(x: real, d: real, q: real)
    requires d != 0.0 && q == x / d
    ensures x - q * d == 0.0
  {
  }

  lemma TriangleGrows(m: Matrix, column: nat)
    requires Triangular(m, column) && Entry(m, column, column) != 0.0
    requires ClearedBelow(m, column, |m|)
    ensures Triangular(m, column + 1)
  {
  }

  lemma EliminateRow(m: Matrix, column: nat, row: nat, size: nat, factor: real)
    requires IsMatrix(m, size, size + 1) && column < row < size && Triangular(m, column)
    ensures var r := Reduced(m[row], column, factor, m[column]);
      SameKernel(m, m[row := r], size + 1) && Triangular(m[row := r], column)
  {
    hide SameKernel, Annihilates, Reduced, Combine;
    ReducedBefore(m[row], column, factor, m[column]);
    TriangleKept(m, column, row, Reduced(m[row], column, factor, m[column]));
    forall c: nat | c < column ensures At(m[column], c) == 0.0 {
      assert Entry(m, column, c) == 0.0;
    }
    CombinedRow(m[row], m[column], column, factor);
    CombineRows(m, row, -factor, column, size + 1);
  }

  lemma TriangleKept(m: Matrix, column: nat, row: nat, r: Vector)
    requires Triangular(m, column) && column < row < |m| && column <= |r|
    requires forall i: nat | i < column :: r[i] == At(m[row], i)
    ensures Triangular(m[row := r], column)
  {
    var k := m[row := r];
    forall i: nat, c: nat | c < column && c < i < |m| ensures Entry(k, i, c) == 0.0 {
      assert Entry(m, i, c) == 0.0;
    }
    forall c: nat | c < column ensures Entry(k, c, c) != 0.0 {
      assert Entry(m, c, c) != 0.0;
    }
  }

  /** The products from lo up to hi. */
  function TailDot(a: Vector, x: Vector, lo: nat, hi: nat): real
    decreases hi - lo
  {
    if lo >= hi then 0.0 else At(a, lo) * At(x, lo) + TailDot(a, x, lo + 1, hi)
  }

  lemma {:induction false} TailDotSame(a: Vector, x: Vector, y: Vector, lo: nat, hi: nat)
    requires forall i: nat | lo <= i < hi :: At(x, i) == At(y, i)
    ensures TailDot(a, x, lo, hi) == TailDot(a, y, lo, hi)
    decreases hi - lo
  {
    if lo < hi {
      TailDotSame(a, x, y, lo + 1, hi);
    }
  }

  lemma {:induction false} TailDotIsRest(a: Vector, x: Vector, k: nat, n: nat)
    requires k <= n
    ensures Sum(n, Products(a, x)) == Sum(k, Products(a, x)) + TailDot(a, x, k, n)
    decreases n - k
  {
    if k < n {
      TailDotIsRest(a, x, k + 1, n);
    }
  }

  /** The equation of an augmented row that is zero before column k. */
  lemma RowEquation(a: Vector, x: Vector, k: nat, n: nat)
    requires |a| == n + 1 && |x| == n && k <= n
    requires forall c: nat | c < k :: At(a, c) == 0.0
    ensures Dot(a, x + [-1.0]) == TailDot(a, x, k, n) - a[n]
  {
    var y := x + [-1.0];
    SumZero(k, Products(a, y));
    TailDotIsRest(a, y, k, n);
    TailDotSame(a, x, y, k, n);
    assert Sum(n + 1, Products(a, y)) == Sum(n, Products(a, y)) + a[n] * -1.0;
  }

  method BackSubstitute(m: Matrix, size: nat) returns (result: Vector)
    requires IsMatrix(m, size, size + 1) && Triangular(m, size)
    ensures |result| == size
    ensures forall y: Vector | |y| == size :: Annihilates(m, y + [-1.0]) <==> y == result
  {
    result := Zeros(size);
    for row := size downto 0
      invariant |result| == size
      invariant SolvedFrom(m, size, row, result) && ForcedFrom(m, size, row, result)
    {
      assert Entry(m, row, row) != 0.0;
      var remainder := m[row][size] - TailDot(m[row], result, row + 1, size);
      ghost var before := result;
      result := result[row := remainder / m[row][row]];
      SubstituteRow(m, size, row, before, result);
    }
    SubstitutionSolves(m, size, result);
  }

  lemma SubstitutionSolves(m: Matrix, size: nat, x: Vector)
    requires IsMatrix(m, size, size + 1) && Triangular(m, size) && |x| == size
    requires SolvedFrom(m, size, 0, x) && ForcedFrom(m, size, 0, x)
    ensures forall y: Vector | |y| == size :: Annihilates(m, y + [-1.0]) <==> y == x
  {
    hide Triangular;
    forall k: nat | k < size ensures Dot(m[k], x + [-1.0]) == 0.0 {
      ZeroBeforeDiagonal(m, size, k);
      RowEquation(m[k], x, k, size);
    }
    forall y: Vector | |y| == size && Annihilates(m, y + [-1.0]) ensures y == x {
      assert AgreeFrom(x, y, 0);
    }
  }

  lemma ZeroBeforeDiagonal(m: Matrix, size: nat, k: nat)
    requires IsMatrix(m, size, size + 1) && Triangular(m, size) && k < size
    ensures forall c: nat | c < k :: At(m[k], c) == 0.0
  {
    forall c: nat | c < k ensures At(m[k], c) == 0.0 {
      assert Entry(m, k, c) == 0.0;
    }
  }

  /** The equations from row on hold of x. */
  ghost predicate SolvedFrom(m: Matrix, size: nat, row: nat, x: Vector)
    requires IsMatrix(m, size, size + 1)
  {
    forall k: nat | row <= k < size :: TailDot(m[k], x, k, size) == m[k][size]
  }

  /** Every solution agrees with x from row on. */
  ghost predicate ForcedFrom(m: Matrix, size: nat, row: nat, x: Vector)
    requires |x| == size
  {
    forall y: Vector | |y| == size && Annihilates(m, y + [-1.0]) :: AgreeFrom(x, y, row)
  }

  ghost predicate AgreeFrom(x: Vector, y: Vector, row: nat)
    requires |x| == |y|
  {
    forall k: nat | row <= k < |x| :: x[k] == y[k]
  }

  /** One more unknown is determined, and by every solution alike. */
  lemma SubstituteRow(m: Matrix, size: nat, row: nat, before: Vector, result: Vector)
    requires IsMatrix(m, size, size + 1) && Triangular(m, size) && row < size && |before| == |result| == size
    requires m[row][row] != 0.0
    requires result == before[row := (m[row][size] - TailDot(m[row], before, row + 1, size)) / m[row][row]]
    requires SolvedFrom(m, size, row + 1, before) && ForcedFrom(m, size, row + 1, before)
    ensures SolvedFrom(m, size, row, result) && ForcedFrom(m, size, row, result)
  {
    hide Triangular, Annihilates, TailDot;
    QuotientSolves(m[row], before, row, size);
    forall k: nat | row <= k < size ensures TailDot(m[k], result, k, size) == m[k][size] {
      if k > row {
        TailDotSame(m[k], before, result, k, size);
      }
    }
    forall y: Vector | |y| == size && Annihilates(m, y + [-1.0]) ensures AgreeFrom(result, y, row) {
      assert AgreeFrom(before, y, row + 1);
      SolutionAtRow(m, size, row, y);
      RowForces(m[row], result, y, row, size);
    }
  }

  lemma QuotientSolves(a: Vector, x: Vector, row: nat, size: nat)
    requires |a| == size + 1 && |x| == size && row < size && a[row] != 0.0
    ensures TailDot(a, x[row := (a[size] - TailDot(a, x, row + 1, size)) / a[row]], row, size) == a[size]
  {
    hide TailDot;
    var target := a[size] - TailDot(a, x, row + 1, size);
    var y := x[row := target / a[row]];
    TailDotSame(a, x, y, row + 1, size);
    TailDotStep(a, y, row, size);
    DivideBack(target, a[row]);
  }

  lemma RowForces(a: Vector, x: Vector, y: Vector, row: nat, size: nat)
    requires |a| == size + 1 && |x| == |y| == size && row < size && a[row] != 0.0
    requires AgreeFrom(x, y, row + 1) && TailDot(a, x, row, size) == TailDot(a, y, row, size)
    ensures x[row] == y[row]
  {
    hide TailDot;
    TailDotSame(a, x, y, row + 1, size);
    TailDotStep(a, x, row, size);
    TailDotStep(a, y, row, size);
    UniqueQuotient(a[row], x[row], y[row], a[row] * x[row]);
  }

  lemma DivideBack(x: real, d: real)
    requires d != 0.0
    ensures d * (x / d) == x
  {
  }

  lemma TailDotStep(a: Vector, x: Vector, lo: nat, hi: nat)
    requires lo < hi && lo < |a| && lo < |x|
    ensures TailDot(a, x, lo, hi) == a[lo] * x[lo] + TailDot(a, x, lo + 1, hi)
  {
  }

  lemma SolutionAtRow(m: Matrix, size: nat, row: nat, y: Vector)
    requires IsMatrix(m, size, size + 1) && Triangular(m, size) && row < size && |y| == size
    requires Annihilates(m, y + [-1.0])
    ensures TailDot(m[row], y, row, size) == m[row][size]
  {
    hide Triangular, TailDot, Dot;
    ZeroBeforeDiagonal(m, size, row);
    RowEquation(m[row], y, row, size);
    assert Dot(m[row], y + [-1.0]) == 0.0;
  }

  lemma UniqueQuotient(d: real, x: real, y: real, p: real)
    requires d != 0.0 && d * x == p && d * y == p
    ensures x == y
  {
    assert x == p / d;
    assert y == p / d;
  }
}
