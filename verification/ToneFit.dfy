/** Least-squares tone fitting (audio_tests/dsd_public/analysis.rs): the normal equations are
    accumulated sample by sample, mirrored and solved, and what comes out is the best fit. */
module ToneFit {
  import opened Wrappers
  import opened Linear
  import opened Elimination

  // ----- What a best fit is -----

  /** What coefficients c leave unexplained of the samples s, one row of b per sample. */
  ghost function Residual(b: Matrix, s: Vector, c: Vector): Vector {
    Combine(s, -1.0, MatVec(b, c))
  }

  ghost function SquaredError(b: Matrix, s: Vector, c: Vector): real {
    Dot(Residual(b, s, c), Residual(b, s, c))
  }

  /** The residual is orthogonal to every column, and any other coefficients do worse. */
  ghost predicate BestFit(b: Matrix, s: Vector, width: nat, c: Vector) {
    && |c| == width
    && MatVec(Transpose(b, width), Residual(b, s, c)) == Zeros(width)
    && forall d: Vector | |d| == width && d != c :: SquaredError(b, s, c) < SquaredError(b, s, d)
  }

  /** Gauss-Jordan meets no pivot beyond EPSILON in some column of the normal equations. */
  ghost predicate NormalEquationsStall(b: Matrix, s: Vector, width: nat) {
    Stalls(MatMul(Transpose(b, width), b, width), MatVec(Transpose(b, width), s))
  }

  lemma DotOfSum(a: Vector, b: Vector)
    requires |a| == |b|
    ensures var c := Combine(a, 1.0, b);
      Dot(c, c) == Dot(a, a) + 2.0 * Dot(a, b) + Dot(b, b)
  {
    var c := Combine(a, 1.0, b);
    DotCombine(a, 1.0, b, c);
    DotCommutes(a, c);
    DotCommutes(b, c);
    DotCombine(a, 1.0, b, a);
    DotCombine(a, 1.0, b, b);
    DotCommutes(a, b);
  }

  /** Changing the coefficients by z changes the squared error by what the columns make of z. */
  lemma ErrorGrows(b: Matrix, s: Vector, width: nat, c: Vector, d: Vector)
    requires IsMatrix(b, |s|, width) && |c| == |d| == width
    requires MatVec(Transpose(b, width), Residual(b, s, c)) == Zeros(width)
    ensures var bz := MatVec(b, Combine(c, -1.0, d));
      SquaredError(b, s, d) == SquaredError(b, s, c) + Dot(bz, bz)
  {
    var z := Combine(c, -1.0, d);
    var e, bz := Residual(b, s, c), MatVec(b, z);
    MatVecCombine(b, width, c, -1.0, d);
    assert Residual(b, s, d) == Combine(e, 1.0, bz);
    DotOfSum(e, bz);
    Adjoint(b, width, z, e);
    DotZeros(width, z);
  }

  /** A solution of regular normal equations is the one best fit. */
  lemma NormalEquationsFit(b: Matrix, s: Vector, width: nat, c: Vector)
    requires IsMatrix(b, |s|, width)
    requires var t := Transpose(b, width);
      OnlySolution(MatMul(t, b, width), MatVec(t, s), c)
    ensures BestFit(b, s, width, c)
  {
    var t := Transpose(b, width);
    var g := MatMul(t, b, width);
    MatMulVec(t, b, |s|, width, c);
    MatVecCombine(t, |s|, s, -1.0, MatVec(b, c));
    assert MatVec(t, Residual(b, s, c)) == Zeros(width);
    forall d: Vector | |d| == width && d != c ensures SquaredError(b, s, c) < SquaredError(b, s, d) {
      var z := Combine(c, -1.0, d);
      var bz := MatVec(b, z);
      ErrorGrows(b, s, width, c, d);
      DotSelf(bz);
      if bz == Zeros(|s|) {
        MatMulVec(t, b, |s|, width, z);
        MatVecZeros(t, |s|);
        OnlySolutionIsRegular(g, MatVec(t, s), c, z);
        DifferenceIsZero(c, d);
      }
    }
  }

  lemma DifferenceIsZero(c: Vector, d: Vector)
    requires |c| == |d| && Combine(c, -1.0, d) == Zeros(|c|)
    ensures c == d
  {
    forall i | 0 <= i < |c| ensures c[i] == d[i] {
      assert Combine(c, -1.0, d)[i] == c[i] + -1.0 * d[i];
    }
  }

  // ----- Accumulating the normal equations -----

  /** The first k terms of the product of columns p and q. */
  ghost function Moment(b: Matrix, k: nat, p: nat, q: nat): real {
    Sum(k, Products(Column(b, p), Column(b, q)))
  }

  /** On and below the diagonal, the rows before r hold moments of k + 1 samples, the rest of k. */
  ghost predicate Accumulated(gram: Matrix, b: Matrix, k: nat, r: nat, width: nat) {
    && IsMatrix(gram, width, width)
    && forall p: nat, q: nat | q <= p < width :: Entry(gram, p, q) == Moment(b, if p < r then k + 1 else k, p, q)
  }

  ghost predicate CrossAccumulated(rhs: Vector, b: Matrix, s: Vector, k: nat, r: nat, width: nat) {
    && |rhs| == width
    && forall p: nat | p < width :: rhs[p] == Sum(if p < r then k + 1 else k, Products(Column(b, p), s))
  }

  /** The basis rows of the first count samples. */
  ghost function RowsOf(basisAt: nat -> Vector, count: nat): (r: Matrix)
    ensures |r| == count
  {
    seq(count, i requires 0 <= i => basisAt(i))
  }

  method LeastSquares(basisAt: nat -> Vector, samples: Vector, width: nat) returns (r: Option<Vector>)
    requires forall i: nat :: |basisAt(i)| == width
    ensures r.Some? ==> BestFit(RowsOf(basisAt, |samples|), samples, width, r.value)
    ensures r.None? <==> NormalEquationsStall(RowsOf(basisAt, |samples|), samples, width)
  {
    hide Moment, Stalls;
    var gram := seq(width, i => Zeros(width));
    var rhs := Zeros(width);
    ghost var b := RowsOf(basisAt, |samples|);
    NothingAccumulated(gram, rhs, b, samples, width);
    for index := 0 to |samples|
      invariant Accumulated(gram, b, index, 0, width) && CrossAccumulated(rhs, b, samples, index, 0, width)
    {
      var basis := basisAt(index);
      hide Accumulated, CrossAccumulated;
      for row := 0 to width
        invariant IsMatrix(gram, width, width) && |rhs| == width
        invariant Accumulated(gram, b, index, row, width)
        invariant CrossAccumulated(rhs, b, samples, index, row, width)
      {
        ghost var had, was := gram, rhs;
        var grown := AccumulateRow(gram[row], basis, row);
        rhs := rhs[row := rhs[row] + samples[index] * basis[row]];
        gram := gram[row := grown];
        RowAccumulated(had, was, b, samples, index, row, width, grown, rhs[row]);
      }
      SampleAccumulated(gram, rhs, b, samples, index, width);
    }
    gram := Mirror(gram, width);
    NormalEquations(gram, rhs, b, samples, width);
    r := SolveLinearSystem(gram, rhs);
    if r.Some? {
      NormalEquationsFit(b, samples, width, r.value);
    }
  }

  /** The product of entries p and q of one sample's basis. */
  function Outer(basis: Vector, p: nat, q: nat): real {
    At(basis, p) * At(basis, q)
  }

  method AccumulateRow(row: Vector, basis: Vector, r: nat) returns (grown: Vector)
    requires r < |row| == |basis|
    ensures |grown| == |row|
    ensures forall q | 0 <= q < |row| :: grown[q] == if q <= r then row[q] + Outer(basis, r, q) else row[q]
  {
    grown := row;
    for column := 0 to r + 1
      invariant |grown| == |row|
      invariant forall q | 0 <= q < |row| :: grown[q] == if q < column then row[q] + Outer(basis, r, q) else row[q]
    {
      grown := grown[column := grown[column] + basis[r] * basis[column]];
    }
  }

  lemma NothingAccumulated(gram: Matrix, rhs: Vector, b: Matrix, s: Vector, width: nat)
    requires gram == seq(width, i => Zeros(width)) && rhs == Zeros(width)
    ensures Accumulated(gram, b, 0, 0, width) && CrossAccumulated(rhs, b, s, 0, 0, width)
  {
  }

  lemma RowAccumulated(gram: Matrix, rhs: Vector, b: Matrix, s: Vector, k: nat, r: nat, width: nat,
                       grown: Vector, value: real)
    requires IsMatrix(b, |s|, width) && k < |s| && r < width && |grown| == width
    requires Accumulated(gram, b, k, r, width) && CrossAccumulated(rhs, b, s, k, r, width)
    requires forall q | 0 <= q < width :: grown[q] == if q <= r then gram[r][q] + Outer(b[k], r, q) else gram[r][q]
    requires value == rhs[r] + s[k] * b[k][r]
    ensures Accumulated(gram[r := grown], b, k, r + 1, width)
    ensures CrossAccumulated(rhs[r := value], b, s, k, r + 1, width)
  {
    CrossStep(b, s, k, r, width, rhs[r], value);
    hide Sum, Products, Moment, Outer;
    var g, h := gram[r := grown], rhs[r := value];
    forall p: nat, q: nat | q <= p < width
      ensures Entry(g, p, q) == Moment(b, if p < r + 1 then k + 1 else k, p, q)
    {
      assert Entry(gram, p, q) == Moment(b, if p < r then k + 1 else k, p, q);
      if p == r {
        MomentStep(b, k, r, q, width);
      }
    }
  }

  lemma MomentStep(b: Matrix, k: nat, p: nat, q: nat, width: nat)
    requires k < |b| && IsMatrix(b, |b|, width)
    ensures Moment(b, k + 1, p, q) == Moment(b, k, p, q) + Outer(b[k], p, q)
  {
  }

  lemma CrossStep(b: Matrix, s: Vector, k: nat, r: nat, width: nat, was: real, value: real)
    requires IsMatrix(b, |s|, width) && k < |s| && r < width && value == was + s[k] * b[k][r]
    requires was == Sum(k, Products(Column(b, r), s))
    ensures value == Sum(k + 1, Products(Column(b, r), s))
  {
  }

  lemma SampleAccumulated(gram: Matrix, rhs: Vector, b: Matrix, s: Vector, k: nat, width: nat)
    requires Accumulated(gram, b, k, width, width) && CrossAccumulated(rhs, b, s, k, width, width)
    ensures Accumulated(gram, b, k + 1, 0, width) && CrossAccumulated(rhs, b, s, k + 1, 0, width)
  {
  }

  /** Copies the triangle below the diagonal to above it. */
  method Mirror(gram: Matrix, width: nat) returns (mirrored: Matrix)
    requires IsMatrix(gram, width, width)
    ensures IsMatrix(mirrored, width, width)
    ensures forall p: nat, q: nat | p < width && q < width ::
      Entry(mirrored, p, q) == if q <= p then Entry(gram, p, q) else Entry(gram, q, p)
  {
    mirrored := gram;
    for row := 0 to width
      invariant IsMatrix(mirrored, width, width)
      invariant forall p: nat, q: nat | p < width && q < width ::
        Entry(mirrored, p, q) == if q <= p || p >= row then Entry(gram, p, q) else Entry(gram, q, p)
    {
      var current := mirrored[row];
      for column := row + 1 to width
        invariant |current| == width
        invariant forall q: nat | q < width ::
          current[q] == if row < q < column then Entry(gram, q, row) else Entry(gram, row, q)
      {
        assert Entry(mirrored, column, row) == Entry(gram, column, row);
        current := current[column := mirrored[column][row]];
      }
      mirrored := mirrored[row := current];
    }
  }

  /** What has been accumulated and mirrored are the normal equations. */
  lemma NormalEquations(gram: Matrix, rhs: Vector, b: Matrix, s: Vector, width: nat)
    requires IsMatrix(b, |s|, width) && IsMatrix(gram, width, width) && |rhs| == width
    requires forall p: nat, q: nat | p < width && q < width ::
      Entry(gram, p, q) == if q <= p then Moment(b, |s|, p, q) else Moment(b, |s|, q, p)
    requires forall p: nat | p < width :: rhs[p] == Sum(|s|, Products(Column(b, p), s))
    ensures gram == MatMul(Transpose(b, width), b, width)
    ensures rhs == MatVec(Transpose(b, width), s)
  {
    var t := Transpose(b, width);
    var g := MatMul(t, b, width);
    forall p: nat | p < width ensures gram[p] == g[p] {
      forall q: nat | q < width ensures gram[p][q] == g[p][q] {
        assert Entry(gram, p, q) == gram[p][q];
        assert t[p] == Column(b, p);
        DotCommutes(Column(b, p), Column(b, q));
      }
    }
  }

  // ----- Fitting tones -----

  /** The sine and cosine, and the constant that makes them periodic. */
  datatype Trig = Trig(sin: real -> real, cos: real -> real, pi: real)

  datatype FitError = NoData | InvalidFrequency | SingularSystem

  function Phase(trig: Trig, frequency: real, index: nat, sampleRate: nat): real
    requires sampleRate > 0
  {
    2.0 * trig.pi * frequency * (index as real) / (sampleRate as real)
  }

  /** The sine and cosine of every tone at a sample, in pairs. */
  function ToneBasis(trig: Trig, frequencies: seq<real>, index: nat, sampleRate: nat): (r: Vector)
    requires sampleRate > 0
    ensures |r| == 2 * |frequencies|
  {
    if frequencies == [] then []
    else
      var last := |frequencies| - 1;
      var phase := Phase(trig, frequencies[last], index, sampleRate);
      ToneBasis(trig, frequencies[..last], index, sampleRate) + [trig.sin(phase), trig.cos(phase)]
  }

  /** Coefficients taken two by two. */
  function Pairs(c: Vector): (r: seq<(real, real)>)
    requires |c| % 2 == 0
    ensures |r| == |c| / 2
  {
    if c == [] then [] else Pairs(c[..|c| - 2]) + [(c[|c| - 2], c[|c| - 1])]
  }

  function Flatten(pairs: seq<(real, real)>): (r: Vector)
    ensures |r| == 2 * |pairs|
  {
    if pairs == [] then []
    else
      var last := pairs[|pairs| - 1];
      Flatten(pairs[..|pairs| - 1]) + [last.0, last.1]
  }

  lemma {:induction false} FlattenPairs(c: Vector)
    requires |c| % 2 == 0
    ensures Flatten(Pairs(c)) == c
  {
    if c != [] {
      hide Pairs, Flatten;
      var k := |c| - 2;
      FlattenPairs(c[..k]);
      LastPair(c);
      FlattenLast(Pairs(c[..k]), (c[k], c[k + 1]));
      assert c == c[..k] + [c[k], c[k + 1]];
    }
  }

  lemma LastPair(c: Vector)
    requires |c| >= 2 && |c| % 2 == 0
    ensures (|c| - 2) % 2 == 0 && Pairs(c) == Pairs(c[..|c| - 2]) + [(c[|c| - 2], c[|c| - 1])]
  {
  }

  lemma FlattenLast(pairs: seq<(real, real)>, pair: (real, real))
    ensures Flatten(pairs + [pair]) == Flatten(pairs) + [pair.0, pair.1]
  {
    assert (pairs + [pair])[..|pairs|] == pairs;
  }

  predicate ValidFrequencies(frequencies: seq<real>, sampleRate: nat) {
    forall i | 0 <= i < |frequencies| :: 0.0 < frequencies[i] < (sampleRate as real) * 0.5
  }

  /** The tone rows of the samples, each after the entries of head. */
  ghost function ToneRows(trig: Trig, frequencies: seq<real>, sampleRate: nat, count: nat, head: Vector): (r: Matrix)
    requires sampleRate > 0
    ensures IsMatrix(r, count, |head| + 2 * |frequencies|)
  {
    seq(count, i requires 0 <= i => head + ToneBasis(trig, frequencies, i, sampleRate))
  }

  /** c are the coefficients of the head entries and of the tones that fit the samples best. */
  ghost predicate TonesFit(trig: Trig, samples: Vector, sampleRate: nat, frequencies: seq<real>, head: Vector, c: Vector) {
    && sampleRate > 0
    && BestFit(ToneRows(trig, frequencies, sampleRate, |samples|, head), samples, |head| + 2 * |frequencies|, c)
  }

  ghost predicate TonesStall(trig: Trig, samples: Vector, sampleRate: nat, frequencies: seq<real>, head: Vector) {
    && sampleRate > 0
    && NormalEquationsStall(ToneRows(trig, frequencies, sampleRate, |samples|, head), samples,
                            |head| + 2 * |frequencies|)
  }

  lemma RatePositive(frequencies: seq<real>, sampleRate: nat)
    requires frequencies != [] && ValidFrequencies(frequencies, sampleRate)
    ensures sampleRate > 0
  {
    assert 0.0 < frequencies[0] < (sampleRate as real) * 0.5;
  }

  method FitTones(trig: Trig, samples: Vector, sampleRate: nat, frequencies: seq<real>)
    returns (r: Result<seq<(real, real)>, FitError>)
    ensures r == Err(NoData) <==> samples == [] || frequencies == []
    ensures r == Err(InvalidFrequency) <==>
      samples != [] && frequencies != [] && !ValidFrequencies(frequencies, sampleRate)
    ensures r == Err(SingularSystem) ==> TonesStall(trig, samples, sampleRate, frequencies, [])
    ensures r.Ok? ==> |r.value| == |frequencies| && !TonesStall(trig, samples, sampleRate, frequencies, [])
    ensures r.Ok? ==> TonesFit(trig, samples, sampleRate, frequencies, [], Flatten(r.value))
  {
    hide BestFit, ToneBasis, ValidFrequencies, Phase, Pairs, Flatten, NormalEquationsStall;
    if samples == [] || frequencies == [] {
      return Err(NoData);
    }
    if !ValidFrequencies(frequencies, sampleRate) {
      return Err(InvalidFrequency);
    }
    RatePositive(frequencies, sampleRate);
    var basisAt := (i: nat) => [] + ToneBasis(trig, frequencies, i, sampleRate);
    var coefficients := LeastSquares(basisAt, samples, |frequencies| * 2);
    RowsAreToneRows(basisAt, trig, frequencies, sampleRate, |samples|, []);
    if coefficients.None? {
      return Err(SingularSystem);
    }
    BestFitLength(RowsOf(basisAt, |samples|), samples, |frequencies| * 2, coefficients.value);
    FlattenPairs(coefficients.value);
    r := Ok(Pairs(coefficients.value));
  }

  method FitTonesAndDc(trig: Trig, samples: Vector, sampleRate: nat, frequencies: seq<real>)
    returns (r: Result<(real, seq<(real, real)>), FitError>)
    ensures r == Err(NoData) <==> samples == [] || frequencies == []
    ensures r == Err(InvalidFrequency) <==>
      samples != [] && frequencies != [] && !ValidFrequencies(frequencies, sampleRate)
    ensures r == Err(SingularSystem) ==> TonesStall(trig, samples, sampleRate, frequencies, [1.0])
    ensures r.Ok? ==> |r.value.1| == |frequencies| && !TonesStall(trig, samples, sampleRate, frequencies, [1.0])
    ensures r.Ok? ==> TonesFit(trig, samples, sampleRate, frequencies, [1.0], [r.value.0] + Flatten(r.value.1))
  {
    hide BestFit, ToneBasis, ValidFrequencies, Phase, Pairs, Flatten, NormalEquationsStall;
    if samples == [] || frequencies == [] {
      return Err(NoData);
    }
    if !ValidFrequencies(frequencies, sampleRate) {
      return Err(InvalidFrequency);
    }
    RatePositive(frequencies, sampleRate);
    var basisAt := (i: nat) => [1.0] + ToneBasis(trig, frequencies, i, sampleRate);
    var solution := LeastSquares(basisAt, samples, 1 + |frequencies| * 2);
    RowsAreToneRows(basisAt, trig, frequencies, sampleRate, |samples|, [1.0]);
    if solution.None? {
      return Err(SingularSystem);
    }
    BestFitLength(RowsOf(basisAt, |samples|), samples, 1 + |frequencies| * 2, solution.value);
    var tones := solution.value[1..];
    FlattenPairs(tones);
    assert [solution.value[0]] + tones == solution.value;
    r := Ok((solution.value[0], Pairs(tones)));
  }

  lemma RowsAreToneRows(basisAt: nat -> Vector, trig: Trig, frequencies: seq<real>, sampleRate: nat, count: nat, head: Vector)
    requires sampleRate > 0 && forall i: nat :: basisAt(i) == head + ToneBasis(trig, frequencies, i, sampleRate)
    ensures RowsOf(basisAt, count) == ToneRows(trig, frequencies, sampleRate, count, head)
  {
  }

  lemma BestFitLength(b: Matrix, s: Vector, width: nat, c: Vector)
    requires BestFit(b, s, width, c)
    ensures |c| == width
  {
  }

  /** What a fitted model predicts at a sample. */
  function PredictTones(trig: Trig, index: nat, sampleRate: nat, frequencies: seq<real>, pairs: seq<(real, real)>): real
    requires sampleRate > 0 && |pairs| == |frequencies|
  {
    if pairs == [] then 0.0
    else
      var last := |pairs| - 1;
      var phase := Phase(trig, frequencies[last], index, sampleRate);
      PredictTones(trig, index, sampleRate, frequencies[..last], pairs[..last]) +
      (pairs[last].0 * trig.sin(phase) + pairs[last].1 * trig.cos(phase))
  }

  /** The rows that were fitted are the rows that predict. */
  lemma {:induction false} PredictionIsDot(trig: Trig, index: nat, sampleRate: nat, frequencies: seq<real>,
                                           pairs: seq<(real, real)>)
    requires sampleRate > 0 && |pairs| == |frequencies|
    ensures PredictTones(trig, index, sampleRate, frequencies, pairs) ==
            Dot(ToneBasis(trig, frequencies, index, sampleRate), Flatten(pairs))
  {
    hide Phase, Dot;
    if pairs == [] {
      assert Dot([], []) == 0.0 by {
        DotZeros(0, []);
        assert Zeros(0) == [];
      }
    } else {
      var n := |pairs| - 1;
      var phase := Phase(trig, frequencies[n], index, sampleRate);
      var row, c := ToneBasis(trig, frequencies[..n], index, sampleRate), Flatten(pairs[..n]);
      var sine, cosine, p, q := trig.sin(phase), trig.cos(phase), pairs[n].0, pairs[n].1;
      PredictionIsDot(trig, index, sampleRate, frequencies[..n], pairs[..n]);
      DotAppend(row, sine, c, p);
      DotAppend(row + [sine], cosine, c + [p], q);
      assert row + [sine] + [cosine] == row + [sine, cosine];
      assert c + [p] + [q] == c + [p, q];
      Swapped(sine, p, cosine, q);
    }
  }

  lemma Swapped(a: real, b: real, c: real, d: real)
    ensures a * b + c * d == b * a + d * c
  {
  }

  // ----- A signal that is made of the tones -----

  /** How often a tone has gone round by a sample. */
  function Cycles(frequency: real, index: nat, sampleRate: nat): real
    requires sampleRate > 0
  {
    frequency * (index as real / sampleRate as real)
  }

  function Angle(trig: Trig, cycles: real): real {
    2.0 * trig.pi * cycles
  }

  /** A sine and a cosine of each tone. */
  function Signal(trig: Trig, index: nat, sampleRate: nat, frequencies: seq<real>, pairs: seq<(real, real)>): real
    requires sampleRate > 0 && |pairs| == |frequencies|
  {
    if pairs == [] then 0.0
    else
      var k := |pairs| - 1;
      var angle := Angle(trig, Cycles(frequencies[k], index, sampleRate));
      Signal(trig, index, sampleRate, frequencies[..k], pairs[..k])
      + (pairs[k].0 * trig.sin(angle) + pairs[k].1 * trig.cos(angle))
  }

  lemma PhaseIsAngle(trig: Trig, frequency: real, index: nat, sampleRate: nat)
    requires sampleRate > 0
    ensures Phase(trig, frequency, index, sampleRate) == Angle(trig, Cycles(frequency, index, sampleRate))
  {
    QuotientMoves(2.0 * trig.pi, frequency, index as real, sampleRate as real);
  }

  lemma QuotientMoves(a: real, f: real, i: real, r: real)
    requires r > 0.0
    ensures a * f * i / r == a * (f * (i / r))
  {
    var q := i / r;
    assert q * r == i;
    assert a * f * i == a * (f * q) * r;
    assert a * (f * q) * r / r == a * (f * q);
  }

  lemma {:induction false} PredictionIsSignal(trig: Trig, index: nat, sampleRate: nat, frequencies: seq<real>,
                                              pairs: seq<(real, real)>)
    requires sampleRate > 0 && |pairs| == |frequencies|
    ensures PredictTones(trig, index, sampleRate, frequencies, pairs) ==
            Signal(trig, index, sampleRate, frequencies, pairs)
  {
    hide Phase, Angle, Cycles;
    if pairs != [] {
      var k := |pairs| - 1;
      PhaseIsAngle(trig, frequencies[k], index, sampleRate);
      PredictionIsSignal(trig, index, sampleRate, frequencies[..k], pairs[..k]);
    }
  }

  lemma {:induction false} DotConcat(a: Vector, b: Vector, c: Vector, d: Vector)
    requires |a| == |c| && |b| == |d|
    ensures Dot(a + b, c + d) == Dot(a, c) + Dot(b, d)
  {
    hide Dot;
    if b == [] {
      assert a + b == a && c + d == c;
      DotZeros(0, []);
      assert Zeros(0) == [];
    } else {
      var k := |b| - 1;
      DotConcat(a, b[..k], c, d[..k]);
      DotAppend(a + b[..k], b[k], c + d[..k], d[k]);
      DotAppend(b[..k], b[k], d[..k], d[k]);
      assert a + b == a + b[..k] + [b[k]] && c + d == c + d[..k] + [d[k]];
      assert b == b[..k] + [b[k]] && d == d[..k] + [d[k]];
    }
  }

  lemma NoErrorIsBest(b: Matrix, s: Vector, width: nat, c: Vector, d: Vector)
    requires IsMatrix(b, |s|, width) && BestFit(b, s, width, c) && |d| == width && MatVec(b, d) == s
    ensures c == d
  {
    var e := Residual(b, s, d);
    forall i | 0 <= i < |s| ensures e[i] == 0.0 {
      assert e[i] == s[i] + -1.0 * s[i];
    }
    assert e == Zeros(|s|);
    DotZeros(|s|, e);
    DotSelf(Residual(b, s, c));
  }

  /** A signal made of the tones, with what the head entries add, is fitted by its own coefficients. */
  lemma TonesAreRecovered(trig: Trig, samples: Vector, sampleRate: nat, frequencies: seq<real>, head: Vector,
                          c: Vector, level: Vector, pairs: seq<(real, real)>)
    requires TonesFit(trig, samples, sampleRate, frequencies, head, c)
    requires |level| == |head| && |pairs| == |frequencies|
    requires forall i | 0 <= i < |samples| ::
      samples[i] == Dot(head, level) + Signal(trig, i, sampleRate, frequencies, pairs)
    ensures c == level + Flatten(pairs)
  {
    hide Dot, BestFit, Signal, Flatten, ToneBasis;
    var b, d := ToneRows(trig, frequencies, sampleRate, |samples|, head), level + Flatten(pairs);
    forall i | 0 <= i < |samples| ensures MatVec(b, d)[i] == samples[i] {
      DotConcat(head, ToneBasis(trig, frequencies, i, sampleRate), level, Flatten(pairs));
      PredictionIsDot(trig, i, sampleRate, frequencies, pairs);
      PredictionIsSignal(trig, i, sampleRate, frequencies, pairs);
    }
    assert MatVec(b, d) == samples;
    NoErrorIsBest(b, samples, |head| + 2 * |frequencies|, c, d);
  }
}
