/** One-pass scans over all windows of a bit stream or a residual (audio_tests/dsd_public/analysis.rs). */
module SlidingWindows {
  import opened Wrappers
  import opened Linear
  import opened Elimination
  import opened IntegerDivision
  import opened MachineWords
  import opened Numbers
  import opened Powers

  // ----- Bit density -----

  /** The bits of each byte, most significant first. */
  function NativeBit(bytes: seq<byte>, bit: nat): bool
    requires bit < 8 * |bytes|
  {
    (bytes[bit / 8] as int / Pow2(7 - bit % 8)) % 2 == 1
  }

  /** The first i bits of a byte, read as a number: each doubles those before it. */
  function BitsRead(bytes: seq<byte>, k: nat, i: nat): nat
    requires k < |bytes| && i <= 8
  {
    if i == 0 then 0 else 2 * BitsRead(bytes, k, i - 1) + if NativeBit(bytes, 8 * k + i - 1) then 1 else 0
  }

  lemma {:induction false} FirstBitsSpell(bytes: seq<byte>, k: nat, i: nat)
    requires k < |bytes| && i <= 8
    ensures BitsRead(bytes, k, i) == bytes[k] as int / Pow2(8 - i)
  {
    var v := bytes[k] as int;
    if i == 0 {
      assert Pow2(4) == 16;
      assert Pow2(8) == 256;
    } else {
      assert Pow2(9 - i) == 2 * Pow2(8 - i);
      hide *;
      FirstBitsSpell(bytes, k, i - 1);
      HalveAgain(v, Pow2(8 - i), Pow2(9 - i));
      BitsReadStep(bytes, k, i);
      BitIs(bytes, k, i);
      QuotientParity(v / Pow2(8 - i));
    }
  }

  lemma BitIs(bytes: seq<byte>, k: nat, i: nat)
    requires k < |bytes| && 0 < i <= 8
    ensures NativeBit(bytes, 8 * k + i - 1) <==> (bytes[k] as int / Pow2(8 - i)) % 2 == 1
  {
    var bit := 8 * k + i - 1;
    assert bit / 8 == k && bit % 8 == i - 1;
  }

  lemma QuotientParity(q: nat)
    ensures q == 2 * (q / 2) + if q % 2 == 1 then 1 else 0
  {
  }

  lemma BitsReadStep(bytes: seq<byte>, k: nat, i: nat)
    requires k < |bytes| && 0 < i <= 8
    ensures BitsRead(bytes, k, i) == 2 * BitsRead(bytes, k, i - 1) + if NativeBit(bytes, 8 * k + i - 1) then 1 else 0
  {
    hide NativeBit;
  }

  lemma HalveAgain(v: nat, p: nat, twice: nat)
    requires p > 0 && twice == 2 * p
    ensures v / twice == (v / p) / 2
  {
    var q := v / p;
    var r := v - p * q;
    var h, b := q / 2, q % 2;
    assert v == twice * h + (p * b + r) by {
      assert p * (2 * h + b) == twice * h + p * b;
    }
    assert 0 <= p * b + r < twice;
    QuotientIs(v, twice, h, p * b + r);
  }

  lemma QuotientIs(v: nat, d: nat, q: nat, r: nat)
    requires v == d * q + r && r < d
    ensures v / d == q
  {
    DivideStep(v, d);
    QuotientIsUnique(v, d, v / d, v % d, q, r);
  }

  /** The eight bits of a byte, read in their order, are the byte. */
  lemma BitsSpellByte(bytes: seq<byte>, k: nat)
    requires k < |bytes|
    ensures BitsRead(bytes, k, 8) == bytes[k] as int
  {
    FirstBitsSpell(bytes, k, 8);
  }

  /** How many of the bits from lo to hi are set. */
  function Ones(bytes: seq<byte>, lo: nat, hi: nat): (n: nat)
    requires lo <= hi <= 8 * |bytes|
    ensures n <= hi - lo
  {
    if lo == hi then 0 else Ones(bytes, lo, hi - 1) + if NativeBit(bytes, hi - 1) then 1 else 0
  }

  lemma {:induction false} FirstOne(bytes: seq<byte>, lo: nat, hi: nat)
    requires lo < hi <= 8 * |bytes|
    ensures Ones(bytes, lo, hi) == Ones(bytes, lo + 1, hi) + if NativeBit(bytes, lo) then 1 else 0
  {
    if lo + 1 < hi {
      FirstOne(bytes, lo, hi - 1);
    }
  }

  /** How far the share of ones in a window is from one half. */
  function Deviation(bytes: seq<byte>, start: nat, window: nat): real
    requires start + window <= 8 * |bytes| && window > 0
  {
    Abs(Share(Ones(bytes, start, start + window), window) - 0.5)
  }

  function Share(ones: nat, window: nat): real
    requires window > 0
  {
    ones as real / window as real
  }

  datatype DensityMetrics = DensityMetrics(density: real, deviation: real, rollingMaxDeviation: real,
                                           rollingWindowBits: nat)

  datatype ScanError = InvalidRange | TooShort

  /** The largest deviation over the windows starting from start up to end, each counted from scratch. */
  ghost predicate IsLargest(bytes: seq<byte>, start: nat, end: nat, window: nat, largest: real)
    requires end + window <= 8 * |bytes| + 1 && window > 0
  {
    && (forall s: nat | start <= s < end :: Deviation(bytes, s, window) <= largest)
    && exists s: nat | start <= s < end :: Deviation(bytes, s, window) == largest
  }

  /** What the counts say of a range, with every bit-aligned window in it inspected. */
  ghost predicate Measures(m: DensityMetrics, bytes: seq<byte>, start: nat, end: nat, rollingWindowBits: nat)
    requires start < end <= 8 * |bytes|
  {
    var len := end - start;
    && m.rollingWindowBits == Window(rollingWindowBits, len)
    && m.density == Share(Ones(bytes, start, end), len)
    && m.deviation == Deviation(bytes, start, len)
    && IsLargest(bytes, start, end - m.rollingWindowBits + 1, m.rollingWindowBits, m.rollingMaxDeviation)
  }

  function Window(rollingWindowBits: nat, len: nat): (w: nat)
    requires len > 0
    ensures 0 < w <= len
  {
    var w := if rollingWindowBits == 0 then 1 else rollingWindowBits;
    if w > len then len else w
  }

  method DensityOf(bytes: seq<byte>, start: nat, end: nat, rollingWindowBits: nat)
    returns (r: Result<DensityMetrics, ScanError>)
    ensures r.Err? <==> start >= end || end > 8 * |bytes|
    ensures r.Ok? ==> Measures(r.value, bytes, start, end, rollingWindowBits)
  {
    if start >= end || end > 8 * |bytes| {
      return Err(InvalidRange);
    }
    hide *;
    var len := end - start;
    var ones := CountOnes(bytes, start, end);
    var density := Share(ones, len);
    var window := Window(rollingWindowBits, len);
    var rollingMaxDeviation := RollingMaxDeviation(bytes, start, end, window);
    var metrics := DensityMetrics(density, Abs(density - 0.5), rollingMaxDeviation, window);
    DeviationIs(bytes, start, len, metrics.deviation);
    MeasuresIs(metrics, bytes, start, end, rollingWindowBits);
    r := Ok(metrics);
  }

  method RollingMaxDeviation(bytes: seq<byte>, start: nat, end: nat, window: nat) returns (largest: real)
    requires start + window <= end <= 8 * |bytes| && window > 0
    ensures IsLargest(bytes, start, end - window + 1, window, largest)
  {
    hide *;
    largest := 0.0;
    var windowOnes := CountOnes(bytes, start, start + window);
    for s := start to end - window + 1
      invariant s <= end - window ==> windowOnes == Ones(bytes, s, s + window)
      invariant if s == start then largest == 0.0 else IsLargest(bytes, start, s, window, largest)
    {
      var deviation := Abs(Share(windowOnes, window) - 0.5);
      LargestGrows(bytes, start, s, window, largest, deviation);
      largest := Larger(largest, deviation);
      if s < end - window {
        WindowSlides(bytes, s, window);
        if NativeBit(bytes, s) {
          windowOnes := windowOnes - 1;
        }
        if NativeBit(bytes, s + window) {
          windowOnes := windowOnes + 1;
        }
      }
    }
  }

  lemma MeasuresIs(m: DensityMetrics, bytes: seq<byte>, start: nat, end: nat, rollingWindowBits: nat)
    requires start < end <= 8 * |bytes| && m.rollingWindowBits == Window(rollingWindowBits, end - start)
    requires m.density == Share(Ones(bytes, start, end), end - start)
    requires m.deviation == Deviation(bytes, start, end - start)
    requires IsLargest(bytes, start, end - m.rollingWindowBits + 1, m.rollingWindowBits, m.rollingMaxDeviation)
    ensures Measures(m, bytes, start, end, rollingWindowBits)
  {
    hide Ones, Deviation, IsLargest, Window, Share;
  }

  lemma DeviationIs(bytes: seq<byte>, s: nat, window: nat, deviation: real)
    requires s + window <= 8 * |bytes| && window > 0
    requires deviation == Abs(Share(Ones(bytes, s, s + window), window) - 0.5)
    ensures deviation == Deviation(bytes, s, window) >= 0.0
  {
  }

  lemma LargestGrows(bytes: seq<byte>, start: nat, s: nat, window: nat, largest: real, deviation: real)
    requires start <= s && s + window <= 8 * |bytes| && window > 0
    requires deviation == Abs(Share(Ones(bytes, s, s + window), window) - 0.5)
    requires if s == start then largest == 0.0 else IsLargest(bytes, start, s, window, largest)
    ensures IsLargest(bytes, start, s + 1, window, Larger(largest, deviation))
  {
    DeviationIs(bytes, s, window, deviation);
    hide Deviation;
    assert s == start || deviation > largest || exists k: nat | start <= k < s :: Deviation(bytes, k, window) == largest;
    assert Deviation(bytes, s, window) == deviation;
  }

  lemma WindowSlides(bytes: seq<byte>, s: nat, window: nat)
    requires s + window < 8 * |bytes| && window > 0
    ensures var out, into := NativeBit(bytes, s), NativeBit(bytes, s + window);
      && (out ==> Ones(bytes, s, s + window) > 0)
      && Ones(bytes, s + 1, s + 1 + window) ==
         Ones(bytes, s, s + window) - (if out then 1 else 0) + (if into then 1 else 0)
  {
    hide NativeBit;
    FirstOne(bytes, s, s + window);
  }

  method CountOnes(bytes: seq<byte>, lo: nat, hi: nat) returns (ones: nat)
    requires lo <= hi <= 8 * |bytes|
    ensures ones == Ones(bytes, lo, hi)
  {
    ones := 0;
    for bit := lo to hi
      invariant ones == Ones(bytes, lo, bit)
    {
      if NativeBit(bytes, bit) {
        ones := ones + 1;
      }
    }
  }

  // ----- Recovery of a residual -----

  function Squares(samples: seq<real>): nat -> real {
    (k: nat) => Square(At(samples, k))
  }

  /** The i-th entry is the sum of the first i squares. */
  ghost predicate IsPrefix(prefix: seq<real>, samples: seq<real>) {
    |prefix| == |samples| + 1 && forall i: nat | i <= |samples| :: prefix[i] == Sum(i, Squares(samples))
  }

  method SquaredPrefix(samples: seq<real>) returns (prefix: seq<real>)
    ensures |prefix| == |samples| + 1 && IsPrefix(prefix, samples)
  {
    prefix := [0.0];
    for i := 0 to |samples|
      invariant |prefix| == i + 1 && forall k: nat | k <= i :: prefix[k] == Sum(k, Squares(samples))
    {
      var sample := samples[i];
      assert Squares(samples)(i) == sample * sample;
      prefix := prefix + [prefix[i] + sample * sample];
    }
  }

  function WindowRms(prefix: seq<real>, start: nat, window: nat, sqrt: real -> real): real
    requires window > 0 && start + window < |prefix|
  {
    sqrt(Larger((prefix[start + window] - prefix[start]) / window as real, 0.0))
  }

  /** The root mean square of the samples of one window, summed from scratch. */
  function NaiveRms(samples: seq<real>, start: nat, window: nat, sqrt: real -> real): real
    requires window > 0 && start + window <= |samples|
  {
    sqrt(Sum(window, Squares(samples[start..start + window])) / window as real)
  }

  lemma {:induction false} PrefixDifference(samples: seq<real>, start: nat, window: nat)
    requires start + window <= |samples|
    ensures Sum(start + window, Squares(samples)) ==
            Sum(start, Squares(samples)) + Sum(window, Squares(samples[start..start + window]))
  {
    var part := samples[start..start + window];
    if window > 0 {
      PrefixDifference(samples, start, window - 1);
      var shorter := samples[start..start + window - 1];
      SumEqual(window - 1, Squares(shorter), Squares(part));
    }
  }

  /** Prefix differences give every window's level. */
  lemma WindowIsNaive(samples: seq<real>, prefix: seq<real>, start: nat, window: nat, sqrt: real -> real)
    requires window > 0 && start + window <= |samples|
    requires IsPrefix(prefix, samples)
    ensures WindowRms(prefix, start, window, sqrt) == NaiveRms(samples, start, window, sqrt)
  {
    var part := samples[start..start + window];
    PrefixDifference(samples, start, window);
    forall k: nat | k < window ensures Squares(part)(k) >= 0.0 {
      SquareIsPositive(part[k], Squares(part)(k));
    }
    SumNonNegative(window, Squares(part));
    QuotientNonNegative(Sum(window, Squares(part)), window as real);
  }

  lemma QuotientNonNegative(x: real, n: real)
    requires x >= 0.0 && n > 0.0
    ensures x / n >= 0.0
  {
  }

  predicate Quiet(samples: seq<real>, start: nat, window: nat, threshold: real, sqrt: real -> real)
    requires window > 0 && start + window <= |samples|
  {
    NaiveRms(samples, start, window, sqrt) <= threshold
  }

  /** Every window inside the required samples from start on is below the threshold. */
  ghost predicate Settles(samples: seq<real>, start: nat, window: nat, required: nat, threshold: real,
                          sqrt: real -> real)
    requires 0 < window <= required
  {
    && start + required <= |samples|
    && forall k: nat | start <= k <= start + required - window :: Quiet(samples, k, window, threshold, sqrt)
  }

  /** The earliest start from which the residual stays quiet long enough; nothing exactly when there is none. */
  method FirstSettled(samples: seq<real>, window: nat, required: nat, threshold: real, sqrt: real -> real)
    returns (r: Result<Option<nat>, ScanError>)
    requires 0 < window <= required
    ensures r.Err? <==> |samples| < required
    ensures r.Ok? && r.value.Some? ==>
      && Settles(samples, r.value.value, window, required, threshold, sqrt)
      && forall s: nat | s < r.value.value :: !Settles(samples, s, window, required, threshold, sqrt)
    ensures r.Ok? && r.value.None? ==> forall s: nat :: !Settles(samples, s, window, required, threshold, sqrt)
  {
    if |samples| < required {
      return Err(TooShort);
    }
    hide *;
    var prefix := SquaredPrefix(samples);
    var goodRun := 0;
    NothingScanned(samples, window, required, threshold, sqrt);
    for start := 0 to |samples| - window + 1
      invariant Scanned(samples, start, goodRun, window, required, threshold, sqrt)
    {
      var good := WindowRms(prefix, start, window, sqrt) <= threshold;
      ScanStep(samples, prefix, start, goodRun, window, required, threshold, sqrt);
      if good {
        goodRun := goodRun + 1;
        if goodRun >= required - window + 1 {
          return Ok(Some(start + 1 - goodRun));
        }
      } else {
        goodRun := 0;
      }
    }
    NothingFound(samples, goodRun, window, required, threshold, sqrt);
    r := Ok(None);
  }

  /** No start settles within the windows seen so far, and the last of them form a quiet run of this length. */
  ghost predicate Scanned(samples: seq<real>, start: nat, goodRun: nat, window: nat, required: nat,
                          threshold: real, sqrt: real -> real)
    requires 0 < window <= required
  {
    && goodRun <= required - window && QuietRun(samples, start, goodRun, window, threshold, sqrt)
    && forall s: nat | s + required - window < start :: !Settles(samples, s, window, required, threshold, sqrt)
  }

  lemma NothingScanned(samples: seq<real>, window: nat, required: nat, threshold: real, sqrt: real -> real)
    requires 0 < window <= required
    ensures Scanned(samples, 0, 0, window, required, threshold, sqrt)
  {
  }

  lemma ScanStep(samples: seq<real>, prefix: seq<real>, start: nat, goodRun: nat, window: nat, required: nat,
                 threshold: real, sqrt: real -> real)
    requires 0 < window <= required && start + window <= |samples|
    requires IsPrefix(prefix, samples)
    requires Scanned(samples, start, goodRun, window, required, threshold, sqrt)
    ensures goodRun <= start
    ensures WindowRms(prefix, start, window, sqrt) > threshold ==>
      Scanned(samples, start + 1, 0, window, required, threshold, sqrt)
    ensures WindowRms(prefix, start, window, sqrt) <= threshold && goodRun < required - window ==>
      Scanned(samples, start + 1, goodRun + 1, window, required, threshold, sqrt)
    ensures WindowRms(prefix, start, window, sqrt) <= threshold && goodRun >= required - window ==>
      && Settles(samples, start - goodRun, window, required, threshold, sqrt)
      && forall s: nat | s < start - goodRun :: !Settles(samples, s, window, required, threshold, sqrt)
  {
    hide WindowRms, NaiveRms, Settles, Quiet, QuietRun, Squares, Sum;
    assert goodRun <= start by {
      RunFits(samples, start, goodRun, window, threshold, sqrt);
    }
    WindowIsNaive(samples, prefix, start, window, sqrt);
    QuietIs(samples, start, window, threshold, sqrt);
    if WindowRms(prefix, start, window, sqrt) <= threshold {
      RunGrows(samples, start, goodRun, window, threshold, sqrt);
      if goodRun >= required - window {
        LongRunSettles(samples, start, window, required, threshold, sqrt);
      } else {
        ShortRunDoesNot(samples, start, goodRun + 1, window, required, threshold, sqrt);
      }
    } else {
      NoisyWindow(samples, start, window, required, threshold, sqrt);
    }
  }

  lemma RunFits(samples: seq<real>, end: nat, length: nat, window: nat, threshold: real, sqrt: real -> real)
    requires window > 0 && QuietRun(samples, end, length, window, threshold, sqrt)
    ensures length <= end
  {
  }

  lemma NothingFound(samples: seq<real>, goodRun: nat, window: nat, required: nat, threshold: real,
                     sqrt: real -> real)
    requires 0 < window <= required <= |samples|
    requires Scanned(samples, |samples| - window + 1, goodRun, window, required, threshold, sqrt)
    ensures forall s: nat :: !Settles(samples, s, window, required, threshold, sqrt)
  {
    hide Quiet, QuietRun;
  }

  /** The windows before end form a run of quiet ones of this length, no longer. */
  ghost predicate QuietRun(samples: seq<real>, end: nat, length: nat, window: nat, threshold: real,
                           sqrt: real -> real)
    requires window > 0
  {
    && length <= end && (end > 0 ==> end - 1 + window <= |samples|)
    && (forall k: nat | end - length <= k < end :: Quiet(samples, k, window, threshold, sqrt))
    && (length < end ==> !Quiet(samples, end - length - 1, window, threshold, sqrt))
  }

  lemma QuietIs(samples: seq<real>, start: nat, window: nat, threshold: real, sqrt: real -> real)
    requires window > 0 && start + window <= |samples|
    ensures Quiet(samples, start, window, threshold, sqrt) <==> NaiveRms(samples, start, window, sqrt) <= threshold
  {
    hide NaiveRms;
  }

  lemma RunGrows(samples: seq<real>, end: nat, length: nat, window: nat, threshold: real, sqrt: real -> real)
    requires window > 0 && end + window <= |samples| && QuietRun(samples, end, length, window, threshold, sqrt)
    requires Quiet(samples, end, window, threshold, sqrt)
    ensures QuietRun(samples, end + 1, length + 1, window, threshold, sqrt)
  {
    hide Quiet;
  }

  lemma LongRunSettles(samples: seq<real>, start: nat, window: nat, required: nat, threshold: real,
                       sqrt: real -> real)
    requires 0 < window <= required
    requires QuietRun(samples, start + 1, required - window + 1, window, threshold, sqrt)
    ensures Settles(samples, start - (required - window), window, required, threshold, sqrt)
  {
    hide Quiet;
  }

  lemma ShortRunDoesNot(samples: seq<real>, start: nat, length: nat, window: nat, required: nat, threshold: real,
                        sqrt: real -> real)
    requires 0 < window <= required && length <= required - window
    requires QuietRun(samples, start + 1, length, window, threshold, sqrt)
    ensures forall s: nat | s + required - window == start :: !Settles(samples, s, window, required, threshold, sqrt)
  {
    hide Quiet;
    assert length < start + 1 ==> !Quiet(samples, start - length, window, threshold, sqrt);
  }

  lemma NoisyWindow(samples: seq<real>, start: nat, window: nat, required: nat, threshold: real, sqrt: real -> real)
    requires 0 < window <= required && start + window <= |samples| && !Quiet(samples, start, window, threshold, sqrt)
    ensures forall s: nat | s + required - window == start :: !Settles(samples, s, window, required, threshold, sqrt)
    ensures QuietRun(samples, start + 1, 0, window, threshold, sqrt)
  {
    hide Quiet;
  }

  /** Two and ten milliseconds in samples, rounded half up. */
  /** Two milliseconds, to the nearest sample, but at least sixteen. */
  function WindowSamples(sampleRate: nat): (n: nat)
    ensures n >= 16
    ensures n > 16 ==> -500 <= 1000 * n - 2 * sampleRate <= 500
    ensures n == 16 ==> 2 * sampleRate < 16500
  {
    var n := (sampleRate as real * 0.002 + 0.5).Floor;
    if n >= 16 then n else 16
  }

  /** Ten milliseconds, to the nearest sample, but at least one window. */
  function RequiredSamples(sampleRate: nat): (n: nat)
    ensures n >= WindowSamples(sampleRate)
    ensures n > WindowSamples(sampleRate) ==> -500 <= 1000 * n - 10 * sampleRate <= 500
    ensures 10 * sampleRate <= 1000 * n + 500
  {
    var n := (sampleRate as real * 0.010 + 0.5).Floor;
    if n >= WindowSamples(sampleRate) then n else WindowSamples(sampleRate)
  }

  /** The recovery time in milliseconds, from residuals already fitted and the threshold they gave. */
  method RecoveryTime(residual: seq<real>, sampleRate: nat, threshold: real, sqrt: real -> real)
    returns (r: Result<Option<real>, ScanError>)
    requires sampleRate > 0
    ensures var window, required := WindowSamples(sampleRate), RequiredSamples(sampleRate);
      && (r.Err? <==> |residual| < required)
      && (r.Ok? && r.value.Some? ==> exists first: nat ::
            && r.value.value == first as real * 1000.0 / sampleRate as real
            && Settles(residual, first, window, required, threshold, sqrt)
            && forall s: nat | s < first :: !Settles(residual, s, window, required, threshold, sqrt))
      && (r.Ok? && r.value.None? ==> forall s: nat :: !Settles(residual, s, window, required, threshold, sqrt))
  {
    hide WindowSamples, RequiredSamples, Settles;
    var window, required := WindowSamples(sampleRate), RequiredSamples(sampleRate);
    var first := FirstSettled(residual, window, required, threshold, sqrt);
    match first
    case Err(error) => r := Err(error);
    case Ok(None) => r := Ok(None);
    case Ok(Some(start)) => r := Ok(Some(start as real * 1000.0 / sampleRate as real));
  }
}
