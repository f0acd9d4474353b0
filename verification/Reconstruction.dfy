/** The bit ranges a reconstruction window reads, feeds and keeps (audio_tests/dsd_public/analysis.rs). */
module Reconstruction {
  import opened IntegerDivision
  import opened MachineWords
  import opened Numbers
  import opened SlidingWindows
  import opened Wrappers

  const DECODER_UNPACK_CHUNK_BITS: nat := 1_048_576

  datatype WindowError = LengthsDiffer | RateNotMultiple | InvalidPeak | OutOfRange | Unaligned

  /** What is decoded around the wanted range, and which decoded samples are kept. */
  datatype Plan = Plan(ratio: nat, extendedStart: nat, extendedEnd: nat, expected: nat, cropStart: nat, cropEnd: nat)

  /** One when the bit is set and minus one when it is not. */
  function Unpacked(bytes: seq<byte>, lo: nat, hi: nat): (r: seq<int>)
    requires lo <= hi <= 8 * |bytes|
    ensures |r| == hi - lo
  {
    seq(hi - lo, i requires 0 <= i < hi - lo => if NativeBit(bytes, lo + i) then 1 else -1)
  }

  function CeilDiv(a: nat, b: nat): nat
    requires b > 0
  {
    if a % b == 0 then a / b else a / b + 1
  }

  predicate Aligned(bit: nat, ratio: nat)
    requires ratio > 0
  {
    bit % ratio == 0
  }

  /** How many output frames so many bits make. */
  function Frames(bits: nat, ratio: nat): nat
    requires ratio > 0
  {
    bits / ratio
  }

  /** Decoding extendedStart onwards and cropping gives exactly the samples of start to end: the context reaches
      as far out as asked or to the ends of the recording, every decoded sample starts on a boundary, and the
      kept ones are among those decoded. */
  ghost predicate Covers(p: Plan, ratio: nat, start: nat, end: nat, total: nat, context: nat) {
    && p.ratio == ratio > 0
    && Aligned(p.extendedStart, ratio) && p.extendedStart <= start <= end <= p.extendedEnd <= total
    && (p.extendedStart == 0 || start - p.extendedStart >= context)
    && (p.extendedEnd == total || p.extendedEnd - end >= context)
    && p.extendedStart + p.cropStart * ratio == start
    && p.extendedStart + p.cropEnd * ratio == end
    && p.expected == Frames(p.extendedEnd - p.extendedStart, ratio) && p.cropEnd <= p.expected
  }

  /** The bits fed to the decimator are those of the extended range, each once and in order. */
  method ReconstructStereoRange(leftBytes: seq<byte>, rightBytes: seq<byte>, wireRate: nat, outputRate: nat,
                                start: nat, end: nat, contextOutput: nat, peak: real)
    returns (r: Result<Plan, WindowError>, left: seq<int>, right: seq<int>)
    ensures r == Err(LengthsDiffer) <==> |leftBytes| != |rightBytes|
    ensures r.Ok? <==> && |leftBytes| == |rightBytes| && peak > 0.0 && outputRate > 0 && wireRate % outputRate == 0
                       && start < end <= 8 * |leftBytes| && wireRate / outputRate > 0
                       && Aligned(start, wireRate / outputRate) && Aligned(end, wireRate / outputRate)
    ensures r.Ok? ==> Covers(r.value, wireRate / outputRate, start, end, 8 * |leftBytes|,
                             contextOutput * (wireRate / outputRate))
    ensures r.Ok? ==> left == Unpacked(leftBytes, r.value.extendedStart, r.value.extendedEnd)
    ensures r.Ok? ==> right == Unpacked(rightBytes, r.value.extendedStart, r.value.extendedEnd)
  {
    left, right := [], [];
    if |leftBytes| != |rightBytes| {
      return Err(LengthsDiffer), left, right;
    }
    if outputRate == 0 || wireRate % outputRate != 0 {
      return Err(RateNotMultiple), left, right;
    }
    if peak <= 0.0 {
      return Err(InvalidPeak), left, right;
    }
    var totalBits := 8 * |leftBytes|;
    if start >= end || end > totalBits {
      return Err(OutOfRange), left, right;
    }
    var ratio := wireRate / outputRate;
    if ratio == 0 || !Aligned(start, ratio) || !Aligned(end, ratio) {
      return Err(Unaligned), left, right;
    }
    var plan := MakePlan(ratio, start, end, totalBits, contextOutput * ratio);
    var chunk := if DECODER_UNPACK_CHUNK_BITS / ratio > 0 then DECODER_UNPACK_CHUNK_BITS / ratio * ratio else ratio;
    ChunkIsPositive(ratio, chunk);
    left, right := FeedRange(leftBytes, rightBytes, plan.extendedStart, plan.extendedEnd, chunk);
    r := Ok(plan);
  }

  lemma ChunkIsPositive(ratio: nat, chunk: nat)
    requires ratio > 0
    requires chunk == if DECODER_UNPACK_CHUNK_BITS / ratio > 0 then DECODER_UNPACK_CHUNK_BITS / ratio * ratio else ratio
    ensures chunk > 0
  {
    var q := DECODER_UNPACK_CHUNK_BITS / ratio;
    if q > 0 {
      assert q * ratio >= ratio;
    }
  }

  method FeedRange(leftBytes: seq<byte>, rightBytes: seq<byte>, start: nat, end: nat, chunk: nat)
    returns (left: seq<int>, right: seq<int>)
    requires start <= end <= 8 * |leftBytes| && |leftBytes| == |rightBytes| && chunk > 0
    ensures left == Unpacked(leftBytes, start, end) && right == Unpacked(rightBytes, start, end)
  {
    left, right := [], [];
    var cursor := start;
    while cursor < end
      invariant start <= cursor <= end
      invariant left == Unpacked(leftBytes, start, cursor) && right == Unpacked(rightBytes, start, cursor)
    {
      hide NativeBit;
      var chunkEnd := Lesser(cursor + chunk, end);
      left := left + Unpacked(leftBytes, cursor, chunkEnd);
      right := right + Unpacked(rightBytes, cursor, chunkEnd);
      cursor := chunkEnd;
    }
  }

  /** x rounded down to a multiple. */
  function Floored(x: nat, ratio: nat): nat
    requires ratio > 0
  {
    RoundDown(x, ratio);
    x / ratio * ratio
  }

  /** x rounded up to a multiple. */
  function Ceiled(x: nat, ratio: nat): nat
    requires ratio > 0
  {
    ProductMonotone(ratio, 0, CeilDiv(x, ratio));
    CeilDiv(x, ratio) * ratio
  }

  method MakePlan(ratio: nat, start: nat, end: nat, total: nat, context: nat) returns (p: Plan)
    requires ratio > 0 && start < end <= total && Aligned(start, ratio) && Aligned(end, ratio)
    ensures Covers(p, ratio, start, end, total, context)
  {
    hide Floored, Ceiled, Covers, Frames, Aligned;
    var from := if start >= context then start - context else 0;
    var reach := Lesser(end + context, total);
    var extendedStart := Floored(from, ratio);
    var extendedEnd := Lesser(Ceiled(reach, ratio), total);
    FlooredLaw(from, ratio);
    CeiledLaw(reach, ratio);
    var cropStart := Frames(start - extendedStart, ratio);
    var cropEnd := cropStart + Frames(end - start, ratio);
    p := Plan(ratio, extendedStart, extendedEnd, Frames(extendedEnd - extendedStart, ratio), cropStart, cropEnd);
    PlanCovers(p, start, end, total, context);
  }

  lemma FlooredLaw(x: nat, ratio: nat)
    requires ratio > 0
    ensures Floored(x, ratio) <= x && Aligned(Floored(x, ratio), ratio)
  {
    RoundDown(x, ratio);
  }

  lemma CeiledLaw(x: nat, ratio: nat)
    requires ratio > 0
    ensures Ceiled(x, ratio) >= x
  {
    DivideStep(x, ratio);
    var q := x / ratio;
    assert (q + 1) * ratio == q * ratio + ratio;
  }

  lemma PlanCovers(p: Plan, start: nat, end: nat, total: nat, context: nat)
    requires p.ratio > 0 && Aligned(start, p.ratio) && Aligned(end, p.ratio) && Aligned(p.extendedStart, p.ratio)
    requires p.extendedStart <= start < end <= p.extendedEnd <= total
    requires p.extendedStart == 0 || start - p.extendedStart >= context
    requires p.extendedEnd == total || p.extendedEnd - end >= context
    requires p.cropStart == Frames(start - p.extendedStart, p.ratio)
    requires p.cropEnd == p.cropStart + Frames(end - start, p.ratio)
    requires p.expected == Frames(p.extendedEnd - p.extendedStart, p.ratio)
    ensures Covers(p, p.ratio, start, end, total, context)
  {
    ExactQuotient(p.extendedStart, start, p.ratio);
    ExactQuotient(start, end, p.ratio);
    var k := Frames(end - start, p.ratio);
    Distributes(p.cropStart, k, p.ratio);
    Fits(p.cropEnd, p.expected, p.extendedEnd - p.extendedStart, p.ratio);
  }

  lemma Distributes(a: nat, b: nat, n: nat)
    ensures (a + b) * n == a * n + b * n
  {
  }

  /** A multiple within d is at most the quotient. */
  lemma Fits(a: nat, q: nat, d: nat, n: nat)
    requires n > 0 && q == d / n
    ensures a * n <= d ==> a <= q
  {
    DivideStep(d, n);
    ProductMonotone(n, q + 1, a);
    Distributes(q, 1, n);
  }

  /** Between two multiples the quotient is exact. */
  lemma ExactQuotient(a: nat, b: nat, n: nat)
    requires n > 0 && a <= b && a % n == 0 && b % n == 0
    ensures a + (b - a) / n * n == b
  {
    var i, j := a / n, b / n;
    DivideStep(a, n);
    DivideStep(b, n);
    ProductMonotone(n, j + 1, i);
    Distributes(j, 1, n);
    if i <= j {
      assert (j - i) * n == j * n - i * n;
      MultipleOf(j - i, n);
    }
  }

  // ----- What the bits are worth -----

  function Total(samples: seq<int>): int {
    if samples == [] then 0 else Total(samples[..|samples| - 1]) + samples[|samples| - 1]
  }

  /** A set bit is worth one and a clear one minus one: the samples of a range sum to the excess of ones. */
  lemma {:induction false} SamplesSumToExcess(bytes: seq<byte>, lo: nat, hi: nat)
    requires lo <= hi <= 8 * |bytes|
    ensures Total(Unpacked(bytes, lo, hi)) == 2 * Ones(bytes, lo, hi) - (hi - lo)
    ensures forall i | 0 <= i < hi - lo :: Unpacked(bytes, lo, hi)[i] == 1 || Unpacked(bytes, lo, hi)[i] == -1
  {
    hide NativeBit;
    if lo < hi {
      var samples := Unpacked(bytes, lo, hi);
      SamplesSumToExcess(bytes, lo, hi - 1);
      assert samples[..|samples| - 1] == Unpacked(bytes, lo, hi - 1);
    }
  }
}
