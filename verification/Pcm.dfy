/** The PCM byte path of the AirPlay helper: two chunk decoders and the quantizer
    (airplay-helper/src/main.rs, server.rs and pcm.rs). */
module Pcm {
  import opened MachineWords
  import opened Numbers
  import opened Wrappers

  newtype i16 = x: int | -32768 <= x < 32768

  function FromLeBytes(low: byte, high: byte): i16 {
    var u := low as int + 256 * high as int;
    (if u < 32768 then u else u - 65536) as i16
  }

  // ----- What a byte stream means -----

  /** The complete little-endian samples of a byte stream. */
  function Samples(bytes: seq<byte>): seq<i16> {
    if |bytes| < 2 then [] else [FromLeBytes(bytes[0], bytes[1])] + Samples(bytes[2..])
  }

  function Leftover(bytes: seq<byte>): Option<byte> {
    if Even(|bytes|) then None else Some(bytes[|bytes| - 1])
  }

  predicate Even(n: nat) {
    n % 2 == 0
  }

  lemma EvenSteps(n: nat)
    ensures Even(n) == Even(n + 2) && Even(n) != Even(n + 1)
    ensures Even(0)
  {
  }

  /** The byte a decoder carries from one chunk to the next. */
  function Carried(odd: Option<byte>): seq<byte> {
    if odd.Some? then [odd.value] else []
  }

  lemma {:induction false} SamplesAppend(bytes: seq<byte>, pair: seq<byte>)
    requires Even(|bytes|) && |pair| == 2
    ensures Samples(bytes + pair) == Samples(bytes) + [FromLeBytes(pair[0], pair[1])]
  {
    if bytes == [] {
      assert bytes + pair == pair && pair[2..] == [];
    } else {
      assert (bytes + pair)[2..] == bytes[2..] + pair;
      SamplesAppend(bytes[2..], pair);
    }
  }

  lemma {:induction false} OddByteSaysNothing(bytes: seq<byte>, b: byte)
    requires Even(|bytes|)
    ensures Samples(bytes + [b]) == Samples(bytes)
  {
    if bytes == [] {
      assert bytes + [b] == [b];
    } else {
      assert (bytes + [b])[2..] == bytes[2..] + [b];
      OddByteSaysNothing(bytes[2..], b);
    }
  }

  /** Cutting a stream anywhere and carrying the odd byte over loses nothing. */
  lemma {:induction false} CutAnywhere(a: seq<byte>, b: seq<byte>)
    ensures Samples(a + b) == Samples(a) + Samples(Carried(Leftover(a)) + b)
    ensures Leftover(a + b) == Leftover(Carried(Leftover(a)) + b)
  {
    hide FromLeBytes, Even;
    if |a| < 2 {
      EvenSteps(0);
      assert Carried(Leftover(a)) == a;
    } else {
      CutAnywhere(a[2..], b);
      DropPair(a);
      DropPair(a + b);
      assert (a + b)[2..] == a[2..] + b;
    }
  }

  lemma DropPair(bytes: seq<byte>)
    requires |bytes| >= 2
    ensures Leftover(bytes) == Leftover(bytes[2..])
    ensures Samples(bytes) == [FromLeBytes(bytes[0], bytes[1])] + Samples(bytes[2..])
  {
    hide FromLeBytes, Even;
    EvenSteps(|bytes| - 2);
    EvenSteps(0);
    assert |bytes| == 2 ==> Even(|bytes|);
  }

  function Joined(chunks: seq<seq<byte>>): seq<byte> {
    if chunks == [] then [] else Joined(chunks[..|chunks| - 1]) + chunks[|chunks| - 1]
  }

  datatype Progress = Progress(samples: seq<i16>, odd: Option<byte>)

  /** Decoding chunk after chunk, the odd byte of each going in front of the next. */
  function ChunkByChunk(chunks: seq<seq<byte>>): Progress {
    if chunks == [] then Progress([], None)
    else
      var before := ChunkByChunk(chunks[..|chunks| - 1]);
      var bytes := Carried(before.odd) + chunks[|chunks| - 1];
      Progress(before.samples + Samples(bytes), Leftover(bytes))
  }

  /** However a stream is cut, empty chunks included, the samples and the odd byte are those of the whole. */
  lemma {:induction false} AnySplit(chunks: seq<seq<byte>>)
    ensures ChunkByChunk(chunks) == Progress(Samples(Joined(chunks)), Leftover(Joined(chunks)))
  {
    if chunks != [] {
      var k := |chunks| - 1;
      AnySplit(chunks[..k]);
      CutAnywhere(Joined(chunks[..k]), chunks[k]);
    }
  }

  // ----- The players' sinks -----

  /** Takes samples until the transport ends. */
  class Sink {
    var accepted: seq<i16>
    /** Whether the transport lasts. */
    const reliable: bool

    constructor (reliable: bool)
      ensures accepted == [] && this.reliable == reliable
    {
      accepted := [];
      this.reliable := reliable;
    }

    method Consume(sample: i16) returns (ok: bool)
      modifies this
      ensures accepted == if ok then old(accepted) + [sample] else old(accepted)
      ensures reliable ==> ok
    {
      ok := reliable;
      if !ok {
        ok := *;
      }
      if ok {
        accepted := accepted + [sample];
      }
    }
  }

  /** How far a decoder got: the samples it passed on, and the byte it kept. */
  ghost predicate Decoded(before: seq<i16>, odd0: Option<byte>, bytes: seq<byte>, after: seq<i16>,
                          odd: Option<byte>)
  {
    after == before + Samples(Carried(odd0) + bytes) && odd == Leftover(Carried(odd0) + bytes)
  }

  /** Passes on every complete sample and keeps exactly the odd trailing byte; a refused sample stops it with
      what came before passed on. */
  method DecodeChunk(bytes: seq<byte>, odd0: Option<byte>, sink: Sink) returns (odd: Option<byte>, ok: bool)
    modifies sink
    ensures ok ==> Decoded(old(sink.accepted), odd0, bytes, sink.accepted, odd)
    ensures !ok ==> CutShort(old(sink.accepted), Carried(odd0) + bytes, sink.accepted)
    ensures sink.reliable ==> ok
  {
    hide FromLeBytes, Samples, Leftover, CutShort, Even;
    ghost var all := Carried(odd0) + bytes;
    odd, ok := None, true;
    if odd0.Some? {
      if bytes == [] {
        LoneByte(odd0.value);
        assert all == [odd0.value];
        return odd0, true;
      }
      EvenSteps(0);
      NextSample(all, 0);
      ok := sink.Consume(FromLeBytes(odd0.value, bytes[0]));
      if !ok {
        StoppedAt(old(sink.accepted), all, sink.accepted, 0);
      } else {
        odd, ok := DecodePairs(bytes, 1, all, old(sink.accepted), sink);
      }
    } else {
      assert all == bytes;
      NoneYet(all);
      odd, ok := DecodePairs(bytes, 0, all, old(sink.accepted), sink);
    }
  }

  /** The pairs from an index on; all is the chunk with the byte carried into it in front. */
  method DecodePairs(bytes: seq<byte>, from: nat, ghost all: seq<byte>, ghost before: seq<i16>, sink: Sink)
    returns (odd: Option<byte>, ok: bool)
    requires from <= |bytes| <= |all| && bytes == all[|all| - |bytes|..]
    requires Even(|all| - |bytes| + from)
    requires sink.accepted == before + Samples(all[..|all| - |bytes| + from])
    modifies sink
    ensures ok ==> sink.accepted == before + Samples(all) && odd == Leftover(all)
    ensures !ok ==> CutShort(before, all, sink.accepted)
    ensures sink.reliable ==> ok
  {
    hide FromLeBytes, Samples, Leftover, CutShort, Even;
    ghost var shift := |all| - |bytes|;
    var index := from;
    odd, ok := None, true;
    while index + 1 < |bytes|
      invariant from <= index <= |bytes| && Even(index + shift)
      invariant sink.accepted == before + Samples(all[..index + shift])
    {
      NextSample(all, index + shift);
      ok := sink.Consume(FromLeBytes(bytes[index], bytes[index + 1]));
      if !ok {
        StoppedAt(before, all, sink.accepted, index + shift);
        return;
      }
      index := index + 2;
    }
    ChunkEnds(all, index + shift);
    if index < |bytes| {
      odd := Some(bytes[index]);
    }
  }

  lemma LoneByte(b: byte)
    ensures Samples([b]) == [] && Leftover([b]) == Some(b)
  {
  }

  /** Only a proper prefix of the samples was passed on. */
  ghost predicate CutShort(before: seq<i16>, all: seq<byte>, after: seq<i16>) {
    exists n: nat | n < |Samples(all)| :: after == before + Samples(all)[..n]
  }

  lemma StoppedAt(before: seq<i16>, all: seq<byte>, after: seq<i16>, n: nat)
    requires n + 1 < |all| && Even(n) && after == before + Samples(all[..n])
    ensures CutShort(before, all, after)
  {
    hide Samples;
    NextSample(all, n);
    assert after == before + Samples(all)[..|Samples(all[..n])|];
  }

  /** Where decoding ends, at most the odd byte is left. */
  lemma ChunkEnds(all: seq<byte>, n: nat)
    requires |all| - 1 <= n <= |all| && Even(n)
    ensures Samples(all) == Samples(all[..n]) && Leftover(all) == if n < |all| then Some(all[n]) else None
  {
    hide Samples;
    if n < |all| {
      OddByteSaysNothing(all[..n], all[n]);
      assert all == all[..n] + [all[n]];
    } else {
      assert all[..n] == all;
    }
  }

  /** The samples of a prefix are a prefix of the samples. */
  lemma NextSample(all: seq<byte>, n: nat)
    requires n + 1 < |all| && Even(n)
    ensures Samples(all[..n + 2]) == Samples(all[..n]) + [FromLeBytes(all[n], all[n + 1])]
    ensures |Samples(all[..n])| < |Samples(all)| && Samples(all[..n]) == Samples(all)[..|Samples(all[..n])|]
    ensures Samples(all[..0]) == [] && Even(n + 2) && Even(0)
  {
    EvenSteps(n);
    NoneYet(all);
    hide *;
    var head, pair, tail := all[..n], all[n..n + 2], all[n..];
    assert all[..n + 2] == head + pair && head + tail == all;
    SamplesAppend(head, pair);
    NoCarry(head, tail);
    CutAnywhere(head, tail);
    DropPair(tail);
  }

  lemma NoCarry(head: seq<byte>, tail: seq<byte>)
    requires Even(|head|)
    ensures Carried(Leftover(head)) + tail == tail
  {
  }

  datatype FeedError = Ended | Incomplete

  /** Reads until the end of the file; chunks are what the reads returned. */
  method FeedRawPcm(chunks: seq<seq<byte>>, sink: Sink) returns (r: Result<(), FeedError>)
    modifies sink
    ensures sink.reliable ==> forall samples | Joined(chunks) == Written(samples) ::
      r.Ok? && sink.accepted == old(sink.accepted) + samples
    ensures r.Ok? ==> |Joined(chunks)| % 2 == 0
    ensures r == Err(Incomplete) ==> |Joined(chunks)| % 2 == 1
    ensures r != Err(Ended) ==> sink.accepted == old(sink.accepted) + Samples(Joined(chunks))
    ensures sink.reliable ==> r != Err(Ended)
  {
    NothingScaled();
    hide Samples, ChunkByChunk, CutShort, Written;
    var odd: Option<byte> := None;
    for i := 0 to |chunks|
      invariant ChunkByChunk(chunks[..i]).odd == odd
      invariant sink.accepted == old(sink.accepted) + ChunkByChunk(chunks[..i]).samples
    {
      NextChunk(chunks, i);
      var ok;
      odd, ok := DecodeChunk(chunks[i], odd, sink);
      if !ok {
        return Err(Ended);
      }
    }
    assert chunks[..|chunks|] == chunks;
    AnySplit(chunks);
    forall samples | Joined(chunks) == Written(samples)
      ensures odd.None? && ChunkByChunk(chunks).samples == samples
    {
      ChunksAreDecoded(samples, chunks);
    }
    r := if odd.Some? then Err(Incomplete) else Ok(());
  }

  // ----- The server's decoder -----

  function ToReal(sample: i16): real {
    sample as int as real / 32768.0
  }

  function Scaled(samples: seq<i16>): (r: seq<real>)
    ensures |r| == |samples|
  {
    seq(|samples|, i requires 0 <= i < |samples| => ToReal(samples[i]))
  }

  /** The session's ring; once the session has ended, samples are dropped. */
  class Ring {
    var pushed: seq<real>
    const alive: bool

    constructor (alive: bool)
      ensures pushed == [] && this.alive == alive
    {
      pushed := [];
      this.alive := alive;
    }

    /** Retries until the ring has room or the session ends. */
    method Push(sample: real)
      modifies this
      ensures alive ==> pushed == old(pushed) + [sample]
      ensures !alive ==> pushed == old(pushed)
    {
      if alive {
        pushed := pushed + [sample];
      }
    }
  }

  method FeedPcmBytes(bytes: seq<byte>, odd0: Option<byte>, ring: Ring) returns (odd: Option<byte>)
    modifies ring
    ensures odd == Leftover(Carried(odd0) + bytes)
    ensures ring.pushed ==
      if ring.alive then old(ring.pushed) + Scaled(Samples(Carried(odd0) + bytes)) else old(ring.pushed)
  {
    hide FromLeBytes, ToReal, Samples, Leftover, Even;
    ghost var all := Carried(odd0) + bytes;
    odd := None;
    if odd0.Some? {
      if bytes == [] {
        LoneByte(odd0.value);
        assert all == [odd0.value];
        return odd0;
      }
      EvenSteps(0);
      NextSample(all, 0);
      ScaledAppend([], FromLeBytes(odd0.value, bytes[0]));
      ring.Push(ToReal(FromLeBytes(odd0.value, bytes[0])));
      odd := FeedPairs(bytes, 1, all, old(ring.pushed), ring);
    } else {
      assert all == bytes;
      NoneYet(all);
      odd := FeedPairs(bytes, 0, all, old(ring.pushed), ring);
    }
  }

  lemma NoneYet(all: seq<byte>)
    ensures Samples(all[..0]) == [] && Scaled([]) == [] && Even(0)
  {
  }

  method FeedPairs(bytes: seq<byte>, from: nat, ghost all: seq<byte>, ghost before: seq<real>, ring: Ring)
    returns (odd: Option<byte>)
    requires from <= |bytes| <= |all| && bytes == all[|all| - |bytes|..]
    requires Even(|all| - |bytes| + from)
    requires ring.pushed == if ring.alive then before + Scaled(Samples(all[..|all| - |bytes| + from])) else before
    modifies ring
    ensures odd == Leftover(all)
    ensures ring.pushed == if ring.alive then before + Scaled(Samples(all)) else before
  {
    hide FromLeBytes, ToReal, Samples, Leftover, Even, Scaled;
    ghost var shift := |all| - |bytes|;
    var index := from;
    odd := None;
    while index + 1 < |bytes|
      invariant from <= index <= |bytes| && Even(index + shift)
      invariant ring.pushed == if ring.alive then before + Scaled(Samples(all[..index + shift])) else before
    {
      NextSample(all, index + shift);
      ScaledAppend(Samples(all[..index + shift]), FromLeBytes(bytes[index], bytes[index + 1]));
      ring.Push(ToReal(FromLeBytes(bytes[index], bytes[index + 1])));
      index := index + 2;
    }
    ChunkEnds(all, index + shift);
    if index < |bytes| {
      odd := Some(bytes[index]);
    }
  }

  lemma ScaledAppend(samples: seq<i16>, sample: i16)
    ensures Scaled(samples + [sample]) == Scaled(samples) + [ToReal(sample)]
  {
    hide ToReal;
  }

  // ----- The quantizer -----

  datatype DitherPreference = Off | Auto | Tpdf

  function Clamp(x: real, low: real, high: real): (r: real)
    requires low <= high
    ensures low <= r <= high
  {
    if x < low then low else if x > high then high else x
  }

  /** To the nearest integer, halves away from zero. */
  function Round(x: real): int {
    if x >= 0.0 then (x + 0.5).Floor else -((-x + 0.5).Floor)
  }

  function Quantized(value: real, dither: real): i16 {
    Clamp(Round(value * 32768.0 + dither) as real, -32768.0, 32767.0).Floor as i16
  }

  function Value(sample: real, volume: real): real {
    Clamp(sample * volume, -1.0, 1.0)
  }

  /** The largest magnitude among the values at positions of one parity. */
  ghost predicate IsPeak(samples: seq<real>, volume: real, count: nat, parity: nat, peak: real)
    requires count <= |samples|
  {
    && (forall i: nat | i < count && i % 2 == parity :: Abs(Value(samples[i], volume)) <= peak)
    && (peak == 0.0 || exists i: nat | i < count && i % 2 == parity :: Abs(Value(samples[i], volume)) == peak)
  }

  /** Quantizes every complete stereo frame; tpdf is the dither drawn for each sample. */
  method QuantizeInterleaved(samples: seq<real>, volume: real, preference: DitherPreference, tpdf: nat -> real)
    returns (out: seq<i16>, maxL: real, maxR: real)
    ensures |out| == |samples| - |samples| % 2
    ensures forall i: nat | i < |out| ::
      out[i] == Quantized(Value(samples[i], volume), if preference == Off then 0.0 else tpdf(i))
    ensures IsPeak(samples, volume, |out|, 0, maxL) && IsPeak(samples, volume, |out|, 1, maxR)
  {
    var sampleCount := |samples| - |samples| % 2;
    out, maxL, maxR := [], 0.0, 0.0;
    for index := 0 to sampleCount
      invariant |out| == index
      invariant forall i: nat | i < index ::
        out[i] == Quantized(Value(samples[i], volume), if preference == Off then 0.0 else tpdf(i))
      invariant IsPeak(samples, volume, index, 0, maxL) && IsPeak(samples, volume, index, 1, maxR)
    {
      hide Quantized, Value, Abs;
      var value := Value(samples[index], volume);
      PeakGrows(samples, volume, index, 0, maxL);
      PeakGrows(samples, volume, index, 1, maxR);
      if index % 2 == 0 {
        maxL := Larger(maxL, Abs(value));
      } else {
        maxR := Larger(maxR, Abs(value));
      }
      var dither := if preference == Off then 0.0 else tpdf(index);
      out := out + [Quantized(value, dither)];
    }
  }

  lemma PeakGrows(samples: seq<real>, volume: real, count: nat, parity: nat, peak: real)
    requires count < |samples| && parity < 2 && IsPeak(samples, volume, count, parity, peak)
    ensures var grown := if count % 2 == parity then Larger(peak, Abs(Value(samples[count], volume))) else peak;
      IsPeak(samples, volume, count + 1, parity, grown)
  {
    hide Value, Abs;
    var grown := if count % 2 == parity then Larger(peak, Abs(Value(samples[count], volume))) else peak;
    if grown != 0.0 && grown == peak {
      var i: nat :| i < count && i % 2 == parity && Abs(Value(samples[i], volume)) == peak;
      assert Abs(Value(samples[i], volume)) == grown;
    } else if grown != peak {
      assert Abs(Value(samples[count], volume)) == grown;
    }
  }

  /** Undithered, at full volume, a decoded sample comes back unchanged. */
  lemma SampleSurvives(sample: i16)
    ensures Quantized(Value(ToReal(sample), 1.0), 0.0) == sample
  {
    var x := sample as int as real;
    var r := ToReal(sample);
    assert r * 32768.0 == x;
    assert -1.0 <= r <= 1.0;
    assert Value(r, 1.0) == r;
    assert Round(x) == sample as int;
  }

  /** Undithered at a lower volume, a sample comes out within half a step of its share. */
  lemma ScaledSampleIsClose(sample: i16, volume: real)
    requires 0.0 <= volume <= 1.0
    ensures var share := volume * (sample as int as real);
      -0.5 <= Quantized(Value(ToReal(sample), volume), 0.0) as int as real - share <= 0.5
  {
    var x := sample as int as real;
    var r := ToReal(sample);
    var share := volume * x;
    ShareIsBounded(volume, x, share);
    var product := r * volume;
    assert r * 32768.0 == x;
    ShareOf(x, r, volume, product, share);
    WithinUnit(product, share);
    ValueWithin(r, volume, product);
    RoundIsClose(share);
  }

  lemma ValueWithin(sample: real, volume: real, product: real)
    requires product == sample * volume && -1.0 <= product <= 1.0
    ensures Value(sample, volume) == product
  {
  }

  lemma WithinUnit(product: real, share: real)
    requires product * 32768.0 == share && -32768.0 <= share <= 32768.0
    ensures -1.0 <= product <= 1.0
  {
  }

  lemma ShareOf(x: real, r: real, volume: real, product: real, share: real)
    requires r * 32768.0 == x && product == r * volume && share == volume * x
    ensures product * 32768.0 == share
  {
    assert volume * (r * 32768.0) == 32768.0 * (r * volume);
  }

  lemma ShareIsBounded(volume: real, x: real, share: real)
    requires 0.0 <= volume <= 1.0 && -32768.0 <= x <= 32767.0 && share == volume * x
    ensures -32768.0 <= share <= 32767.0
  {
    if x >= 0.0 {
      assert volume * x <= x;
    } else {
      assert volume * x >= x;
      assert volume * x <= 0.0;
    }
  }

  lemma RoundIsClose(x: real)
    ensures -0.5 <= Round(x) as real - x <= 0.5
  {
  }

  // ----- There and back -----

  /** A sample as two bytes, the lower first, in two's complement. */
  function LeBytes(sample: i16): seq<byte> {
    var v := sample as int;
    [(v % 256) as byte, ((v / 256) % 256) as byte]
  }

  function Written(samples: seq<i16>): seq<byte> {
    if samples == [] then [] else LeBytes(samples[0]) + Written(samples[1..])
  }

  lemma BytesRead(sample: i16)
    ensures |LeBytes(sample)| == 2 && FromLeBytes(LeBytes(sample)[0], LeBytes(sample)[1]) == sample
  {
  }

  /** What was written is decoded, and no byte is left over. */
  lemma {:induction false} WrittenIsDecoded(samples: seq<i16>)
    ensures Samples(Written(samples)) == samples && Leftover(Written(samples)) == None
  {
    if samples != [] {
      hide LeBytes, FromLeBytes, Leftover, Samples;
      var bytes := Written(samples);
      BytesRead(samples[0]);
      assert bytes == LeBytes(samples[0]) + Written(samples[1..]);
      assert bytes[2..] == Written(samples[1..]);
      DropPair(bytes);
      WrittenIsDecoded(samples[1..]);
    }
  }

  /** However the written bytes are cut into chunks. */
  lemma ChunksAreDecoded(samples: seq<i16>, chunks: seq<seq<byte>>)
    requires Joined(chunks) == Written(samples)
    ensures ChunkByChunk(chunks) == Progress(samples, None)
  {
    AnySplit(chunks);
    WrittenIsDecoded(samples);
  }

  /** A session's loop: reads until the stream ends; chunks are what the reads returned. */
  method ReceivePcm(chunks: seq<seq<byte>>, ring: Ring)
    modifies ring
    ensures ring.pushed == if ring.alive then old(ring.pushed) + Scaled(Samples(Joined(chunks))) else old(ring.pushed)
  {
    NothingScaled();
    hide *;
    var odd: Option<byte> := None;
    for i := 0 to |chunks|
      invariant ChunkByChunk(chunks[..i]).odd == odd
      invariant ring.pushed ==
        if ring.alive then old(ring.pushed) + Scaled(ChunkByChunk(chunks[..i]).samples) else old(ring.pushed)
    {
      NextChunk(chunks, i);
      ScaledConcat(ChunkByChunk(chunks[..i]).samples, Samples(Carried(odd) + chunks[i]));
      odd := FeedPcmBytes(chunks[i], odd, ring);
    }
    assert chunks[..|chunks|] == chunks;
    AnySplit(chunks);
  }

  lemma NextChunk(chunks: seq<seq<byte>>, i: nat)
    requires i < |chunks|
    ensures var before := ChunkByChunk(chunks[..i]);
      var bytes := Carried(before.odd) + chunks[i];
      ChunkByChunk(chunks[..i + 1]) == Progress(before.samples + Samples(bytes), Leftover(bytes))
  {
    hide Samples, Leftover;
    assert chunks[..i + 1][..i] == chunks[..i];
  }

  lemma NothingScaled()
    ensures Scaled([]) == [] && ChunkByChunk([]) == Progress([], None)
  {
  }

  lemma ScaledConcat(a: seq<i16>, b: seq<i16>)
    ensures Scaled(a + b) == Scaled(a) + Scaled(b)
  {
    hide ToReal;
  }

  /** Written, cut anywhere, received, scaled and quantized at full volume without dither, every complete stereo
      sequence comes back. */
  method Transmit(chunks: seq<seq<byte>>, ghost samples: seq<i16>, tpdf: nat -> real) returns (out: seq<i16>)
    requires Joined(chunks) == Written(samples) && |samples| % 2 == 0
    ensures out == samples
  {
    var ring := new Ring(true);
    ReceivePcm(chunks, ring);
    WrittenIsDecoded(samples);
    assert ring.pushed == Scaled(samples);
    var maxL, maxR;
    out, maxL, maxR := QuantizeInterleaved(ring.pushed, 1.0, Off, tpdf);
    hide Quantized, Value, ToReal;
    forall i | 0 <= i < |samples| ensures out[i] == samples[i] {
      SampleSurvives(samples[i]);
    }
  }
}
