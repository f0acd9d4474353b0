# Verified models of the Fozmo player

A Dafny 4.11 project that models the parts of the repository whose correctness is hardest to see by reading, and
proves what they promise. `dafny verify dfyconfig.toml` checks all of it.

**The agent's streaming reader** (`RangeFetch`, `StreamSource`). A `Read + Seek` cursor over a remote file with one
installed buffer, one spare block and one lookahead. The server is any honest one in the sense of sections 14.1.2,
14.4 and 15.3.7 of RFC 9110: it may refuse, drop the connection, leave lengths out, or send fewer bytes than asked.
When a lookahead completes is nondeterministic. The reader is shown to be indistinguishable from a plain cursor on the
file, and to fail exactly when it has to ask and the response cannot be used.

**The agent's playback protocol** (`AgentRuntime`, `AgentProtocol`, `AgentReports`). `AgentRuntime` has one method per
section of code that runs under the runtime lock, each proved against a relation between the record before and after.
`AgentProtocol` interleaves those relations with play and prefetch tasks in flight and proves what every interleaving
keeps: loads are never stranded, and no queued track is skipped or taken twice. `AgentReports` says which reports of
the player move playback on, and where the marks it goes by come from.

**Signal tools**, over exact real numbers. The in-place FFT is the transform sum and its inverse undoes it
(`ComplexNumbers`, `FourierSpec`, `FastFourier`, `BitReversal`, `InPlaceFft`). Both Gaussian eliminations return the
only solution or nothing, with the exact condition for nothing (`Linear`, `Elimination`); on top of them stand the
tone fits (`ToneFit`) and the Lyapunov solver (`Gramian`). Gram-Schmidt least squares is `ComplexLinear`,
`GramSchmidt` and `ComplexLeastSquares`. The chain from filter sections to a balanced state space and its energy
bookkeeping is `Cascade`, `Gramian`, `Cholesky`, `StateSpaces` and `Convolution`; `DifferenceEquations` and
`FilterResponse` say which filter it is. The all-pass resampling of a filter pair is `AllPass`, `ResampledSeed`,
`StrictSeed` and `PowerComplement`, on top of `Parseval` and `LinearFactors`; the one-bit loop and its rescaling is
`Modulator`; the sliding-window measurements are `SlidingWindows`, and the window arithmetic of reconstruction is
`Reconstruction`.

**Smaller machines.** The listening tracker (`Listening` for the specification, `ListeningTrackers` for the object,
`ListenedTime` for what is counted), the login lockout limiter (`RateLimit`), the AirPlay PCM byte path (`Pcm`), and
RTSP response framing (`Rtsp`, `RtspWriting`).

Objects whose methods update fields are classes whose methods are specified by functions or relations on the whole
object value; loops are loops. Square roots, complex square roots, sines and exponentials are parameters constrained
only by the laws the code relies on.

## Where the code and its documentation disagree

* `resampled_seed_sos` says that the all-pass map preserves the frozen pair's power complement exactly. The map does
  (`ResampledSeed.ComplementSurvives`), but the zeros are first projected to a radius just below one, and that step
  does not: `StrictSeed.BoundaryZerosLoseComplement` gives a pair that loses its complement, and
  `PowerComplement.FrozenPairSurvives` shows that a complementary pair keeps it exactly when none of its zeros lies
  beyond that radius, the guard of the branch that moves them.
* `design_variant` says that scaling leaves the bitstream unchanged. The limit of the divergence reset is absolute and
  not rescaled, so this can fail (`Modulator.ResetBreaksStream`). The scaled states correspond to the original ones
  exactly when both runs trip the reset at the same samples (`Modulator.StatesAgree`), and then the streams are equal
  (`Modulator.StreamsAgree`).
* `deterministic_complex_lstsq` calls a matrix rank deficient when a column is within 1e-15 of the span of those
  before it. That is not scale-free: `ComplexLeastSquares.FullRankIsNotEnough` gives a full-rank matrix that is
  refused, and `ComplexLeastSquares.DeterministicComplexLstsq` states the exact condition.
* `AgentStreamSource::seek` narrows its target to 64 bits before clamping it. `StreamSource.SeekIsExact` states
  exactly when that makes no difference and `StreamSource.SeekCanWrap` gives a target for which it does.
* `transfer_to_zone` into a zone with an active listen drops that listen without finalizing it.
  `Listening.StepKeeps` shows that this is the only way to lose one.

## Model

| member | source | states |
|---|---|---|
| StreamSource.Serve | src/agent/stream_source.rs:33-104 | For any sequence of reads and seeks, and however lookaheads finish, fail or fall short, every reply and every position is that of a plain cursor on the file; reads fail exactly as often as a request made for one comes back with nothing to use |
| StreamSource.ReadingDeliversTheFile | src/agent/stream_source.rs:33-63 | Over a run of reads the delivered bytes, joined, are the file from the first position to the last, whatever reads failed in between; an empty answer to a non-empty request means the rest of the file has been delivered |
| StreamSource.AgentStreamSource.Read | src/agent/stream_source.rs:33-63 | The bytes at the cursor, up to the end of the buffer, and an advance by their count; nothing changes on error; 0 for a non-empty buffer only at the end of the file; an error exactly when the range had to be asked for and the response cannot be used, and none is asked for that the buffer, the spare block or a finished lookahead holds |
| StreamSource.AgentStreamSource.Seek | src/agent/stream_source.rs:65-104 | The position asked for, narrowed to 64 bits and then clamped to a known length; the held lookahead and spare block survive exactly when the target is near, otherwise the task is aborted |
| StreamSource.SeekIsExact | src/agent/stream_source.rs:65-104 | A seek lands on the clamped target if and only if the target fits 64 bits, or its low 64 bits are past the known end as well |
| StreamSource.SeekCanWrap | src/agent/stream_source.rs:65-104 | With the length unknown a relative seek past 2^64 lands near the start |
| StreamSource.SeekThenRead | src/agent/stream_source.rs:33-104 | After a seek by an offset that fits, a read gets the bytes at that offset from the start, from the cursor, or back from the end |
| StreamSource.AgentStreamSource.FetchInline | src/agent/stream_source.rs:174-185 | One request for the range at the position; an error exactly when its response cannot be used |
| StreamSource.AgentStreamSource.Open | src/agent/stream_source.rs:117-145 | A fresh, primed reader at position 0 with the first response as its buffer; an error exactly when that response cannot be used |
| StreamSource.AgentStreamSource.LoadBufferAt | src/agent/stream_source.rs:162-187 | On success the buffer holds the position, or is empty and the position is at or past the end; an error exactly when the request it makes comes back with nothing to use, and it makes none for what the spare block or a finished lookahead holds |
| StreamSource.AgentStreamSource.InstallBlock | src/agent/stream_source.rs:189-193 | The block becomes the buffer and a length it knows is learned |
| StreamSource.AgentStreamSource.InstallNextBlockIfContains | src/agent/stream_source.rs:195-206 | The spare block is installed exactly when it serves the position and kept otherwise |
| StreamSource.AgentStreamSource.WaitForPrefetchIfContains | src/agent/stream_source.rs:208-231 | A lookahead that cannot serve the position is left running; one that might is waited for and consumed; its block is installed exactly when it serves the position and becomes the spare otherwise |
| StreamSource.AgentStreamSource.CollectPrefetch | src/agent/stream_source.rs:233-250 | A finished lookahead becomes the spare block exactly when it carries bytes; no unread spare block is ever overwritten |
| StreamSource.AgentStreamSource.StartPrefetchNext | src/agent/stream_source.rs:252-283 | Afterwards the next block is held, coming, or known not to exist; a new lookahead starts where the buffer ends |
| RangeFetch.FetchAgentRange | src/agent/range_fetch.rs:62-123 | Asks for exactly the capped range unless past a known end; fails exactly when the server is unreachable, refuses, ignores the range or loses the body; otherwise holds exactly the bytes sent, which are the file from the requested start, empty only at or past the end |
| RangeFetch.PartialIsServed | src/agent/range_fetch.rs:101-122 | An honest partial response whose body arrives is always used |
| RangeFetch.RangePrefetch.TryTake | src/agent/range_fetch.rs:42-44 | A finished result is taken exactly once; an unfinished lookahead stays live |
| RangeFetch.RangePrefetch.Wait | src/agent/range_fetch.rs:46-53 | A live lookahead yields its result, the finished one if there is one, and is consumed |
| RangeFetch.RangePrefetch.Drop | src/agent/range_fetch.rs:56-60 | Dropping aborts the task |
| AgentProtocol.LoadsStayTracked | src/agent/control_loop.rs:211-362 | Every lock-held section of every actor keeps: the loading mark is absent or the current generation, and it is present exactly while one unfinished play task carries that generation for the current source |
| AgentProtocol.RunTracksLoads | src/agent/control_loop.rs:211-466 | The same in every interleaving from the initial state with fewer than 2^64 generations |
| AgentProtocol.LoadingMeansOneTask | src/agent/control_loop.rs:364-459 | Whenever a load is marked, exactly one unfinished task carries the current generation, so the tick is blocked only while a load is outstanding |
| AgentProtocol.EveryExitClears | src/agent/prefetch.rs:37-90 | However a play task ends, no mark of its generation is left; the early return happens only for a superseded generation |
| AgentProtocol.PlayTasksFinish | src/agent/prefetch.rs:37-90 | A play task ends after at most five moves of its own and nothing else moves it |
| AgentProtocol.StepKeepsQueue | src/agent/prefetch.rs:116-270 | Every section keeps the armed source at the front of the queue, none armed under repeat-one, at most two kept streams and all of them relevant; it takes at most the front key and makes exactly that current |
| AgentProtocol.RunKeepsQueue | src/agent/prefetch.rs:138-270 | The same in every interleaving |
| AgentProtocol.QueueIsConserved | src/agent/control_loop.rs:312-344 | Between queue-setting commands, keys taken followed by keys left are the keys there were, however tick and ticker interleave |
| AgentProtocol.TickerKeepsQueue | src/agent/prefetch.rs:187-227 | The ticker's search for the armed key stops at the front: it takes one track and skips none |
| AgentReports.AdvanceMeansShown | src/agent/prefetch.rs:187-208 | An advance means that the player shows the armed name; shown while the current source has another name it advances; shown when they share it, it advances exactly when the item was seen in the player queue and that is now empty |
| AgentReports.TickerTakesWhenShown | src/agent/prefetch.rs:187-227 | The same over every interleaving, the sighting being an earlier report since the source was armed |
| AgentReports.SightingComesFirst | src/agent/prefetch.rs:197-199 | A source marked as seen was reported in the player queue after it was armed, and has been armed and marked ever since |
| AgentReports.TickerEffect | src/agent/prefetch.rs:187-227 | An advance makes the armed source current and active under a new generation and takes it off the front of the queue; any other report changes at most the mark |
| AgentReports.TickPlaysWhen | src/agent/control_loop.rs:376-435 | When a tick starts a track, which one, and what it does otherwise |
| AgentReports.TickStartsWhenDone | src/agent/control_loop.rs:364-459 | Over every interleaving a tick starts a track exactly when no load is outstanding, one can follow, and the current one is to be skipped, or the player stopped after a report showed it playing or after its time to start |
| AgentReports.ActivityComesFirst | src/agent/control_loop.rs:384-388 | An active source was reported as playing since it became current |
| AgentReports.StartsAreTimed | src/agent/prefetch.rs:83-88 | The start of a track is timed from when its load begins and again from when the player accepts it |
| AgentReports.SkipsAreServed | src/agent/control_loop.rs:307-310 | A skip is remembered until a track begins or playing ends |
| AgentReports.StaleNeverCalls | src/agent/prefetch.rs:57-66 | A play task goes on to the player exactly when its generation and key are still current |
| AgentReports.RetainedAreOfUse | src/agent/prefetch.rs:229-270 | Of at most two streams exactly those for the current or a queued source are retained |
| AgentReports.SetQueueArmsFront | src/agent/control_loop.rs:312-330 | After a queue command the front is armed if it was, or if its stream is kept and repeat-one is off; otherwise nothing is |
| AgentReports.PlaySourceEffect | src/agent/control_loop.rs:220-264 | A play command begins a load of its source under a new generation, with its queue, nothing armed, and the stream kept for the source if there was one |
| AgentReports.StopEffect | src/agent/control_loop.rs:292-306 | A stop forgets everything but repeat-one, under a new generation |
| AgentReports.LoopModeArmsFront | src/agent/control_loop.rs:331-344 | Repeat-one disarms; turning it off arms a front whose stream is kept |
| AgentReports.PrefetchBeginsWhenUseful | src/agent/prefetch.rs:101-115 | A prefetch begins exactly for a key of use that is neither kept nor armed nor being fetched |
| AgentReports.OpenedStreamIsPlaced | src/agent/prefetch.rs:116-136 | An opened stream is armed if next, kept if of use, dropped otherwise |
| AgentRuntime.AgentRuntimeState.constructor | src/agent/runtime.rs:21-40 | The empty record |
| AgentRuntime.AgentRuntimeState.PlaySource | src/agent/control_loop.rs:220-264 | A new generation, its loading mark, the new source and queue, nothing armed, and the prefetched store trimmed in favour of the source |
| AgentRuntime.AgentRuntimeState.Stop | src/agent/control_loop.rs:292-306 | Everything but repeat-one is forgotten under a new generation |
| AgentRuntime.AgentRuntimeState.Next | src/agent/control_loop.rs:307-310 | Only the skip request is set |
| AgentRuntime.AgentRuntimeState.SetQueue | src/agent/control_loop.rs:312-330 | The armed source survives exactly when it is the new front; otherwise a buffered front is armed |
| AgentRuntime.AgentRuntimeState.SetLoopMode | src/agent/control_loop.rs:331-344 | Repeat-one disarms, its end arms a buffered front |
| AgentRuntime.AgentRuntimeState.MaybeAdvanceGapless | src/agent/control_loop.rs:364-459 | The tick idles, marks activity, gives up the current source or starts a load, with the branch conditions of the source |
| AgentRuntime.AgentRuntimeState.ClearLoadingGeneration | src/agent/control_loop.rs:461-466 | The mark goes exactly when the generation is still current |
| AgentRuntime.AgentRuntimeState.BeginPlay | src/agent/prefetch.rs:47-53 | A kept stream for the key is claimed, others stay relevant |
| AgentRuntime.AgentRuntimeState.FinishPlay | src/agent/prefetch.rs:77-89 | A current generation gets its start time and loses its mark; a superseded one changes nothing |
| AgentRuntime.AgentRuntimeState.BeginPrefetch | src/agent/prefetch.rs:101-115 | A prefetch proceeds exactly when its key is relevant and neither kept, armed nor being fetched |
| AgentRuntime.AgentRuntimeState.EndPrefetch | src/agent/prefetch.rs:116-136 | An opened stream is armed if it is next, kept if it is relevant, and dropped otherwise |
| AgentRuntime.AgentRuntimeState.ArmBufferedFrontForGapless | src/agent/prefetch.rs:138-149 | A buffered front is armed unless repeat-one or an armed source forbids it |
| AgentRuntime.AgentRuntimeState.ArmHandleForGapless | src/agent/prefetch.rs:151-169 | The source and its stream are the armed pair, not yet observed in the player queue |
| AgentRuntime.AgentRuntimeState.SynchronizeGaplessEngineAdvance | src/agent/prefetch.rs:187-227 | The step of which AgentReports.AdvanceMeansShown says when it advances and TickerEffect what it does |
| AgentRuntime.AgentRuntimeState.RetainRelevantPrefetches | src/agent/prefetch.rs:229-250 | Only relevant streams stay, at most two, the preferred one among them |
| AgentRuntime.AgentRuntimeState.InsertPrefetched | src/agent/prefetch.rs:252-255 | The new stream is kept and the store trimmed in its favour |
| AgentRuntime.AgentRuntimeState.TrimPrefetchedToLimit | src/agent/prefetch.rs:257-270 | At most two streams survive, unchanged, and the preferred one does if it was there |
| InPlaceFft.Fft | tools/gen_beam_error_profiles.py:586-618 | Succeeds exactly for power-of-two lengths and then returns the plain transform sum at every index, divided by the length when inverting |
| InPlaceFft.TransformInverse | tools/gen_beam_error_profiles.py:586-618 | Either direction followed by the other returns the original sequence |
| InPlaceFft.ToneLandsAtItsIndex | tools/gen_beam_error_profiles.py:602-615 | The forward transform puts a tone of f counter-clockwise turns at index f and nothing elsewhere |
| InPlaceFft.BitReverse | tools/gen_beam_error_profiles.py:593-601 | The swap pass computes the recursive even-odd shuffle in place |
| InPlaceFft.NextReversed | tools/gen_beam_error_profiles.py:594-599 | The carry loop turns the reversal of i into the reversal of i + 1 |
| InPlaceFft.ButterflyPass | tools/gen_beam_error_profiles.py:603-615 | A pass turns transformed blocks of half the length into transformed blocks of the length |
| InPlaceFft.ButterflyBlock | tools/gen_beam_error_profiles.py:606-614 | The running twiddle combines one block and leaves the rest of the buffer alone |
| FastFourier.SpectrumIsDft | tools/gen_beam_error_profiles.py:602-615 | Butterflies over the bit-reversed samples are the plain transform sum, for any roots with the laws of the exponential |
| FastFourier.EvenOutputs | tools/gen_beam_error_profiles.py:606-614 | Even outputs are the transform of the sum of the halves |
| FastFourier.OddOutputs | tools/gen_beam_error_profiles.py:606-614 | Odd outputs are the transform of the twisted difference of the halves |
| FastFourier.OppositeTransform | tools/gen_beam_error_profiles.py:616-618 | The transform of opposite sign undoes a transform up to the length |
| Parseval.TransformKeepsEnergy | tools/gen_beam_error_profiles.py:602-615 | The transform multiplies the energy of a sequence by its length |
| BitReversal.PowerOfTwoTest | tools/gen_beam_error_profiles.py:590-591 | n & (n - 1) is zero exactly for the powers of two |
| BitReversal.ReverseCarry | tools/gen_beam_error_profiles.py:594-599 | While the top bit of the reversal is set the carry moves on; otherwise setting it completes the increment |
| BitReversal.ReverseInvolution | tools/gen_beam_error_profiles.py:600-601 | Reversing twice is the identity, so swapping once per pair is enough |
| BitReversal.BitReversedAt | tools/gen_beam_error_profiles.py:593-601 | The recursive shuffle puts at i the sample of the reversed index |
| Elimination.SolveLinearSystem | audio_tests/dsd_public/analysis.rs:1242-1276 | A returned vector is the only solution of the original system; none is returned exactly when some elimination stage has no pivot beyond the epsilon |
| Elimination.LastLargest | audio_tests/dsd_public/analysis.rs:1245-1249 | Ties between pivots go to the last row, as max_by does |
| Elimination.Solve | tools/gen_beam_error_profiles.py:346-367 | A returned vector is the only solution of the original system; failure exactly when some elimination stage has only entries below the threshold |
| Elimination.FirstLargest | tools/gen_beam_error_profiles.py:350 | Ties between pivots go to the first row, as max does |
| Elimination.BackSubstitute | tools/gen_beam_error_profiles.py:362-367 | The triangular system has exactly the vector computed as its solution |
| Elimination.OnlySolutionIsRegular | tools/gen_beam_error_profiles.py:346-367 | A system with exactly one solution has a matrix that sends only zero to zero |
| ToneFit.LeastSquares | audio_tests/dsd_public/analysis.rs:1157-1187 | The accumulated, mirrored and solved normal equations give the one least-squares fit: residual orthogonal to every column and every other choice strictly worse; nothing exactly when the equations stall |
| ToneFit.Mirror | audio_tests/dsd_public/analysis.rs:1174-1180 | The upper triangle becomes the mirror of the lower |
| ToneFit.FitTones | audio_tests/dsd_public/analysis.rs:1144-1187 | The error cases in order, and otherwise the unique best sine and cosine coefficients |
| ToneFit.FitTonesAndDc | audio_tests/dsd_public/analysis.rs:1193-1240 | The same with a constant term |
| ToneFit.PredictionIsDot | audio_tests/dsd_public/analysis.rs:1278-1292 | The rows that were fitted are the rows that predict |
| ToneFit.TonesAreRecovered | audio_tests/dsd_public/analysis.rs:1144-1240 | A signal made of the tones at their frequencies, with a constant where one is fitted, is fitted by its own coefficients |
| GramSchmidt.Factorize | tools/gen_crfb.py:116-136 | Column by column: orthonormal Q, upper triangular R with positive diagonal and QR equal to the input; or a column nearly dependent on those before it |
| GramSchmidt.InnerProduct | tools/gen_crfb.py:122-124 | The loop accumulates the conjugated inner product |
| GramSchmidt.SubtractMultiple | tools/gen_crfb.py:125-127 | The loop subtracts the projection |
| GramSchmidt.SumOfSquares | tools/gen_crfb.py:128-130 | The loop accumulates the squared length |
| ComplexLeastSquares.DeterministicComplexLstsq | tools/gen_crfb.py:103-156 | For any number of right-hand sides: each answer has a residual orthogonal to every column and is strictly best; failure exactly on a shape mismatch or a column within the tolerance of the span of its predecessors |
| ComplexLeastSquares.Project | tools/gen_crfb.py:138-144 | Each projected entry is an inner product with a column of Q |
| ComplexLeastSquares.BackSubstitute | tools/gen_crfb.py:146-152 | The triangular system is solved exactly |
| ComplexLeastSquares.AnswerIsBest | tools/gen_crfb.py:138-156 | The back-substituted answer of a factored matrix is the best one |
| ComplexLeastSquares.FactoredIsIndependent | tools/gen_crfb.py:132-133 | A matrix that factors has no column near the span of those before it, so success and refusal exclude each other |
| ComplexLeastSquares.FullRankIsNotEnough | tools/gen_crfb.py:132-133 | A full-rank matrix that is refused: one column of length 1e-16 |
| Cascade.CascadeStep | tools/gen_beam_error_profiles.py:320-328 | One sample through every section, in place, is the recursive step |
| Cascade.StepLinear | tools/gen_beam_error_profiles.py:320-328 | The step is linear in state and input together |
| DifferenceEquations.SectionIsFilter | tools/gen_beam_error_profiles.py:324-327 | From rest a section solves y[n] = b0 x[n] + b1 x[n-1] + b2 x[n-2] - a1 y[n-1] - a2 y[n-2] |
| DifferenceEquations.CascadeIsFilter | tools/gen_beam_error_profiles.py:320-328 | From rest the outputs of a cascade are the one solution of its sections' difference equations one after the other |
| FilterResponse.CascadeTransform | tools/gen_beam_error_profiles.py:320-328 | For any run from any state the transform of the outputs is the frequency response times that of the inputs, up to what the states owe before and after |
| FilterResponse.ImpulseHasResponse | tools/gen_beam_error_profiles.py:173-180 | The transform of the impulse response is the response whose power seeds are judged by, up to what the states still owe |
| Cascade.CascadeStateSpace | tools/gen_beam_error_profiles.py:331-343 | The matrices read off by probing basis states agree with the step for every state and every input |
| Gramian.ObservabilityGramian | tools/gen_beam_error_profiles.py:370-387 | The result is symmetric and the one and only solution of P = A'PA + cc'; failure exactly when the flattened system collapses |
| Gramian.EquationMeans | tools/gen_beam_error_profiles.py:371-383 | Row (i, j) of the flattened system is entry (i, j) of the Lyapunov equation |
| Gramian.EquationsMean | tools/gen_beam_error_profiles.py:371-383 | The flattened system is the Lyapunov equation |
| Gramian.AverageKeeps | tools/gen_beam_error_profiles.py:384-387 | Uniqueness makes the solution symmetric, so averaging it with its transpose keeps it |
| Gramian.OnlyGramian | tools/gen_beam_error_profiles.py:370-387 | No other matrix solves the equation |
| Cholesky.CholeskyLower | tools/gen_beam_error_profiles.py:390-403 | A factor is lower triangular with positive diagonal and L times its transpose is the matrix; for a symmetric matrix it exists exactly when the matrix is positive definite |
| Cholesky.FactoredForm | tools/gen_beam_error_profiles.py:390-403 | The matrix acts as L times its transpose on every vector |
| Cholesky.Inverse | tools/gen_beam_error_profiles.py:421-427 | A two-sided inverse; failure exactly when a basis column's system collapses |
| StateSpaces.BalancedStateSpace | tools/gen_beam_error_profiles.py:434-451 | The balanced form gives the cascade's outputs for every finite input, is orthonormal and conserves energy; each failure has its cause in the cascade |
| StateSpaces.ConjugateStep | tools/gen_beam_error_profiles.py:444-451 | One step in the new coordinates is the step of the cascade in the old ones |
| StateSpaces.SameFrom | tools/gen_beam_error_profiles.py:434-451 | From any state and over any input sequence the outputs are identical |
| StateSpaces.LyapunovForm | tools/gen_beam_error_profiles.py:434-441 | The Lyapunov equation as an identity of bilinear forms |
| StateSpaces.ConjugateIsOrthonormal | tools/gen_beam_error_profiles.py:438-451 | The change of basis by the Cholesky factor makes the Gramian the identity |
| StateSpaces.EnergyIsConserved | tools/gen_beam_error_profiles.py:444-451 | For every input sequence summed squared output plus final state energy is initial state energy plus the sum of 2u(h.x) + q u^2 |
| StateSpaces.ImpulseSupplies | tools/gen_beam_error_profiles.py:465-479 | An impulse from rest supplies exactly q |
| StateSpaces.EnergyOfImpulse | tools/gen_beam_error_profiles.py:465-479 | After any number of samples energy and tail add up to q |
| StateSpaces.ImpulseEnergy | tools/gen_beam_error_profiles.py:465-479 | Energy and tail are those of the impulse response at the sample where the loop stops, early exit included, and add up to q |
| StateSpaces.MaxLyapunovResidual | tools/gen_beam_error_profiles.py:454-462 | The balanced form has no residual |
| Convolution.SosImpulse | tools/gen_beam_error_profiles.py:536-542 | The impulse response of the cascade |
| Convolution.StateSpaceRun | tools/gen_beam_error_profiles.py:545-552 | The outputs of the state space from rest |
| Convolution.OutputIsConvolution | tools/gen_beam_error_profiles.py:555-583 | Every output of the cascade from rest is its impulse response convolved with the input |
| Convolution.RealizationAgreement | tools/gen_beam_error_profiles.py:555-583 | A profile with the cascade's outputs has agreement errors of exactly zero |
| AllPass.ResponsePower | tools/gen_beam_error_profiles.py:173-180 | The loop computes the squared modulus of the product of the section responses |
| AllPass.SubstitutedEval | tools/gen_beam_error_profiles.py:237-242 | The substituted quadratic at w is a square factor times the quadratic at the warped point |
| ResampledSeed.WarpBack | tools/gen_beam_error_profiles.py:223-236 | The warp maps the unit circle onto itself and the opposite warp undoes it |
| ResampledSeed.RootsAreRoots | tools/gen_beam_error_profiles.py:192-196 | The two values are the roots, with multiplicity, and conjugate or both real |
| ResampledSeed.StableIsRegular | tools/gen_beam_error_profiles.py:205-208 | A denominator with both poles inside does not vanish on or inside the unit circle |
| ResampledSeed.MappedRatio | tools/gen_beam_error_profiles.py:236-250 | A mapped section at w is the section at the warped point |
| ResampledSeed.MappedResponse | tools/gen_beam_error_profiles.py:223-251 | The same for any number of sections |
| ResampledSeed.ComplementSurvives | tools/gen_beam_error_profiles.py:223-251 | A mapped pair is power-complementary exactly when the projected pair it was mapped from is |
| StrictSeed.ProjectionFails | tools/gen_beam_error_profiles.py:206-209 | Projection fails exactly on a pole on or outside the circle or, poles being stable, a vanishing leading coefficient |
| StrictSeed.ProjectionSucceeds | tools/gen_beam_error_profiles.py:199-220 | The projected section has the same gain and poles, and its zeros are the old ones, pulled in radially where beyond the strict radius |
| StrictSeed.ProjectionIsIdentity | tools/gen_beam_error_profiles.py:211-216 | A section is unchanged exactly when both zeros are within the strict radius |
| StrictSeed.StrictMinimumPhaseSos | tools/gen_beam_error_profiles.py:199-220 | Succeeds exactly when every section is stable with a leading coefficient, and projects each; otherwise the first failing section gives the error |
| StrictSeed.ResampledSeedSos | tools/gen_beam_error_profiles.py:223-251 | Succeeds and fails as the projection does, and maps the projected cascade by the warp of the rate ratio |
| StrictSeed.AlphaScalesFrequency | tools/gen_beam_error_profiles.py:234-236 | The warp is the bilinear map between the rates: it scales (1 - w) / (1 + w) by target over source |
| StrictSeed.BoundaryZerosLoseComplement | tools/gen_beam_error_profiles.py:225-229 | The documented claim fails for zeros on the circle: a complementary pair whose projection is not complementary |
| LinearFactors.PullsLowerEnergy | tools/gen_beam_error_profiles.py:211-218 | Pulling zeros in lowers the energy of the coefficients, strictly if any zero moves |
| PowerComplement.CascadePower | tools/gen_beam_error_profiles.py:173-180 | The power response of a cascade by its gain, zeros and poles |
| PowerComplement.EnergiesBalance | tools/gen_beam_error_profiles.py:225-229 | A complementary pair balances the coefficient energies of its zeros and poles |
| PowerComplement.ProjectionMoves | tools/gen_beam_error_profiles.py:199-220 | A projected cascade keeps its gain and poles, each zero is pulled radially or not at all, and nothing moves exactly when no zero lies beyond the radius |
| PowerComplement.FrozenPairSurvives | tools/gen_beam_error_profiles.py:223-251 | Of any complementary pair, the seeds made from it are complementary exactly when no zero of the pair lies beyond the strict radius |
| Modulator.BatchSimulate | tools/gen_crfb.py:273-297 | Every column ends with the peaks and the instability flag of its own run |
| Modulator.BitsAreSigns | tools/gen_crfb.py:286-289 | Every bit is the sign of C x + d1 u plus its dither |
| Modulator.StatesAreLinear | tools/gen_crfb.py:290-295 | Every state is A x + bu u + bv v of the one before, or zero when an entry passes the limit |
| Modulator.PeaksAreLargest | tools/gen_crfb.py:296 | The peaks are the largest magnitudes the states have had |
| Modulator.StatesAgree | tools/gen_crfb.py:404-411 | The scaled state is T inverse times the original at every sample, for every stimulus and dither, exactly when the two runs trip the divergence reset at the same samples |
| Modulator.StreamsAgree | tools/gen_crfb.py:404-411 | Quantizer inputs and bit streams are then identical, at any length |
| Modulator.QuietRunsMatch | tools/gen_crfb.py:285-296 | In particular when neither run is flagged |
| Modulator.ResetBreaksStream | tools/gen_crfb.py:404-405 | A plant whose first sample trips the reset before scaling but not after: its bit streams differ |
| Modulator.ScalingNormalizes | tools/gen_crfb.py:404-411 | Scaling by measured peaks makes every peak of the same run one |
| SlidingWindows.DensityOf | audio_tests/dsd_public/analysis.rs:407-442 | Error exactly on an invalid range; otherwise whole-range density and the largest deviation over all bit-aligned windows |
| SlidingWindows.BitsSpellByte | audio_tests/dsd_public/analysis.rs:1302-1304 | The eight bits of a byte read in their order, most significant first, are the byte |
| SlidingWindows.RollingMaxDeviation | audio_tests/dsd_public/analysis.rs:420-435 | The one-pass count gives the maximum of the naive deviations of all windows |
| SlidingWindows.SquaredPrefix | audio_tests/dsd_public/analysis.rs:865-872 | Entry k is the sum of the first k squares |
| SlidingWindows.WindowIsNaive | audio_tests/dsd_public/analysis.rs:865-878 | Prefix differences give the directly computed level of every window |
| SlidingWindows.FirstSettled | audio_tests/dsd_public/analysis.rs:725-738 | The earliest start of the required run of quiet windows, or none exactly when there is no such start |
| SlidingWindows.RecoveryTime | audio_tests/dsd_public/analysis.rs:713-738 | That start in milliseconds, and the too-short error exactly when the residual is shorter than the requirement |
| Reconstruction.ReconstructStereoRange | audio_tests/dsd_public/analysis.rs:269-360 | Accepts exactly the aligned windows within the recording; the bits fed are those of the extended range once each and in order, and cropping gives exactly the requested samples |
| Reconstruction.MakePlan | audio_tests/dsd_public/analysis.rs:305-350 | The context reaches as far as asked or to the ends, on decimation boundaries, and the crop is within the decoded frames |
| Reconstruction.FeedRange | audio_tests/dsd_public/analysis.rs:320-331 | Feeding in chunks feeds every bit of the range once and in order |
| Reconstruction.SamplesSumToExcess | audio_tests/dsd_public/analysis.rs:387-405 | The samples unpacked from a range are ones and minus ones that sum to the excess of set bits over clear ones |
| Listening.StepKeeps | src/listening.rs:86-597 | An operation keeps every listen in exactly one zone or finalized exactly once, on time and recorded, if and only if it does not move a listen onto another one |
| Listening.RunKeeps | src/listening.rs:86-597 | The same over every run |
| Listening.EmptyIsSound | src/listening.rs:60-68 | The empty tracker has nothing to account for |
| Listening.TransferKeeps | src/listening.rs:220-252 | A transfer keeps account exactly when the destination has no listen |
| Listening.OverwrittenIsLost | src/listening.rs:229-251 | The listen it lands on is then in no zone and never finalized |
| ListeningTrackers.ListeningTracker.StartWithRadio | src/listening.rs:86-126 | A running listen is finalized, the new one opened, pending and transferred entries dropped |
| ListeningTrackers.ListeningTracker.SetQueueWithRadio | src/listening.rs:132-153 | The queue replaces that of the active listen, or waits as pending |
| ListeningTrackers.ListeningTracker.AppendQueueWithRadio | src/listening.rs:155-179 | The queue extends that of the active listen or the pending one |
| ListeningTrackers.ListeningTracker.TransferToZone | src/listening.rs:220-252 | The listen moves with its time, and account is kept exactly when it lands on none |
| ListeningTrackers.ListeningTracker.Observe | src/listening.rs:292-442 | The zone's listen ticks, waits, ends, moves on in its queue or is recovered, as the observation says |
| ListeningTrackers.ListeningTracker.ObserveStopped | src/listening.rs:327-355 | A stopped zone: start grace, then the wait for auto-advance, then the end |
| ListeningTrackers.ListeningTracker.ObserveElsewhere | src/listening.rs:357-418 | Another track: start grace, then the first queued match, then recovery |
| ListeningTrackers.ListeningTracker.ObserveMatched | src/listening.rs:420-436 | The same track: its listened time grows by the gap since the last observation if playing and under five seconds (ListenedTime.ListenedIsHeard) |
| ListeningTrackers.ListeningTracker.RecoverActiveListen | src/listening.rs:497-551 | A pending entry or a library track becomes a listen with the recovered time |
| ListeningTrackers.ListeningTracker.Stop | src/listening.rs:444-450 | The listen is finalized, completed or not by its position |
| ListeningTrackers.ListeningTracker.Next | src/listening.rs:452-495 | The listen is finalized and the queue's front opened |
| ListeningTrackers.ListeningTracker.FinalizeListen | src/listening.rs:626-644 | What was played is recorded unless too short to matter |
| ListeningTrackers.ListeningTracker.ActiveHistoryInputs | src/listening.rs:572-597 | Every running listen reports its listened time and the gap since its last observation if that was of it playing less than five seconds ago; never more than it was opened with plus the time since |
| ListenedTime.ListenedIsHeard | src/listening.rs:420-436 | While a track goes on, whatever happens elsewhere, its listened time is its start value plus exactly the gaps under five seconds that ended playing; position and duration are the last reported |
| ListenedTime.ObservationAddsLittle | src/listening.rs:427-431 | No observation adds five seconds or more |
| ListenedTime.LiveReportIsHeard | src/listening.rs:572-597 | A live report is what was heard and the running gap |
| ListenedTime.StoppedTrackIsRecorded | src/listening.rs:444-450 | A stopped track leaves one record of what was heard, completed exactly in its last twentieth or two seconds, unless too short to matter |
| ListenedTime.SkippedTrackIsRecorded | src/listening.rs:452-495 | A skipped track leaves one record, not completed, and the front of its queue follows |
| ListenedTime.CompletedTrackWaits | src/listening.rs:327-355 | A completed track with one to follow waits twenty seconds from the first stop and is then finalized as completed |
| ListenedTime.StartIsGivenTime | src/listening.rs:327-362 | A track not yet seen survives twenty seconds of other observations |
| ListenedTime.RecoveredStartsAtPosition | src/listening.rs:497-551 | A recovered listen starts with the reported position, at most the duration |
| ListenedTime.StartOpensTrack | src/listening.rs:86-126 | A started track is the fresh listen of its zone with its queue in order; one running there is finalized unfinished |
| ListenedTime.QueuedTrackFollows | src/listening.rs:357-407 | A zone seen playing a queued track moves on to the first such track, its old listen finalized as completed |
| ListenedTime.TransferMovesListen | src/listening.rs:220-252 | A transfer takes the listen, its time and its queue to the other zone |
| ListenedTime.LeftZoneStaysQuiet | src/listening.rs:553-570 | The zone a track left, still seen playing it, opens no listen |
| RateLimit.AuthRateLimiter.LockoutRemainingAt | src/app/rate_limit.rs:56-63 | The rest of the lockout, never zero |
| RateLimit.AuthRateLimiter.RecordFailureAt | src/app/rate_limit.rs:70-90 | Pruning, then one more failure and the lockout it triggers, which is what remains |
| RateLimit.AuthRateLimiter.RecordSuccess | src/app/rate_limit.rs:93-95 | The peer is forgotten and not locked out |
| RateLimit.AuthRateLimiter.MaybePrune | src/app/rate_limit.rs:97-109 | Pruning changes no peer's remaining lockout, at that time or any later one |
| RateLimit.IdlePeersAreForgotten | src/app/rate_limit.rs:97-109 | After any run that ends with a failure only peers that failed within two hours and a minute are remembered |
| RateLimit.LockoutLaw | src/app/rate_limit.rs:83-87 | The capped shift is min(30 * 2^(n-6), 3600) seconds for every count n |
| RateLimit.FailuresAreTracked | src/app/rate_limit.rs:70-109 | Whatever other peers do, a peer that keeps failing is remembered exactly and waits out every lockout |
| RateLimit.NextLockout | src/app/rate_limit.rs:70-90 | The n-th failure triggers nothing before the sixth and min(30 * 2^(n-6), 3600) seconds from then on |
| RateLimit.GuessingIsSlow | src/app/rate_limit.rs:56-90 | Elapsed time is at least the sum of the earlier lockouts |
| RateLimit.TotalCostLaw | src/app/rate_limit.rs:83-87 | That sum is 3810 seconds for the doublings and an hour each after them |
| RateLimit.ManyFailuresTakeHours | src/app/rate_limit.rs:56-109 | Over every admitted run |
| Rtsp.ReadRtspResponse | airplay-helper/src/raop.rs:741-793 | Returns the next response of the stream and leaves unread exactly what follows, for every split into reads and pauses; every error has its cause in the bytes or in the socket, and a well-behaved socket never makes a complete response fail |
| Rtsp.ReadHead | airplay-helper/src/raop.rs:746-754 | The shortest prefix that ends with a blank line, within the limit |
| Rtsp.ReadExactUntil | airplay-helper/src/raop.rs:795-822 | The buffer is filled with the next bytes and no other byte is consumed |
| Rtsp.NextAppend | airplay-helper/src/raop.rs:741-793 | What follows a complete response does not change how it reads |
| Rtsp.ResponsesInOrder | airplay-helper/src/raop.rs:741-822 | k reads return k complete responses in order and leave exactly what follows |
| RtspWriting.WrittenReadsBack | airplay-helper/src/raop.rs:756-776 | A response written by sections 4.4 and 7 of RFC 2326, within the limits, reads back with its status, headers and body, in whatever case the length header is named |
| RtspWriting.FieldsReadBack | airplay-helper/src/raop.rs:763-770 | The last field of each name, in any case, reads back with its value |
| RtspWriting.FieldsAreRead | airplay-helper/src/raop.rs:763-770 | The same of the header lines alone |
| RtspWriting.LowerIgnoresCase | airplay-helper/src/raop.rs:768 | Two names are the same header exactly when they differ in case only |
| RtspWriting.BlankEndsHead | airplay-helper/src/raop.rs:749-754 | The header ends with the first blank line |
| RtspWriting.LinesOfHead | airplay-helper/src/raop.rs:756-772 | Splitting at CRLF undoes writing the lines |
| RtspWriting.NumberReads | airplay-helper/src/raop.rs:759-776 | Decimal numbers read back |
| Pcm.DecodeChunk | airplay-helper/src/main.rs:227-250 | Every complete sample is passed on and exactly the odd trailing byte kept; a refused sample stops it |
| Pcm.FeedRawPcm | airplay-helper/src/main.rs:195-225 | For every split into reads the samples are those of the whole file, and those written if it was written; an odd length is the incomplete error |
| Pcm.FeedPcmBytes | airplay-helper/src/server.rs:287-315 | The ring receives every complete sample while alive, and the odd byte is kept either way |
| Pcm.CutAnywhere | airplay-helper/src/main.rs:227-250 | Cutting a stream anywhere and carrying the odd byte loses nothing |
| Pcm.AnySplit | airplay-helper/src/main.rs:227-250 | Any split, empty chunks included, decodes as the whole stream |
| Pcm.WrittenIsDecoded | airplay-helper/src/main.rs:227-250 | Samples written as little-endian two's complement decode to themselves with no byte left over |
| Pcm.ChunksAreDecoded | airplay-helper/src/main.rs:227-250 | The same however the bytes are cut |
| Pcm.ReceivePcm | airplay-helper/src/server.rs:270-284 | A session's loop pushes the samples of the whole stream |
| Pcm.Transmit | airplay-helper/src/server.rs:270-315 | Written, cut anywhere, received, scaled and quantized at full volume without dither, every complete stereo sequence comes back |
| Pcm.QuantizeInterleaved | airplay-helper/src/pcm.rs:3-30 | Every complete stereo frame, clamped, dithered, rounded away from zero at halves and clamped again; the peaks are the largest magnitudes of each channel |
| Pcm.SampleSurvives | airplay-helper/src/pcm.rs:10-29 | Undithered at unit volume, scaling and quantizing returns the sample |
| Pcm.ScaledSampleIsClose | airplay-helper/src/pcm.rs:18-28 | At a volume up to one a sample comes out within half a step of its share |

## Left out

Throughout:

- Floating point: numbers are exact, so rounding, infinities, NaN and the checks for them are not modelled.
- Sines, cosines, exponentials and square roots are parameters with the laws the code uses of them.

The streaming reader:

- HTTP requests, headers, authentication and the async runtime; a response is its status, its two lengths and its body.
- A dishonest server: one that answers a range with an empty success, with bytes from elsewhere or with wrong lengths. A success status other than 200 and 206 counts as a refusal.
- StreamSource.AgentStreamSource.Open: the display names, extension hints and tags that accompany a stream are left out.

The playback protocol:

- The player, the network and the clock answer arbitrarily; nothing is claimed about whether the player plays what `current_source` says.
- Pause, resume, player seeks, playback configuration, stream authorization and heartbeats, which do not touch the record; status reports only read it.
- AgentProtocol.LoadsStayTracked: holds while the generation counter has been bumped fewer than 2^64 times; after that generations repeat.
- Keys and display names are uninterpreted strings of a source.

Signal tools:

- The sizes fixed in the source are general here: any number of sections, with two states each.
- `matrix_rank`, condition numbers, controllability, the refit, the cepstral spectral factor, target curves, reports and emitted Rust: fitting heuristics and output.
- ComplexLeastSquares.DeterministicComplexLstsq: a vector right-hand side is the case of one column; the conversion of the arguments to arrays is left out.
- Modulator.BatchSimulate: the random numbers are parameters; the construction of the plant coefficients and the stability searches around the simulation are left out.
- SlidingWindows.RecoveryTime: the fitted residual and the threshold are given; the tone models, the percentile of the reference windows and the check that the reference is long enough are left out.
- Reconstruction.ReconstructStereoRange: the decimator, the reconstruction filter and their length-mismatch errors are left out; what is modelled is which bits go in and which samples are kept.
- PowerComplement.FrozenPairSurvives: for pairs of at most ten thousand sections together; with many more, a zero just below the circle can move without lowering the energy, so the condition need not be exact.

Smaller machines:

- Listening.TransferKeeps: account of a transfer into an occupied zone is lost in the source, so the property is stated with its exact condition.
- ListeningTrackers.ListeningTracker.Observe: the branch that releases and retakes the lock is one step; whether sources match, what the library recovers and whether repeat is on are parameters.
- Recent-source records, queue persistence and the other library writes of the tracker.
- RateLimit.AuthRateLimiter.RecordFailureAt: the overflow of the monotonic clock is left out.
- Rtsp.ReadRtspResponse: headers are ASCII, so lossy decoding is the identity; allocation failure is left out; the deadline is whether a pause came too late, and a stream has finitely many pauses.
- Pcm.FeedPcmBytes: waiting for room in the ring, and underruns on the other side of it, are left out.
- Pcm.QuantizeInterleaved: the dither generator is a parameter.
- Requests, RTP headers, encryption, mDNS, sessions and sockets of the AirPlay helper; the rest of the repository.
