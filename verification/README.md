# DreamWeaver: verified models of the stateful and numeric core

DreamWeaver generates bedtime stories, listens to the room and keeps a live audio session
open. Most of it is calls to other services; this project models the parts that compute or
keep state of their own, and proves what they promise. `dafny verify dfyconfig.toml` checks
everything.

| file | part of the system |
|---|---|
| `Complex.dfy`, `BitReversal.dfy`, `Fourier.dfy`, `Stages.dfy`, `FourierLaws.dfy` | the radix-2 FFT of the sleep sentinel as mathematics: permutation, butterfly stages, energy and symmetry |
| `NanNumbers.dfy`, `NanStages.dfy`, `Fft.dfy` | the same FFT in place, on arrays of numbers that may be NaN, against the plain DFT sum |
| `Breathing.dfy`, `BreathingLaws.dfy` | the breathing analysis on the spectrum, and what it makes of levels, constants and its band |
| `SleepSentinel.dfy`, `SentinelLaws.dfy` | the sleep sentinel's state machine: confidence, envelope window, cues; its steps in numbers |
| `Confidence.dfy`, `Doubles.dfy` | bounds on the confidence and the first cue, in every arithmetic that rounds; IEEE doubles as one of them |
| `Cooldown.dfy` | the distance between cues |
| `JsText.dfy`, `StoryContent.dfy`, `StoryRow.dfy`, `StoryStream.dfy` | story text as parser and printer, database rows, streaming |
| `RateLimit.dfy` | the in-memory fixed-window rate limiter |
| `GoalStack.dfy`, `GoalLaws.dfy`, `GoalInterleaving.dfy` | the goal stack driven by story beats, its progress, and beat handlers that interleave |
| `Relay.dfy`, `RelayLaws.dfy` | one connection of the WebSocket relay, and which messages it takes, told from the events |
| `Samples.dfy`, `MicCapture.dfy`, `PcmPlayer.dfy`, `Wav.dfy` | quantisation, the two audio worklets, the WAV encoder and a reader |
| `CircuitBreaker.dfy`, `BreakerLaws.dfy`, `PromptHash.dfy` | the AI gateway's accounting, when its circuit opens and closes, and its cache key |
| `ToolCalls.dfy`, `Retry.dfy` | tool-call deduplication, exponential back-off |
| `Common.dfy` | option types, `LastN`, sums, powers of two |

Code that changes state is a class or a method over arrays. Each method is tied to a function
of the old state (`Next`, `AfterCall`, `BeatSession`, ...), and the results about whole runs
are lemmas about that function. The functions themselves are read as definitions; the table
below lists the members whose contracts state something.

Conventions. Floats are exact reals, in the FFT exact reals or NaN; the arithmetic of the
sentinel's confidence is a parameter, with IEEE doubles as one instance. Magnitudes are kept
squared, which preserves every comparison the code makes. Twiddle factors are given
constants of which only `w(1) = -1` and `w(s+1)^2 = w(s)` is used (`w(s)` belongs to block
length 2^s); their unit modulus is derived. Clocks are inputs in milliseconds. JavaScript
strings are sequences of UTF-16 code units. Asynchronous results (a publish that resolves or
rejects, a send that throws) are part of the events.

## What the proofs show about the code

- Rate limiter. The bound for any interval of one window is 2*30 - 1 = 59 admissions, one
  sharper than twice the limit, and a run attains it. Waiting exactly `retryAfter` seconds is
  not enough when the rest of the window is a whole number of seconds.
- Cue cooldown. Two cues are more than 30 seconds apart when every publish resolves before
  the next chunk. In general the next cue is sure to keep its distance if and only if
  `lastCueAtMs` has caught up with the last cue and no older publish is still pending, or the
  clock is past the cooldown anyway. The stamp is behind while that cue's publish is pending,
  after it rejects, or when an older publish resolves after it and overwrites the stamp. For
  each of the three there is a run of a fresh agent that publishes again too early.
- First cue. Whatever arithmetic the confidence is kept in, a fresh agent can publish within n
  chunks if and only if n chunks of steady silence get above the threshold. In real arithmetic
  the 32nd silent chunk reaches 0.85 exactly and does not publish. In doubles, added up in the
  order of the code, the sum there is four units in the last place above 0.85, so the first
  cue can come at chunk 32 and not before.
- Breathing level. Adding a constant to the envelope changes no verdict, and a constant
  envelope, however loud, is never taken for breathing.
- Breathing window. For envelope lengths other than 256 and 512 or more the verdict is always
  "not stable". Between 129 and 511 this is because the slice start is negative and the slice
  too short: the missing samples become NaN, one NaN reaches every bin, and no bin exceeds
  the initial peak of 0. With a fixed chunk size of 501 to 996 samples the steady window is of
  such a length, and above 1000 samples it never reaches the 256 samples an analysis needs.
- Goals. Beats published by the story generator carry no session id, so they act on
  `session_default` whatever session the goal was set for. Rounding completes a goal from
  99.5% on: a story of 200 paragraphs completes two goals, a shorter one exactly one.
  Interleaved handlers are as good as serial ones while no two of the same session overlap;
  two that read the same copy of a session lose one update: a popped goal comes back, or a
  new goal disappears.
- Relay. The `open` handler does not look at `isClosing`, so a socket that opens after a
  close still receives the queue. When the k-th send of the flush throws, that message is
  lost, the ones behind it are stranded, and the session goes on with later messages. The
  text limit of 120 a minute admits 240 texts within one minute at the start, because the
  first window begins with the connection, and 239 later on.
- Stories. A saved story comes back unchanged if and only if its paragraphs are in parsed
  form, it has no chapters, the default sleep score and no empty audio URL.
- Circuit. Failures that reach the threshold at t refuse every call up to t + resetMs and,
  unless a budget is spent, none after it; checks in between do not prolong this. A spent
  budget opens the circuit again, for as long as its counter lasts: a day after the last
  success.
- Token accounting. `increment` followed by get and set counts one extra token per success
  where the cache keeps counters and values in one entry (the port, Redis), and none in the
  in-memory adapter, which keeps them apart.

## Model

| member | source | states |
|---|---|---|
| `BitReversal.RevInvolution` | api/src/domain/agents/SleepSentinelAgent.ts:234-250 | reversing the bits of an index twice gives the index back, so each pair is exchanged once |
| `BitReversal.NextReversed` | api/src/domain/agents/SleepSentinelAgent.ts:244-249 | the reversed-carry increment takes the reversal of i to the reversal of i+1, and of the last index to 0 |
| `BitReversal.Permute` | api/src/domain/agents/SleepSentinelAgent.ts:234-250 | the swap loop leaves exactly the bit-reversal permutation of both arrays, with the same multisets |
| `BitReversal.BitReversedTwice` | api/src/domain/agents/SleepSentinelAgent.ts:234-250 | applying the permutation twice restores the input |
| `Fourier.EvalIsDft` | api/src/domain/agents/SleepSentinelAgent.ts:229-275 | Horner evaluation at the k-th power of the root equals the plain sum of x[t]*root^(kt) |
| `Fourier.HalfTurn` | api/src/domain/agents/SleepSentinelAgent.ts:252-255 | half a block of twiddle steps multiplies by -1 |
| `Fourier.CombineSpectra` | api/src/domain/agents/SleepSentinelAgent.ts:259-273 | one block of butterflies turns the spectra of two halves into the spectrum of their interleaving |
| `Fft.ButterflyBlock` | api/src/domain/agents/SleepSentinelAgent.ts:257-274 | the inner loop, with its running twiddle, rewrites one block as the butterfly combination and nothing else |
| `Stages.StageAdvances` | api/src/domain/agents/SleepSentinelAgent.ts:252-275 | each stage takes "every block of length 2^s holds its own DFT" to 2^(s+1) |
| `Fft.Butterflies` | api/src/domain/agents/SleepSentinelAgent.ts:252-275 | the stage loop applies the stages of block length 2, 4, ..., n in turn, to finite numbers and NaN alike |
| `NanStages.StagesAreSpectra` | api/src/domain/agents/SleepSentinelAgent.ts:252-275 | on finite data, after s stages every block of length 2^s holds the DFT of its elements in input order |
| `NanStages.OneNaNTaintsAll` | api/src/domain/agents/SleepSentinelAgent.ts:252-275 | one NaN anywhere in the input reaches every entry of the output |
| `Fft.Transform` | api/src/domain/agents/SleepSentinelAgent.ts:229-275 | for every power-of-two length: on complex input entry k ends as the plain DFT sum; with a NaN in the input every entry holds one |
| `Fft.FftPowers` | api/src/domain/agents/SleepSentinelAgent.ts:229-282 | the n/2+1 results are the squared magnitudes of the plain DFT bins over n^2, or all NaN |
| `FourierLaws.StageDoublesEnergy` | api/src/domain/agents/SleepSentinelAgent.ts:256-275 | a stage with a unit twiddle doubles the total energy |
| `FourierLaws.Parseval` | api/src/domain/agents/SleepSentinelAgent.ts:252-275 | the bins carry exactly n times the energy of the input |
| `FourierLaws.MirrorBins` | api/src/domain/agents/SleepSentinelAgent.ts:277-281 | for real input bin n-k is the conjugate of bin k, so n/2+1 magnitudes determine all |
| `Breathing.NextPowerOfTwo` | api/src/domain/agents/SleepSentinelAgent.ts:223-227 | the least power of two that is at least n |
| `Breathing.FindPeak` | api/src/domain/agents/SleepSentinelAgent.ts:201-211 | the peak is the largest bin of the band, and the first of its value; among NaN alone it stays 0 |
| `Breathing.WindowInput` | api/src/domain/agents/SleepSentinelAgent.ts:184-192 | a full slice gives its mean-free, weighted samples; a short one leaves NaN in the input |
| `Breathing.VerdictIsMajority` | api/src/domain/agents/SleepSentinelAgent.ts:213-218 | the sorted-median test holds iff the peak is loud, more than half the bins are six times weaker, and at most half are silent |
| `Breathing.AnalyzeBreathingCadence` | api/src/domain/agents/SleepSentinelAgent.ts:176-221 | the verdict and frequency are those of the plain spectrum of the newest 256 or 512 samples; for other lengths the verdict comes out "not stable" |
| `BreathingLaws.ShiftInvisible` | api/src/domain/agents/SleepSentinelAgent.ts:184-192 | raising every sample of a slice by the same amount leaves the transform's input as it is |
| `BreathingLaws.ZeroMeanWeighted` | api/src/domain/agents/SleepSentinelAgent.ts:187-192 | samples with mean zero are multiplied by their weights, nothing else |
| `BreathingLaws.UnweightedSumsToZero` | api/src/domain/agents/SleepSentinelAgent.ts:184-192 | with all weights 1 the input sums to zero |
| `BreathingLaws.ConstantIsUnstable` | api/src/domain/agents/SleepSentinelAgent.ts:176-221 | a constant envelope of any length and loudness is not stable breathing |
| `BreathingLaws.VerdictUnique` | api/src/domain/agents/SleepSentinelAgent.ts:195-221 | one spectrum has one verdict, with one frequency and strength |
| `BreathingLaws.VerdictIgnoresLevel` | api/src/domain/agents/SleepSentinelAgent.ts:176-221 | adding a constant to a whole envelope leaves the verdict on it unchanged |
| `BreathingLaws.OldSamplesIgnored` | api/src/domain/agents/SleepSentinelAgent.ts:177-183 | samples before the newest 512 have no influence |
| `BreathingLaws.StableFrequency` | api/src/domain/agents/SleepSentinelAgent.ts:200-220 | a stable verdict names the frequency of a bin of the band that is loud and that no bin of the band exceeds |
| `BreathingLaws.EvenlySpaced` | api/src/domain/agents/SleepSentinelAgent.ts:195-220 | bins are binHz apart, from 0 |
| `BreathingLaws.BandStart` | api/src/domain/agents/SleepSentinelAgent.ts:195-198 | the band begins with the last bin not above 0.12 Hz, or with bin 1 |
| `BreathingLaws.BandEnd` | api/src/domain/agents/SleepSentinelAgent.ts:195-198 | it ends with the first bin not below 0.65 Hz, or with the last one |
| `BreathingLaws.PowerOfConstant` | api/src/domain/agents/SleepSentinelAgent.ts:277-281 | bin 0 of a constant c is c squared: magnitudes are per sample |
| `SleepSentinel.SteadyWindowIff` | api/src/domain/agents/SleepSentinelAgent.ts:97-112 | the chunk sizes for which the steady envelope window can be analysed, and how long it is for the others |
| `Confidence.ConfidenceInUnit` | api/src/domain/agents/SleepSentinelAgent.ts:60-63 | in every arithmetic that rounds, confidence stays in [0,1] under every order of chunks, interruptions and settlements |
| `Confidence.FirstCueIff` | api/src/domain/agents/SleepSentinelAgent.ts:115-141 | in every arithmetic that rounds, some run of at most n < 256 chunks of a fresh agent publishes iff n chunks of steady silence exceed the threshold |
| `Confidence.NoCueWithin` | api/src/domain/agents/SleepSentinelAgent.ts:115-141 | until then no run publishes, and none is more confident than the silence |
| `Confidence.NoCueIn31Chunks` | api/src/domain/agents/SleepSentinelAgent.ts:115-141 | in real arithmetic: in every run of at most 31 chunks a fresh agent publishes nothing and stays at or below 0.816 |
| `Confidence.ThresholdAt32` | api/src/domain/agents/SleepSentinelAgent.ts:115-141 | 32 quiet chunks bring a fresh agent to 0.85, the threshold itself |
| `Doubles.DoublesRound` | api/src/domain/agents/SleepSentinelAgent.ts:115-141 | rounding to doubles keeps order and is idempotent, so the results above hold for it |
| `Doubles.DoubleIff` | api/src/domain/agents/SleepSentinelAgent.ts:115-141 | that rounding gives the multiple of the last place nearest to a quotient, ties to even |
| `Doubles.FirstCueInDoublesIff` | api/src/domain/agents/SleepSentinelAgent.ts:115-141 | in doubles some run of at most n chunks publishes iff n >= 32 |
| `Doubles.NoCueIn31ChunksInDoubles` | api/src/domain/agents/SleepSentinelAgent.ts:115-141 | in doubles, in every run of at most 31 chunks a fresh agent publishes nothing and stays below 0.8161 |
| `Doubles.ThresholdInDoubles` | api/src/domain/agents/SleepSentinelAgent.ts:115-141 | in doubles 32 chunks of steady silence exceed 0.85 by four units in the last place |
| `Cooldown.CuesSpaced` | api/src/domain/agents/SleepSentinelAgent.ts:139-166 | with prompt, successful publishes any two cues are more than 30 s apart, in whatever arithmetic |
| `Cooldown.CooldownIffStampCurrent` | api/src/domain/agents/SleepSentinelAgent.ts:139-165 | from any time on, however publishes settle, the next cue is sure to keep its distance iff the stamp has caught up with the last cue and no older publish is pending, or the cooldown since that cue is over; in every arithmetic in which silence publishes |
| `Cooldown.CooldownIffExact` | api/src/domain/agents/SleepSentinelAgent.ts:139-165 | the same in real arithmetic |
| `Doubles.CooldownIffInDoubles` | api/src/domain/agents/SleepSentinelAgent.ts:139-165 | the same in doubles |
| `Cooldown.FirstCue` | api/src/domain/agents/SleepSentinelAgent.ts:115-162 | two silences with a loud chunk in between end in a cue at confidence 0.868, never near the threshold |
| `Cooldown.RepeatWhilePending` | api/src/domain/agents/SleepSentinelAgent.ts:143-165 | a run of a fresh agent that publishes twice, any d ms apart, while the first publish is pending |
| `Cooldown.RepeatAfterRejection` | api/src/domain/agents/SleepSentinelAgent.ts:143-165 | the same after the first publish has rejected |
| `Cooldown.RepeatAfterOverwrite` | api/src/domain/agents/SleepSentinelAgent.ts:143-165 | both publishes resolve, the older one last: the third cue waits for the cooldown after the first cue only, not the second |
| `SleepSentinel.SleepSentinelAgent.OnAudio` | api/src/domain/agents/SleepSentinelAgent.ts:49-58 | a chunk moves the whole state as the step function says; once 256 loudnesses are there and max(16, rate) chunks have come since the last analysis the verdict is that of the new window, otherwise it stays |
| `SleepSentinel.SleepSentinelAgent.ObserveEnvelope` | api/src/domain/agents/SleepSentinelAgent.ts:97-113 | the window after the push and trim, and the verdict on it exactly when it has 256 entries and max(16, rate) chunks have come since the last analysis |
| `SleepSentinel.SleepSentinelAgent.OnInterruption` | api/src/domain/agents/SleepSentinelAgent.ts:60-63 | an interruption clears the silence count and lowers confidence by 0.3, not below 0 |
| `SleepSentinel.SleepSentinelAgent.OnPublishSettled` | api/src/domain/agents/SleepSentinelAgent.ts:163-165 | only a resolved publish resets confidence and stamps the cooldown, with the time of its own chunk |
| `SleepSentinel.SleepSentinelAgent.TrimEnvelope` | api/src/domain/agents/SleepSentinelAgent.ts:104-107 | the shift loop keeps exactly the newest samples that fit |
| `SleepSentinel.SleepSentinelAgent.Analyze` | api/src/domain/agents/SleepSentinelAgent.ts:109-112 | the stored verdict is that on the kept window |
| `SentinelLaws.RateAfterChunk` | api/src/domain/agents/SleepSentinelAgent.ts:97-99 | rate times samples is 16000, and a chunk without samples keeps the last rate |
| `SentinelLaws.WindowAfterChunk` | api/src/domain/agents/SleepSentinelAgent.ts:101-107 | the window keeps the newest 256000/samples loudnesses, at least 64 |
| `SentinelLaws.AnalysisIff` | api/src/domain/agents/SleepSentinelAgent.ts:109-112 | a chunk is analysed, its count reset and its verdict taken, iff at least 256 loudnesses are there and max(16, 16000/samples) chunks have come since the last analysis |
| `SentinelLaws.OneAnalysisInEach` | api/src/domain/agents/SleepSentinelAgent.ts:97-113 | in a run of equal chunks on a full window exactly one in each max(16, 16000/samples) is analysed |
| `SentinelLaws.InterruptionTakes` | api/src/domain/agents/SleepSentinelAgent.ts:60-63 | an interruption takes exactly 0.3 off, down to zero, and clears the silence |
| `SentinelLaws.NoiseTakes` | api/src/domain/agents/SleepSentinelAgent.ts:123-133 | a noisy chunk takes exactly 0.05 off, 0.15 if it is loud and restless, and clears the silence |
| `SentinelLaws.QuietAdds` | api/src/domain/agents/SleepSentinelAgent.ts:119-137 | what exactly the k-th quiet chunk of a silence adds, by k, steadiness and breathing |
| `SentinelLaws.PublishesIff` | api/src/domain/agents/SleepSentinelAgent.ts:139-162 | a chunk publishes iff confidence ends above 0.85 more than 30 s after the stamp |
| `SentinelLaws.SettlementStamps` | api/src/domain/agents/SleepSentinelAgent.ts:163-165 | a resolved publish sets 0.8 and the time of its own chunk, a rejected one neither |
| `JsText.WordsAreScan` | api/src/domain/value-objects/StoryContent.ts:63-69 | split on whitespace runs and filter equals scanning for maximal words |
| `StoryContent.ParsedAreNormal` | api/src/domain/value-objects/StoryContent.ts:44-51 | every parsed paragraph is non-empty, trimmed and free of a double newline |
| `StoryContent.ParsePrintIff` | api/src/domain/value-objects/StoryContent.ts:44-58 | printing and parsing return the same paragraphs iff all are in that form |
| `StoryContent.RoundTrip` | api/src/domain/value-objects/StoryContent.ts:44-58 | parse, print, parse again gives the same content |
| `StoryContent.ParsesIffNotBlank` | api/src/domain/value-objects/StoryContent.ts:34-51 | parsing throws exactly on texts of whitespace only |
| `StoryContent.WordsConserved` | api/src/domain/value-objects/StoryContent.ts:53-69 | the words of the paragraphs are those of the text, in order, and the word count is theirs |
| `StoryRow.SurvivesIff` | api/src/infrastructure/SupabaseStoryRepository.ts:110-141 | exactly which stories are the same after saving and loading |
| `StoryRow.ParsedStorySurvives` | api/src/infrastructure/SupabaseStoryRepository.ts:110-141 | a story made from raw text survives the row mapping |
| `StoryStream.FirstLineStable` | api/src/application/use-cases/GenerateStoryUseCase.ts:193-200 | once there is a newline, later chunks do not change the first line |
| `StoryStream.FirstOccurrenceDropped` | api/src/application/use-cases/GenerateStoryUseCase.ts:197 | replace takes out the first occurrence and keeps what is before and after it |
| `StoryStream.TitleIsFirstLine` | api/src/application/use-cases/GenerateStoryUseCase.ts:193-200 | the title is the trimmed first line without its first "Title: " |
| `StoryStream.TitleWithoutPrefix` | api/src/application/use-cases/GenerateStoryUseCase.ts:193-200 | a first line without "Title: " is the title, trimmed |
| `StoryStream.Generate` | api/src/application/use-cases/GenerateStoryUseCase.ts:175-237 | title and content of a completed stream depend on the concatenation only, published chunks concatenate to it, a broken stream takes the fallback |
| `RateLimit.InMemoryRateLimitStore.Increment` | api/src/middleware/rateLimit.ts:31-53 | the new store, with the prune, and the reply |
| `RateLimit.InMemoryRateLimitStore.PruneEntries` | api/src/middleware/rateLimit.ts:43-49 | the loop deletes exactly the records older than two windows |
| `RateLimit.InMemoryRateLimitStore.VerifyRateLimit` | api/src/middleware/rateLimit.ts:181-190 | admission iff the count is within the limit, with the ttl as retryAfter |
| `RateLimit.PruningInvisible` | api/src/middleware/rateLimit.ts:35-52 | for every run the replies are those of a store that never deletes |
| `RateLimit.WindowBound` | api/src/middleware/rateLimit.ts:31-53 | one window of a key admits at most MAX_REQUESTS requests, and none once a later window began, with pruning as in the code |
| `RateLimit.SlidingBound` | api/src/middleware/rateLimit.ts:35-52 | any interval of one window's length admits at most 2*MAX_REQUESTS - 1 requests of a key |
| `RateLimit.SlidingBoundAttained` | api/src/middleware/rateLimit.ts:35-52 | a run that attains the bound |
| `RateLimit.NumberedInWindow` | api/src/middleware/rateLimit.ts:31-53 | in a window each request of a key is told how many there were, and the rest of the window in seconds rounded up, whatever other keys do and with pruning |
| `RateLimit.FirstThirty` | api/src/middleware/rateLimit.ts:31-53 | in the window a request begins, its key is admitted iff at most 30 of its requests have come so far |
| `RateLimit.OthersKept` | api/src/middleware/rateLimit.ts:43-49 | a request leaves the records of other keys alone, unless there are more than 10000: then exactly those older than two windows go |
| `RateLimit.TtlInRange` | api/src/middleware/rateLimit.ts:51-52 | every ttl of every run lies between 0 and the window in seconds |
| `RateLimit.RetryAfterSuffices` | api/src/middleware/rateLimit.ts:181-189 | strictly more than retryAfter seconds after a refusal a quiet key is admitted, whatever others do |
| `RateLimit.RetryAtRetryAfterIff` | api/src/middleware/rateLimit.ts:35-52 | at exactly retryAfter seconds it is admitted iff the rest of the window is not a whole number of seconds |
| `GoalStack.ActiveGoal.UpdateProgress` | api/src/domain/entities/ActiveGoal.ts:116-118 | progress is clamped to 0..100, nothing else changes |
| `GoalStack.ActiveGoal.MarkAchieved` | api/src/domain/entities/ActiveGoal.ts:120-124 | status, progress and time of achievement |
| `GoalStack.BedtimeConductorAgent.HandleStoryBeat` | api/src/domain/agents/BedtimeConductorAgent.ts:361-394 | one beat moves exactly the addressed session as the step function says |
| `GoalStack.BedtimeConductorAgent.SetGoal` | api/src/domain/agents/BedtimeConductorAgent.ts:439-460 | the new goal goes on top, at most five are kept |
| `GoalStack.BeatOnStack` | api/src/domain/agents/BedtimeConductorAgent.ts:366-393 | on a well-formed stack a beat updates the head, or pops it, and leaves the goals below |
| `GoalStack.StepKeepsIff` | api/src/domain/agents/BedtimeConductorAgent.ts:361-394 | an event keeps sessions well formed iff it is not beat -1 of 0 on a session with a goal |
| `GoalStack.ReachableWellFormed` | api/src/domain/agents/BedtimeConductorAgent.ts:361-460 | unless a beat -1 of 0 occurs, every reachable session has at most five goals, all active at 0..99, and activeGoal is the head |
| `GoalStack.EmitBeats` | api/src/application/use-cases/GenerateStoryUseCase.ts:317-339 | the published beats, numbered in order, without a session id |
| `GoalStack.CompletesIff` | api/src/domain/agents/BedtimeConductorAgent.ts:369-374 | beat i of n completes a goal iff n-1-i <= n/200 |
| `GoalStack.StoryPops` | api/src/domain/agents/BedtimeConductorAgent.ts:361-394 | a story of n beats, at any n times, takes min(depth, n/200+1) goals off the default session and changes no other |
| `GoalStack.ShortStoryPopsOne` | api/src/domain/agents/BedtimeConductorAgent.ts:369-377 | up to 199 beats only the last one completes a goal |
| `GoalLaws.BeatProgress` | api/src/domain/agents/BedtimeConductorAgent.ts:369-393 | beat i of n pops the head iff n-1-i <= n/200; otherwise it sets the head to 100(i+1)/n rounded to the nearest percent, and nothing else |
| `GoalLaws.BeatOutOfRange` | api/src/domain/entities/ActiveGoal.ts:116-118 | beats before the first leave the goal at 0, beats past the last complete it |
| `GoalLaws.StoryProgress` | api/src/domain/agents/BedtimeConductorAgent.ts:361-394 | after beat i of a story that has completed nothing, the same goal is on top with that progress |
| `GoalLaws.ProgressNeverDown` | api/src/domain/agents/BedtimeConductorAgent.ts:361-394 | over a story the progress of the goal on top never goes down until it is popped |
| `GoalLaws.CompletedGoalLeaves` | api/src/domain/agents/BedtimeConductorAgent.ts:373-393 | a completed goal is taken off and the next one becomes the active goal; the last one leaves no goal |
| `GoalLaws.NewGoalOnTop` | api/src/domain/agents/BedtimeConductorAgent.ts:439-460 | below a new goal are the old first four; it is active, at 0 and due in the given minutes |
| `GoalLaws.Addressed` | api/src/domain/agents/BedtimeConductorAgent.ts:361-366 | a beat reaches the session of its context, else its own, else the default one, and no other |
| `GoalLaws.SingleGoalIsAStack` | api/src/domain/agents/BedtimeConductorAgent.ts:112-141 | a session stored with a single goal reads as a stack of it |
| `GoalInterleaving.IsolatedIsSerial` | api/src/domain/agents/BedtimeConductorAgent.ts:361-460 | when handlers of one session, of beats or new goals, do not overlap, every interleaving of reads and writes ends as the events handled one by one in write order |
| `GoalInterleaving.LostUpdate` | api/src/domain/agents/BedtimeConductorAgent.ts:361-394 | of two handlers that both read before either writes, the one that writes first leaves no trace |
| `GoalInterleaving.StaleWriteRestoresGoal` | api/src/di/container.ts:394-399 | any beat that completes nothing, overtaken by one that completes the goal, restores the goal the serial order pops |
| `GoalInterleaving.NewGoalLost` | api/src/domain/agents/BedtimeConductorAgent.ts:439-460 | a goal set while a beat of its session is being handled is not on the stack afterwards |
| `Relay.LiveRelay.OnOpen` | ws-worker/src/index.ts:139-146 | the flush sends the queue in order, up to a send that throws |
| `Relay.LiveRelay.OnClientMessage` | ws-worker/src/index.ts:201-308 | refuse, count, forward or queue with drop-oldest, as the step function says |
| `Relay.LiveRelay.OnGeminiMessage` | ws-worker/src/index.ts:148-183 | relay down unless closing; a throwing send closes |
| `Relay.LiveRelay.Close` | ws-worker/src/index.ts:114-133 | the first close issues one pair of closes, later ones nothing |
| `Relay.FlushOrder` | ws-worker/src/index.ts:139-146 | for any throwing sends: what is sent is the last 50 early messages up to the one that throws in the flush, then all accepted after opening, in order, without the last one if its send throws; those behind the throwing one stay queued |
| `Relay.FlushLosesIff` | ws-worker/src/index.ts:139-146 | whatever later sends do, the flush loses a message iff the throwing send is one of the queue, and strands one iff it is not the last |
| `Relay.NothingLostIff` | ws-worker/src/index.ts:139-308 | every accepted message is sent, in order, iff at most 50 came before opening, the flush went through and no later send of an accepted message throws |
| `Relay.RelayOrder` | ws-worker/src/index.ts:139-146 | when no send of a flush throws, all of the last 50 early messages go first; if the socket never opens they stay queued |
| `Relay.NothingLost` | ws-worker/src/index.ts:297-307 | with at most 50 messages before opening nothing is lost and the first stays first |
| `RelayLaws.AudioForwarded` | ws-worker/src/index.ts:201-308 | an unclosed session takes every audio message of at most 65536 units: to the back of what is sent, or of the queue while the socket is not open; the text count stays |
| `RelayLaws.NextMessage` | ws-worker/src/index.ts:278-308 | in every run the next client message is forwarded iff it is of legal size before the close and is audio or a text with fewer than 120 before it in its window, counted on the events |
| `RelayLaws.AcceptedAreTaken` | ws-worker/src/index.ts:201-308 | the accepted messages of the order and loss results are the ones that count takes |
| `RelayLaws.AllAudioAccepted` | ws-worker/src/index.ts:201-308 | in every run the accepted audio is exactly the audio of legal size that arrives before the close |
| `RelayLaws.ModelMessageRelayed` | ws-worker/src/index.ts:148-183 | a message from the model goes to the back of what the client got, unless the session is closing; a throwing send closes it |
| `RelayLaws.ClientReceives` | ws-worker/src/index.ts:148-183 | over any run the client receives exactly the messages from the model that arrive before the close and can be sent, in order |
| `Relay.LateOpenRelaysQueue` | ws-worker/src/index.ts:114-146 | in every run after a close, a socket that opens gets the queue of the moment of closing, up to a throwing send, and nothing else is relayed |
| `Relay.LateOpenHappens` | ws-worker/src/index.ts:114-146 | a run from a new connection: one early message, the client leaves, the socket opens, the message is sent |
| `Relay.RelaysAfterCloseIff` | ws-worker/src/index.ts:114-146 | after a close one step relays something iff it is `open` on a non-empty queue whose first send goes through |
| `Relay.SilentAfterClose` | ws-worker/src/index.ts:114-133 | without a late open, nothing is relayed and no second close pair is issued |
| `Relay.ClosedOnce` | ws-worker/src/index.ts:114-133 | in every run there is one close pair iff the session is closing |
| `Relay.TextLimit` | ws-worker/src/index.ts:278-289 | at most 120 non-audio messages are accepted per text window |
| `Relay.TextSlidingBound` | ws-worker/src/index.ts:278-289 | any 60 s accept at most 120 texts from before the connection on, 240 from within the first window, 239 later |
| `Relay.TwoFullWindows` | ws-worker/src/index.ts:278-289 | a run with 240 accepted texts in one minute |
| `Relay.LaterBoundAttained` | ws-worker/src/index.ts:278-289 | a run with 239 in a later minute |
| `Samples.QuantiseInRange` | public/mic-processor.js:21-24 | quantisation never wraps: truncation of the clipped, scaled sample, in 16-bit range |
| `Samples.QuantiseMonotone` | src/infrastructure/audio/wav.ts:36-39 | louder samples never quantise lower |
| `Samples.Scaled` | public/mic-processor.js:21-24 | full scale is 32767 and -32768, from 1 and -1 outwards; in between the scaled sample loses only its fraction |
| `Samples.Requantise` | src/infrastructure/audio/AudioStreamer.ts:35-40 | p/32768 re-quantises to p for p <= 0 and to p-1 for p > 0 |
| `Samples.ToFloats` | src/infrastructure/audio/AudioStreamer.ts:34-40 | every sample is divided by 32768 |
| `MicCapture.MicProcessor.Process` | public/mic-processor.js:14-33 | posted blocks followed by the buffered samples are the quantised stream; the blocks are its whole 1024-blocks |
| `MicCapture.PostedAreWholeBlocks` | public/mic-processor.js:20-30 | the posted messages depend on the stream only, not on the frames it came in |
| `MicCapture.BlocksInPlace` | public/mic-processor.js:20-30 | as many messages as 1024 goes into the stream are posted, the i-th being the samples from 1024*i to 1024*i+1023 |
| `PcmPlayer.PCMProcessor.Process` | public/pcm-processor.js:14-41 | a frame plays the front of the buffer, padded with silence, and removes it |
| `PcmPlayer.PCMProcessor.HandleMessage` | public/pcm-processor.js:46-58 | data is appended, a flush empties |
| `PcmPlayer.Conserved` | public/pcm-processor.js:14-58 | played samples followed by the buffer equal the buffer at the start followed by all received |
| `PcmPlayer.ConservedSinceFlush` | public/pcm-processor.js:46-58 | the same since the last flush, with nothing from before it |
| `PcmPlayer.PaddingOnlyOnUnderflow` | public/pcm-processor.js:20-38 | padding occurs iff the buffer is short, is silence, and follows the last sample |
| `Wav.EncodeWav` | src/infrastructure/audio/wav.ts:1-44 | the bytes are the RIFF layout of the quantised samples, and offset ends at 44 + 2*length |
| `Wav.DecodeEncodeIff` | src/infrastructure/audio/wav.ts:22-41 | a chunk-walking reader recovers rate, one channel, 16 bits and every sample iff the 32-bit fields do not overflow |
| `Wav.WavRoundTripIff` | src/infrastructure/audio/wav.ts:1-44 | the same from arbitrary audio |
| `CircuitBreaker.Breaker.CheckCircuitBreaker` | api/src/infrastructure/adapters/GeminiAIGateway.ts:123-145 | refuse when open, over cost or over budget; the last two reopen the circuit |
| `CircuitBreaker.Breaker.RecordSuccess` | api/src/infrastructure/adapters/GeminiAIGateway.ts:156-172 | the three counters after a success |
| `CircuitBreaker.Breaker.RecordFailure` | api/src/infrastructure/adapters/GeminiAIGateway.ts:174-180 | the failure counter, and the circuit at the threshold |
| `CircuitBreaker.TokensExact` | api/src/infrastructure/adapters/GeminiAIGateway.ts:156-167 | within a day the token counter is the sum of recorded tokens, plus one per success on a shared cache |
| `CircuitBreaker.TokensBounded` | api/src/infrastructure/adapters/GeminiAIGateway.ts:138-144 | in every serial run the counter exceeds the budget by at most the largest call |
| `CircuitBreaker.CostDrift` | api/src/infrastructure/adapters/GeminiAIGateway.ts:169-171 | after k successes the cost counter is within k*0.0000005 of the exact sum |
| `CircuitBreaker.RefusesForever` | api/src/infrastructure/adapters/GeminiAIGateway.ts:123-145 | once a budget is reached every later check refuses and nothing more is counted |
| `CircuitBreaker.RefusedIffLimitReached` | api/src/infrastructure/adapters/GeminiAIGateway.ts:123-180 | within a reset period a check refuses iff the recorded tokens, the cost or the consecutive failures have reached their limit |
| `CircuitBreaker.FailuresExact` | api/src/infrastructure/adapters/GeminiAIGateway.ts:174-180 | within a reset period the failure counter is the failures since the last success, and never passes the threshold |
| `BreakerLaws.OpenForResetMs` | api/src/infrastructure/adapters/GeminiAIGateway.ts:123-180 | after the failure that reaches the threshold at t a check refuses iff it comes by t + resetMs or a budget is spent |
| `BreakerLaws.AfterThreshold` | api/src/infrastructure/adapters/GeminiAIGateway.ts:123-180 | the same over any checks in between, each of which may open the circuit again on a spent budget |
| `BreakerLaws.ClosesAgain` | api/src/infrastructure/adapters/GeminiAIGateway.ts:123-180 | with no budget spent every check up to t + resetMs refuses and every later one is allowed |
| `BreakerLaws.FailureShortOfThreshold` | api/src/infrastructure/adapters/GeminiAIGateway.ts:174-180 | a failure short of the threshold adds one to the count and opens nothing |
| `BreakerLaws.FailureRecordExpires` | api/src/infrastructure/adapters/GeminiAIGateway.ts:174-177 | the count of failures lasts resetMs from its first failure |
| `BreakerLaws.RecordNotProlonged` | api/src/infrastructure/adapters/GeminiAIGateway.ts:174-177 | later failures add one and do not prolong it |
| `BreakerLaws.BudgetOpens` | api/src/infrastructure/adapters/GeminiAIGateway.ts:130-154 | a check that finds a budget spent refuses and opens the circuit for resetMs |
| `BreakerLaws.OtherChecksMoveNothing` | api/src/infrastructure/adapters/GeminiAIGateway.ts:123-154 | no other check changes anything; refusals of an open circuit do not prolong it |
| `BreakerLaws.UsageKeptADay` | api/src/infrastructure/adapters/GeminiAIGateway.ts:156-172 | usage counts for 86400000 ms after the last success and is forgotten then |
| `BreakerLaws.SuccessAdds` | api/src/infrastructure/adapters/GeminiAIGateway.ts:156-172 | a success adds its tokens, and its cost to the millionth, to what has not expired, clears the failures and leaves the circuit |
| `PromptHash.Horner` | api/src/infrastructure/adapters/GeminiAIGateway.ts:210-218 | appending a code unit multiplies the polynomial by 31 and adds it |
| `PromptHash.TurnIsHorner` | api/src/infrastructure/adapters/GeminiAIGateway.ts:214-215 | shift, subtraction, addition and `&` together are one Horner step modulo 2^32 |
| `PromptHash.HashPrompt` | api/src/infrastructure/adapters/GeminiAIGateway.ts:210-218 | the hash is the sum of c[i]*31^(n-1-i) as a signed 32-bit integer |
| `ToolCalls.ToolSession.Handle` | api/src/routes/live.ts:162-171 | 409 iff the id is among the last 200 accepted; the stored list is always those |
| `ToolCalls.SpacedPush` | api/src/routes/live.ts:166-169 | an id is accepted twice only with at least 200 others in between |
| `ToolCalls.KeptWithoutRepeats` | api/src/routes/live.ts:169-170 | the stored ids never repeat |
| `ToolCalls.RememberedFor200` | api/src/routes/live.ts:166-170 | an accepted id is refused exactly until 200 others have been accepted after it |
| `Retry.WithRetry` | api/src/infrastructure/resilience.ts:20-54 | calls up to and including the first success, at most maxRetries+1; its value or the last error; the exact waits |
| `Retry.TotalDelayBound` | api/src/infrastructure/resilience.ts:37-48 | r waits total at most base*(2^r-1) and at most r*cap |
| `Retry.DelaysGrow` | api/src/infrastructure/resilience.ts:37-40 | delays never shrink for a non-negative base |
| `Retry.DelayDoubles` | api/src/infrastructure/resilience.ts:37-40 | the first wait is the base, each next one twice the last, all up to the cap |

## Left out

- Floating-point rounding outside the confidence, and infinities; sine and cosine values and square roots: twiddles and window weights are given, magnitudes are squared.
- Confidence.ExactNoCueIn32Chunks: in real arithmetic, where the tie at 0.85 is not above the threshold; `Confidence.NoCueIn31Chunks` keeps clear of it, and `Doubles.FirstCueInDoublesIff` has the doubles.
- Confidence.ExactCueAtChunk33: in real arithmetic, for the same reason; `Cooldown.FirstCue` and the runs built on it stay 0.016 or more away from 0.85.
- Breathing.NextPowerOfTwo: stated for n up to 2^30, where the 32-bit shift of the source stays positive; its caller passes at most 512.
- The loudness and variance of a chunk (SleepSentinelAgent, lines 66-95): inputs of the sentinel model.
- Concurrent handlers: breaker and tool-call results are for events handled one at a time. `GoalInterleaving.IsolatedIsSerial` and `GoalInterleaving.LostUpdate` are about interleaved beat and goal handlers of a store that hands out copies, as the Redis one does; the in-memory one hands out the stored object itself.
- CircuitBreaker.TokensExact: within one day, so that no counter expires; `CircuitBreaker.TokensBounded` covers runs in which they do.
- The message conversions of the relay (binary to JSON, setup clean-up): its events carry the resulting text. The separate closes of the client socket on oversized or too many messages are not counted as close pairs.
- The volume message of the playback worklet, and `estimateFinOpsCost`: one formula each.
- ISO date text in database rows and the schema behind `Story.create`: dates are milliseconds, the schema is a parameter.
- The Redis and Upstash clients, session stores, Supabase, the AI and speech services, sockets, and real clocks: stores are maps with expiry times.
- Client IP extraction, authentication, prompts, safety checks, companions, moments, sharing, email and the user interface: configuration, policy or presentation.
- The legacy two-argument form of `setGoal`: it names the default session.
