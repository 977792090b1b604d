# Precision Audio Scope: signal-processing core in Dafny

This project models the signal-processing core of the Precision Audio Scope,
a real-time audio instrument written in Python (`Precision_Audio_Scope.py`).
It captures interleaved stereo 16-bit PCM, keeps the left channel in a
ten-second history, estimates the fundamental frequency over the last two
seconds at most every quarter second, and shows a waveform window that starts
at a trigger point for a stable picture. The model covers:

- decoding of the captured little-endian signed 16-bit words and left-channel
  extraction (`Pcm`);
- the bounded history, a `deque(maxlen=RATE*10)` that drops its oldest samples
  (`Buffer.SampleBuffer`);
- `statistics.median` over exact reals (`Stats`);
- `estimate_freq`: mean removal, a hysteresis threshold at 5% of the peak, the
  armed/unarmed scan with interpolated upward zero crossings, and the reciprocal
  of the median period (`FrequencyEstimator`; the scan is the `for` loop of
  `EstimateFreq`, proved against the functions `Step`/`Scan`/`Frequency`);
- the display trigger: the first step up of `sign(v - level)` among the first
  2048 displayed samples (`TriggerAligner`);
- the instrument state as a class: key handling (`OnKey`), and one animation
  tick (`Update`) that ingests bytes, applies the hop gate and returns the
  plotted sequence (`Instrument`).

Python floats are exact `real`s here. `int(RATE * time_window)` is `.Floor`
(its argument is always positive, so truncation and floor agree). The byte
string that the stream delivers and the current wall-clock time are
parameters of `Update`. `estimate_freq` divides by the sample rate, and its
one caller passes `RATE`, so the model requires `rate > 0`.

Notes on what the code does:

- The program has no producer thread and no lock. The stream is read in
  blocking mode and everything runs in the animation callback.
- `np.diff(np.sign(v - level)) > 0` fires on a step from below the level to
  at or above it, and on a step from the level to above it. The offset is the
  index of the sample before the step (`TriggerAligner.RisesCases`).
- The `if not periods` guard (lines 106-107) is unreachable after the check
  for fewer than two crossings, and it is not modelled. The `T <= 0` guard is
  modelled and shown never to fire for a positive rate
  (`FrequencyEstimator.FrequencyDefined`). The `denom != 0` fallback is
  modelled as written, but an upward crossing always has `denom > 0`.

Proved facts of note: crossing times lie in `(0, (n-1)/rate]` and are more
than one sample period apart. So any estimate lies strictly between
`rate/(n-1)` and `rate`. A constant window gives no estimate. Adding a constant
to every sample leaves the estimate unchanged. The history always holds the
newest `min(capacity, |old| + |new|)` samples in order. Decoding and encoding
are inverse. Key handling keeps `200 <= y_limit <= 32768` and
`time_window >= 0.002`.

## Model

| member | source | states |
|---|---|---|
| Pcm.DecodeSample | Precision_Audio_Scope.py:146 | a little-endian word decodes to the unique value in -32768..32767 congruent to lo + 256*hi modulo 65536 |
| Pcm.EncodeSample | Precision_Audio_Scope.py:146 | every 16-bit sample has a two-byte encoding that decodes back to it |
| Pcm.EncodeDecodeSample | Precision_Audio_Scope.py:146 | encoding a decoded word gives back its two bytes |
| Pcm.DecodeWords | Precision_Audio_Scope.py:146 | an even-length byte string of 2k bytes gives k words, word i decoded from bytes 2i and 2i+1 |
| Pcm.Decode | Precision_Audio_Scope.py:146 | unpacking succeeds exactly when the byte count is even; then it gives len/2 values, all 16-bit samples |
| Pcm.Encode | Precision_Audio_Scope.py:146 | k samples encode to 2k bytes |
| Pcm.DecodeEncode | Precision_Audio_Scope.py:146 | decoding the encoding of 16-bit samples gives them back |
| Pcm.EncodeDecode | Precision_Audio_Scope.py:146 | every even-length byte string is the encoding of its decoded words |
| Pcm.LeftChannel | Precision_Audio_Scope.py:148 | s[0::2] has ceil(len/2) elements, element i being s[2i] |
| Buffer.LastN | Precision_Audio_Scope.py:31 | the result is a suffix of s of length min(len s, n) |
| Buffer.LastNOfLongTail | Precision_Audio_Scope.py:149 | when the new part q holds at least n elements, the last n of p + q are the last n of q |
| Buffer.LastNConcat | Precision_Audio_Scope.py:149 | trimming to capacity before appending b or only after gives the same contents |
| Buffer.LastNElements | Precision_Audio_Scope.py:149 | element k of the kept suffix is the matching element of the full sequence |
| Buffer.OverflowKeepsNewest | Precision_Audio_Scope.py:31 | capacity 100, pushing 0..149 keeps exactly 50..149 |
| Buffer.SampleBuffer.constructor | Precision_Audio_Scope.py:31 | a new history is empty with the given capacity |
| Buffer.SampleBuffer.Append | Precision_Audio_Scope.py:149 | appending a sample to a bounded deque keeps the newest capacity samples of old + [x] |
| Buffer.SampleBuffer.Extend | Precision_Audio_Scope.py:149 | after extend the contents are the newest min(capacity, old+new) samples of old ++ new, in order, and never exceed capacity |
| Stats.Insert | Precision_Audio_Scope.py:109 | inserting into a sorted list keeps it sorted and adds exactly that element |
| Stats.Sort | Precision_Audio_Scope.py:109 | sorted(s) is ascending and is a permutation of s |
| Stats.MedianWithin | Precision_Audio_Scope.py:109 | the median of a non-empty list lies inside any open interval containing all its elements |
| Stats.Median | Precision_Audio_Scope.py:109 | statistics.median: the middle element of the sorted list, or the mean of the two middle elements when the count is even |
| FrequencyEstimator.Sum | Precision_Audio_Scope.py:74 | sum(samples), the integer sum of the window |
| FrequencyEstimator.Mean | Precision_Audio_Scope.py:74 | sum(samples) / len(samples) over exact reals |
| FrequencyEstimator.Center | Precision_Audio_Scope.py:75 | the window with its mean subtracted from every sample |
| FrequencyEstimator.MaxAbs | Precision_Audio_Scope.py:77 | the peak bounds every abs(x[i]) and is attained |
| FrequencyEstimator.Threshold | Precision_Audio_Scope.py:77-78 | the hysteresis threshold is strictly positive, because 0 is replaced by 1.0 |
| FrequencyEstimator.Step | Precision_Audio_Scope.py:85-99 | one scan iteration at index i: unarmed, it arms when x[i] <= -th and tests nothing; armed, an upward crossing x[i-1] < 0 <= x[i] appends (i - 1 + frac)/rate and disarms |
| FrequencyEstimator.Scan | Precision_Audio_Scope.py:80-99 | the armed flag and crossing list after indices 1 .. k-1, starting unarmed with no crossings |
| FrequencyEstimator.Crossings | Precision_Audio_Scope.py:84-99 | crossings_t after the whole window has been scanned |
| FrequencyEstimator.Periods | Precision_Audio_Scope.py:105 | the differences of consecutive crossing times, in order |
| FrequencyEstimator.Frequency | Precision_Audio_Scope.py:69-112 | estimate_freq: None for fewer than 2 samples or fewer than 2 crossings, None for a median period <= 0, else 1 / median(periods) |
| FrequencyEstimator.EstimateFreq | Precision_Audio_Scope.py:69-112 | the scan loop computes the function `Frequency`; any estimate is positive, below the sample rate and above rate/(n-1) |
| FrequencyEstimator.FracInUnit | Precision_Audio_Scope.py:93-96 | the interpolation fraction of an upward crossing lies in (0, 1] |
| FrequencyEstimator.CrossingTimeBounds | Precision_Audio_Scope.py:97 | a crossing found between samples k-1 and k has a time in ((k-1)/rate, k/rate] |
| FrequencyEstimator.StepKeepsInv | Precision_Audio_Scope.py:84-99 | one scan iteration keeps the crossing times positive, bounded, spaced and behind the armed index |
| FrequencyEstimator.ScanKeepsInv | Precision_Audio_Scope.py:84-99 | the scan invariant holds at every index |
| FrequencyEstimator.CrossingTimes | Precision_Audio_Scope.py:84-99 | recorded crossing times lie in (0, (n-1)/rate] and are more than one sample period apart, so they strictly increase |
| FrequencyEstimator.PeriodBounds | Precision_Audio_Scope.py:105 | every period is longer than 1/rate and shorter than (n-1)/rate |
| FrequencyEstimator.MedianPeriodBounds | Precision_Audio_Scope.py:105-109 | the median period lies in (1/rate, (n-1)/rate) |
| FrequencyEstimator.FrequencyBounds | Precision_Audio_Scope.py:109-112 | any returned estimate is strictly positive and lies in (rate/(n-1), rate) |
| FrequencyEstimator.FrequencyDefined | Precision_Audio_Scope.py:70-111 | an estimate exists exactly when there are at least 2 samples (guard at 70-71) and at least 2 crossings (guard at 101-102), so the T <= 0 guard at 110-111 never fires |
| FrequencyEstimator.NoDipNoCrossing | Precision_Audio_Scope.py:87-90 | if no sample reaches -th the scan never arms and records no crossing |
| FrequencyEstimator.SumConstant | Precision_Audio_Scope.py:74 | the sum of n copies of c is n*c |
| FrequencyEstimator.ConstantWindow | Precision_Audio_Scope.py:74-90 | a constant window gives no estimate |
| FrequencyEstimator.SumShift | Precision_Audio_Scope.py:74 | adding c to every sample adds len*c to the sum |
| FrequencyEstimator.CenterShift | Precision_Audio_Scope.py:74-75 | mean removal gives the same centred window after adding a constant to every sample |
| FrequencyEstimator.DcInvariance | Precision_Audio_Scope.py:69-112 | adding a constant to every sample leaves the estimate unchanged |
| TriggerAligner.Sign | Precision_Audio_Scope.py:173 | np.sign on an integer: 1, -1 or 0 |
| TriggerAligner.Rises | Precision_Audio_Scope.py:174-175 | diffs[i] > 0: the sign of v[i+1] - level exceeds that of v[i] - level |
| TriggerAligner.RisesCases | Precision_Audio_Scope.py:173-175 | a sign step up is a move from below the level to at or above it, or from the level to above it |
| TriggerAligner.FirstRiseFrom | Precision_Audio_Scope.py:175-177 | the result is the least index from i up to 2046 with a sign step up, or none if there is no such index |
| TriggerAligner.TriggerOffset | Precision_Audio_Scope.py:170-179 | with the trigger on, more than 2048 samples and a step up in range, the offset is the least such index; otherwise 0; it is always below the window length or 0 |
| TriggerAligner.SingleCrossing | Precision_Audio_Scope.py:170-177 | a single clean upward crossing at k, and no other step up, gives offset k |
| Instrument.Recent | Precision_Audio_Scope.py:155-157 | the result is a suffix of length min(n, len) for n > 0, the whole sequence otherwise |
| Instrument.NumVis | Precision_Audio_Scope.py:161 | num_vis = int(RATE*time_window) is at least 96 when time_window >= 0.002 |
| Instrument.Display | Precision_Audio_Scope.py:161-179 | the plotted data is the suffix of the history of length len(vis_data) - offset, so it starts at the trigger offset of the visual window; it is non-empty exactly when the history is; without trigger it is the whole visual window |
| Instrument.ExtendKeepsRange | Precision_Audio_Scope.py:146-149 | appending decoded left-channel samples keeps every retained sample 16-bit |
| Instrument.Scope.constructor | Precision_Audio_Scope.py:21-31 | the initial state: 1 s window, y limit 32768, trigger on at level 0, no estimate, empty history |
| Instrument.Scope.OnKey | Precision_Audio_Scope.py:124-134 | arrows scale time_window and y_limit by 1.5 within their clamps; 't' toggles trigger_on, so two presses restore it; other keys change nothing; y_limit stays in [200, 32768], time_window >= 0.002 |
| Instrument.Scope.Ingest | Precision_Audio_Scope.py:143-149 | valid bytes append their left channel to the history; an odd byte count changes nothing |
| Instrument.Scope.Recalculate | Precision_Audio_Scope.py:152-158 | once HOP_SEC has passed, the time is stored and the estimate is recomputed over the last 96000 samples; otherwise nothing changes |
| Instrument.Scope.Update | Precision_Audio_Scope.py:139-196 | one tick: a failed unpack yields no plot and no change; otherwise the history is extended, the hop gate is applied and the triggered display window is returned; the state invariant is kept |

## Left out

- Device discovery, stream opening and the PyAudio object (lines 33-66): hardware I/O through foreign calls.
- `stream.get_read_available` and `stream.read` (lines 142-144): hardware I/O. The bytes read are a parameter of `Update`; no bytes available is the empty byte string, which decodes to nothing.
- `time.time()` (line 152): the wall clock is the `now` parameter.
- Figure setup, plotting, axis limits, labels, the animation and `plt.show` (lines 114-121, 136, 181-194, 198-208): presentation only. `Update` returns the sequence it would plot.
- Resource cleanup (lines 210-213): I/O.
- Floating-point rounding: all arithmetic is exact, so no accuracy bound for a sampled sine is proved; such a bound needs trigonometry and error analysis.
- The blanket `except Exception` (lines 195-196) is modelled only for the one exception the modelled code can raise, the unpacking error on an odd byte count.
- FrequencyEstimator.EstimateFreq: requires a positive sample rate, as its one caller passes `RATE`. With a negative rate every period is negative, and the `T <= 0` guard (lines 110-111) is the branch that returns None. That is the only input on which the guard fires, and the model does not cover it. A zero rate would raise a division error in the source on the first crossing.
