# Metering plugin measurement core, in Dafny

This project models the sequential measurement state behind the meters of
the metering plugin:

- the running averager;
- the circular trace buffer and the histogram that writes into it and walks it;
- the two peak holders, one with ballistic decay and one with a threshold;
- the meter façade: the bar meter, the per-channel macro meter and the stereo meter;
- the per-sample loop of the correlation meter.

Every operation is a pure function over an immutable record, with two
exceptions: the tick grid of `Meter::resized` and the correlation meter's
`update` loop are methods with loops. Time is an explicit `now` argument
in milliseconds. Levels are in dB and are `real`. Only the correlation
guard needs IEEE special values; `FloatModel` supplies finite values,
infinities and NaN for it.

The modules, one per file:

| module | file | program part |
|---|---|---|
| `Ring` | ring.dfy | shared ring arithmetic: sum, fill, vector resize, chronological rotation |
| `Averagers` | averager.dfy | `Averager<T>` |
| `CircularBuffers` | circular_buffer.dfy | `CircularBuffer<T>` |
| `ValueHolderBase` | value_holder_base.dfy | `ValueHolderBase` |
| `DecayingValueHolders` | decaying_value_holder.dfy | `DecayingValueHolder` |
| `ValueHolders` | value_holder.dfy | `ValueHolder` |
| `Meters` | meter.dfy | `Meter` |
| `MacroMeters` | macro_meter.dfy | `MacroMeter` |
| `StereoMeters` | stereo_meter.dfy | `StereoMeter` |
| `Histograms` | histogram.dfy | `Histogram` |
| `FloatModel` | float_model.dfy | IEEE single-precision special values |
| `CorrelationMeters` | correlation_meter.dfy | `CorrelationMeter` |

Five places in the program do not do what their surroundings evidently
intend (see "## Findings"). For each one there are two members:

- a member named `...AsWritten`, or a counterexample lemma, that reproduces the code;
- a corrected member that the rest of the model uses.

`resize` is meant to restart the ring and keep the average:
`MacroMeter::resizeAverager` (Source/MacroMeter.cpp:138) refills the ring with
the current average. The code does neither. Its `int` accumulator truncates
the average, and the write index survives a shrink. The constructor runs the
same `resize`. `Averagers.New` therefore follows the program, and is
consistent only for an integral initial value. Every caller passes -48 or 0.
The meters resize through the corrected `Averagers.Resize`.

## Model

| member | source | states |
|---|---|---|
| Averagers.New | Source/Averager.h:17-20 | The constructor runs the program's `resize`. The index starts at 0, and the window is n copies of v. The average is v truncated toward zero. The total falls short of the true sum by n(v - trunc v). The result is valid iff v is integral. |
| Averagers.Add | Source/Averager.h:38-51 | `add(t)` writes t at the old write index and leaves every other slot unchanged. The index becomes (idx+1) mod size. The average is total/size. The gap between the running total and the true sum never changes, so an exact total stays exact. The chronological window loses its oldest entry and gains t. |
| Averagers.AddAll | Source/Averager.h:38-51 | Any run of `add`s keeps the index in range and the size fixed. It also keeps the gap between the running total and the sum of the slots, so a consistent averager stays consistent, with average == total/size. |
| Averagers.AddAllWindow | Source/Averager.h:38-51 | After any run of `add`s, the window holds the newest `size` entries of the whole history, in order. |
| Averagers.AddAllIndex | Source/Averager.h:48 | As long as no wrap-around happens, each `add` moves the write index on by exactly one. |
| Averagers.MeanOfLastWindow | Source/Averager.h:17-57 | After construction with n copies of v and any inputs xs, the average is the arithmetic mean of the last n values of fill ++ xs, less the constructor's shortfall n(v - trunc v) over n. For integral v it is exactly that mean. |
| Averagers.ClearAsWrittenBiasPersists | Source/Averager.h:26-51 | After an as-written `clear(v)` and any run of `add`s, the total stays short of the true sum by n(v - trunc v). The averager is consistent iff v is integral. |
| Averagers.AccumulateFill | Source/Averager.h:26 | Accumulating n copies of v into an `int` gives n times v truncated toward zero. |
| Averagers.ClearAsWritten | Source/Averager.h:22-30 | `clear(v)` as written fills every slot with v and keeps the index. The stored total is n times v truncated toward zero, and the average is total/size, which is v truncated. That equals v exactly when v is integral. The total falls short of the true sum by n(v - trunc v). |
| Averagers.ResizeAsWritten | Source/Averager.h:32-36 | `resize(s, v)` as written fills s slots and keeps the old write index. The result can take an `add` only if the old index is below s. |
| Averagers.ShrinkLeavesIndexPastEnd | Source/Averager.h:32-48 | Counterexample: 10 adds to a 20-slot averager, then a resize to 4, leave the write index at 10, outside the ring. |
| Averagers.ClearTruncatesFill | Source/Averager.h:26-27 | Counterexample: clearing to -47.5 dB reads back -47 dB as written and -47.5 dB when corrected. |
| Averagers.Clear | Source/Averager.h:22-30 | Corrected clear: every slot is v, the total is the exact sum, and the average is v. |
| Averagers.Resize | Source/Averager.h:32-36 | Corrected resize: the result is valid, has s slots, a window of s copies of v, and average v. |
| CircularBuffers.New | Source/CircularBuffer.h:19-22 | A fresh buffer is valid, and its chronological view is n copies of the fill value. |
| CircularBuffers.Resize | Source/CircularBuffer.h:24 | The prefix is kept, the buffer is padded with the fill value, and the index is untouched. The result is valid iff s >= 1 and the old index is below s. |
| CircularBuffers.Clear | Source/CircularBuffer.h:25 | Every slot becomes the fill value. The size and index are unchanged. |
| CircularBuffers.Write | Source/CircularBuffer.h:27-38 | `write(t)` stores t at the old index and changes no other slot. The index becomes idx+1, or 0 after the last slot. The chronological view loses its oldest entry and gains t. |
| CircularBuffers.GetReadIndex | Source/CircularBuffer.h:42-46 | The read index addresses the oldest retained sample. |
| CircularBuffers.WriteAllChronology | Source/CircularBuffer.h:27-46 | After any run of writes, the chronological view is the newest `size` samples of the history. |
| CircularBuffers.LastInputsInOrder | Source/CircularBuffer.h:27-46 | After n >= size writes, reading size slots from the read index, with wrap-around, yields the last size inputs in order. The read index holds the oldest of them. |
| ValueHolderBase.Init | Source/ValueHolderBase.h:41-45 | Initial state: current and held values at -48, peak time at construction, hold time 2000 ms. The hold has not yet expired. |
| ValueHolderBase.SetHoldTime | Source/ValueHolderBase.h:24-25 | `getHoldTime()` after `setHoldTime(ms)` returns ms. |
| ValueHolderBase.Reset | Source/ValueHolderBase.h:28 | `reset` puts the current value at -48 and leaves the held value, peak time and hold time unchanged. |
| ValueHolderBase.ExpiryPersists | Source/ValueHolderBase.h:30-34 | The timer never moves the peak time, so an expired hold stays expired at every later tick. |
| ValueHolderBase.ExpiryIsStrict | Source/ValueHolderBase.h:32 | The expiry test is strict: the hold has not expired at peak + hold, and has expired one millisecond later. |
| DecayingValueHolders.New | Source/DecayingValueHolder.h:18-29 | The per-frame decay rate is 12/40 = 0.3 dB. The multiplier is 1. The base fields are at their initial values. |
| DecayingValueHolders.UpdateHeldValue | Source/DecayingValueHolder.cpp:17-25 | An input at or below the current value changes nothing. A larger input becomes the current value unclamped, sets the peak time to now and resets the multiplier to 1. |
| DecayingValueHolders.SetDecayRate | Source/DecayingValueHolder.cpp:27-30 | Only the per-frame rate changes, and rate * 40 equals the dB/s argument. |
| DecayingValueHolders.ResetDecayRateMultiplier | Source/DecayingValueHolder.h:31 | The multiplier becomes 1 and nothing else changes. |
| DecayingValueHolders.HandleOverHoldTime | Source/DecayingValueHolder.cpp:32-42 | The value lands in [-48, 6]. It never rises when the rate and multiplier are non-negative. It is value - rate*multiplier whenever that lies inside the range. The multiplier grows by 1.04, except that it is reset to 1 exactly at the floor. |
| DecayingValueHolders.TimerCallback | Source/ValueHolderBase.h:30-34 | The holder decays iff now - peakTime > holdTime; otherwise it is unchanged. |
| DecayingValueHolders.Reset | Source/ValueHolderBase.h:28 | The falling tick drops to the floor and keeps its rate and multiplier. |
| DecayingValueHolders.MultiplierIsGeometric | Source/DecayingValueHolder.cpp:38-41 | After n ticks that stay above the floor, the multiplier is its starting value times 1.04^n. |
| DecayingValueHolders.StepAccelerates | Source/DecayingValueHolder.cpp:34-41 | Above the floor, each tick subtracts 1.04 times the previous tick's step, which is strictly more. |
| DecayingValueHolders.FloorIsStable | Source/DecayingValueHolder.cpp:34-41 | At the floor with a non-negative rate, a tick keeps the value at -48 and the multiplier at 1. |
| DecayingValueHolders.TicksNeverRise | Source/DecayingValueHolder.cpp:34-41 | Over any run of ticks the value never rises, the multiplier stays >= 1 and the rate is unchanged. |
| DecayingValueHolders.FallsAtLeastBaseRate | Source/DecayingValueHolder.cpp:34-38 | After n ticks, the value is at the floor or at least n * rate below its start. |
| DecayingValueHolders.ReachesFloor | Source/DecayingValueHolder.cpp:34-41 | A peak reaches -48 after at most (value + 48) / rate expired ticks. |
| DecayingValueHolders.DefaultBallistics | Source/DecayingValueHolder.cpp:32-42 | With a zero hold time and the default rate, the first two expired ticks after a -3 dB peak give -3.3 and -3.612 dB. |
| ValueHolders.New | Source/ValueHolder.h:27 | The threshold starts at 0 dB, and a fresh holder is not over it. |
| ValueHolders.SetThreshold | Source/ValueHolder.cpp:14-17 | Only the threshold changes. |
| ValueHolders.UpdateHeldValue | Source/ValueHolder.cpp:19-29 | The current value always becomes x. The holder is over threshold iff x > threshold. Above the threshold, the peak time becomes now, the held value becomes max(held, x), and held >= current. At or below the threshold, the held value and peak time are unchanged. |
| ValueHolders.HandleOverHoldTime | Source/ValueHolder.cpp:36-39 | The held value becomes -48. The current value, threshold, peak time and hold time are unchanged. |
| ValueHolders.TimerCallback | Source/ValueHolderBase.h:30-34 | The held value drops to -48 iff the hold has expired; otherwise nothing changes. |
| ValueHolders.HeldIsMaxAboveThreshold | Source/ValueHolder.cpp:19-29 | Between expiries, the held value is the running maximum of the starting held value and of every input above the threshold. |
| Meters.New | Source/Meter.h:33-38 | A fresh meter has level 0, threshold 0, a fresh falling tick and no ticks. |
| Meters.Resized | Source/Meter.cpp:66-81 | Exactly 10 ticks, in ascending order, at -48, -42, …, 0, 6 dB, each at the row `jmap<int>` computes. The old list is discarded, so repeated calls give the same 10. |
| Meters.TickRowsDescend | Source/Meter.cpp:77 | On a meter of non-negative height, -48 dB maps to the bottom row and 6 dB to row 0. A louder tick is never drawn below a quieter one. |
| Meters.Update | Source/Meter.cpp:83-88 | The level becomes x, and x is handed once to the falling tick's `updateHeldValue`. The tick then sits at or above the level. |
| Meters.SetThreshold | Source/Meter.cpp:90-93 | Only the threshold changes. |
| Meters.SetDecayRate | Source/Meter.cpp:95-98 | Pure delegation to the falling tick. |
| Meters.SetHoldTime | Source/Meter.cpp:100-103 | Pure delegation to the falling tick; its hold time becomes ms. |
| Meters.ResetValueHolder | Source/Meter.cpp:105-108 | Pure delegation; the falling tick drops to -48. |
| Meters.SetTickVisibility | Source/Meter.cpp:110-114 | Only the tick flag changes. |
| Meters.TickValue | Source/Meter.cpp:50 | With a hold time of 0 the tick is drawn at the level; otherwise at the falling tick's value. |
| Meters.TickNotBelowBarAfterUpdate | Source/Meter.cpp:50 | Right after an update, the drawn tick is at or above the new level, whatever the hold time. |
| Meters.ThresholdEqualityIsRedOnlyOnTheBar | Source/Meter.cpp:32 | At level == threshold the bar counts as over (`<=`), while the text holder fed the same value does not (`>`). |
| MacroMeters.New | Source/MacroMeter.cpp:14-20 | Both bars are visible. The averager has 20 slots of -48 dB. |
| MacroMeters.Update | Source/MacroMeter.cpp:64-71 | Needs only an addressable write index, so it also runs on an averager left biased by the program's `resize`. The bias is unchanged, and a valid averager stays valid. The input enters the averager first, so the average bar shows a mean that already includes it. The instant bar and the text meter receive the raw input. |
| MacroMeters.AverageBarShowsWindowMean | Source/MacroMeter.cpp:64-71 | From a fresh meter, the average bar shows the mean of the newest 20 entries of -48 fill ++ inputs. |
| MacroMeters.TimerFired | Source/ValueHolderBase.h:30-34 | One holder's timer fires. Only that holder's peak state can move. No setting, level, visibility flag or averager entry changes, and the other two holders are untouched. |
| MacroMeters.SetThreshold | Source/MacroMeter.cpp:73-78 | The threshold reaches all three sub-meters, and nothing else changes. |
| MacroMeters.SetDecayRate | Source/MacroMeter.cpp:80-84 | The rate reaches the two bars only. |
| MacroMeters.SetHoldTime | Source/MacroMeter.cpp:86-90 | The hold time reaches the two bars only; the text meter keeps its own. |
| MacroMeters.ResetValueHolder | Source/MacroMeter.cpp:92-96 | Both bars' falling ticks drop to -48; nothing else changes. |
| MacroMeters.SetMeterView | Source/MacroMeter.cpp:98-115 | Id 1 shows both bars, 2 only the instant bar, 3 only the average bar. Any other id changes nothing. |
| MacroMeters.ViewsNeverHideBoth | Source/MacroMeter.cpp:98-115 | No sequence of view ids can hide both bars. |
| MacroMeters.SetTickVisibility | Source/MacroMeter.cpp:117-121 | Both bars get the same tick flag. |
| MacroMeters.AveragerSizeForId | Source/MacroMeter.cpp:128-136 | The size is one of 4, 10, 20, 40, 80; any id outside 1..5 gives 20. |
| MacroMeters.AveragerSizeMatchesLabel | Source/AverageTimeToggleGroup.h:23 | At one sample per 25 ms, each size spans the time on its button (100 … 2000 ms). The fallback is the 500 ms size. |
| MacroMeters.ResizeAverager | Source/MacroMeter.cpp:123-139 | Corrected, on `Averagers.Resize`; the program's path is `MacroMeters.ResizeAsWrittenTruncatesAverage`. The averager gets the id's size and is refilled with the current average. The result is valid whatever state it started from, and the average is preserved exactly. |
| MacroMeters.ResizeAsWrittenTruncatesAverage | Source/MacroMeter.cpp:138 | With the program's own resize, the average survives iff it is integral. |
| StereoMeters.New | Source/StereoMeter.h:40-42 | A left and a right channel, valid and configured alike. |
| StereoMeters.Update | Source/StereoMeter.cpp:80-84 | Needs only addressable write indices on both channels, and a valid meter stays valid. L goes to the left channel, R to the right channel, and the channels stay configured alike. |
| StereoMeters.ChannelsAreIndependent | Source/StereoMeter.cpp:80-84 | Neither channel's result depends on the other channel's input. |
| StereoMeters.SetThreshold | Source/StereoMeter.cpp:86-90 | Both channels get the same threshold. |
| StereoMeters.DecayRateForId | Source/StereoMeter.cpp:96-104 | The rate is one of 3, 6, 12, 24, 36 dB/s; any id outside 1..5 gives 12. |
| StereoMeters.DecayRateMatchesLabel | Source/DecayRateToggleGroup.h:23 | Each rate is the magnitude on its button. The fallback is the falling tick's initial rate. |
| StereoMeters.SetDecayRate | Source/StereoMeter.cpp:92-108 | Both channels get the rate the id selects. |
| StereoMeters.SetTickVisibility | Source/StereoMeter.cpp:110-114 | Both channels get the same flag. |
| StereoMeters.HoldTimeMsAsWritten | Source/StereoMeter.cpp:118-129 | Ids 1..5 give 0, 500, 2000, 4000, 6000 and others give 500. Id 6 gives whatever converting `INFINITY` to `long long` yields. |
| StereoMeters.InfiniteHoldExpiresAtOnce | Source/StereoMeter.cpp:127 | Counterexample: if the undefined conversion yields INT64_MIN (one possible result, e.g. of a run-time conversion on x86-64), the "inf" hold has expired at every tick from the peak on. |
| StereoMeters.HoldTimeMs | Source/StereoMeter.cpp:118-129 | Corrected table: the same entries, with id 6 giving INT64_MAX. |
| StereoMeters.InfiniteHoldNeverExpires | Source/StereoMeter.cpp:127 | With the corrected table, the "inf" hold never expires within any representable elapsed time. |
| StereoMeters.HoldTimeMatchesLabel | Source/HoldTimeToggleGroup.h:23 | Ids 1..5 match the button times; the fallback is the 0.5 s button. |
| StereoMeters.SetTickHoldTime | Source/StereoMeter.cpp:116-133 | Corrected, on `StereoMeters.HoldTimeMs`; the program's table is `StereoMeters.HoldTimeMsAsWritten`. Both channels get the hold time the id selects. |
| StereoMeters.ResetValueHolder | Source/StereoMeter.cpp:135-139 | Both channels are reset. |
| StereoMeters.SetMeterView | Source/StereoMeter.cpp:141-145 | Both channels get the same view id. |
| StereoMeters.ResizeAverager | Source/StereoMeter.cpp:147-151 | Corrected, on `MacroMeters.ResizeAverager`; the program's path truncates a non-integral average and can leave the index past the end (`Averagers.ResizeAsWritten`). Both channels resize to the same size and stay valid. |
| StereoMeters.ChannelsStayInStep | Source/StereoMeter.cpp:80-151 | Corrected, on `MacroMeters.ResizeAverager` for the averager-size action. From a fresh meter, after any interleaving of actions, samples and single-holder timer callbacks, left and right have equal settings: thresholds, rates, hold times, flags, views and averager sizes. The text meters keep the 2 s hold. |
| Histograms.New | Source/Histogram.h:29 | 776 slots at -48 dB. |
| Histograms.Update | Source/Histogram.cpp:106-112 | Exactly one write, of (L + R) / 2. |
| Histograms.StartIndex | Source/Histogram.cpp:49-56 | The walk starts at the read index in rows view, and half a ring later in columns view. Either way it is in range. |
| Histograms.WalkAsWritten | Source/Histogram.cpp:66-83 | The walk as written visits start, start+1, …, size-2 and then 0, 1, …, start-1, in that order. That is size-1 distinct indices, all below size-1. |
| Histograms.WalkSkipsLastSlot | Source/Histogram.cpp:66 | Counterexample: for every start, index size-1 is missing from the walk as written, and present in the corrected walk. |
| Histograms.NewestSampleNotDrawn | Source/Histogram.cpp:66-83 | After exactly 776 updates in rows view, the slot holding the newest sample is not drawn. |
| Histograms.Walk | Source/Histogram.cpp:66-83 | Corrected walk: every slot exactly once, with entry k equal to (start + k) reduced modulo size. |
| Histograms.TraceOfWalkIsRotation | Source/Histogram.cpp:66-83 | Reading the ring along the corrected walk gives the ring rotated to the start index. |
| Histograms.ColumnsRotation | Source/Histogram.cpp:53-56 | Columns view shows the chronological view rotated by half a ring. |
| Histograms.Points | Source/Histogram.cpp:64-83 | Corrected, on `Histograms.Walk`; the program draws size - 1 points along `Histograms.WalkAsWritten`. One point per sample. x runs 1, 2, 3, …. Rows view gives the samples oldest first; columns view gives them rotated by half a ring. |
| FloatModel.Mul | Source/CorrelationMeter.cpp:117 | NaN absorbs, infinity times zero is NaN, and finite times finite is the real product. |
| FloatModel.Div | Source/CorrelationMeter.cpp:122 | NaN absorbs, 0/0 and inf/inf are NaN, finite/inf is 0, and a finite result needs a finite numerator. |
| FloatModel.Sqrt | Source/CorrelationMeter.cpp:117 | NaN for NaN or negative input, +inf for +inf, finite exactly for finite non-negative input. When `root` is a true square root (`IsRoot`), a finite result is non-negative and squares back to the input, and it is zero exactly when the input is zero. |
| CorrelationMeters.PrepareFilters | Source/CorrelationMeter.cpp:22-40 | All three filters get the one coefficient set designed at 100 Hz, order 2, and a cleared history. |
| CorrelationMeters.New | Source/CorrelationMeter.h:32-33 | The averagers span blockSize and 6 * blockSize slots of 0. The filters are prepared and share coefficients. |
| CorrelationMeters.Denominator | Source/CorrelationMeter.cpp:117 | Both power filters advance on every sample, the product filter does not, and shared coefficients stay shared. |
| CorrelationMeters.GuardsDifferOnlyOnNaN | Source/CorrelationMeter.cpp:119 | The program's guard passes a denominator that the finite, non-zero guard rejects exactly when that denominator is NaN. |
| CorrelationMeters.SampleAsWritten | Source/CorrelationMeter.cpp:114-131 | If the guard fails, 0 is pushed and the product filter stays put. Otherwise the product filter advances and numerator/denominator is pushed. |
| CorrelationMeters.NaNDenominatorIsPushed | Source/CorrelationMeter.cpp:119-125 | A NaN denominator makes the program push NaN; the corrected iteration pushes 0. |
| CorrelationMeters.NaNPassesGuard | Source/CorrelationMeter.cpp:117-125 | Counterexample: pass-through filters with L = +inf and R = 0 make the program push NaN. |
| CorrelationMeters.Sample | Source/CorrelationMeter.cpp:114-131 | Corrected iteration: filters advance as in the program. A finite quotient is pushed only past a finite, non-zero denominator; otherwise 0 is pushed. |
| CorrelationMeters.CorrectedAgreesOnFiniteOutputs | Source/CorrelationMeter.cpp:119-125 | Wherever the program pushes a finite value, the corrected iteration pushes the same value and leaves the same filter state. |
| CorrelationMeters.Run | Source/CorrelationMeter.cpp:110-135 | Corrected, on `CorrelationMeters.Sample`; the program's step is `CorrelationMeters.SampleAsWritten`. Each sample pushes exactly one value into each averager, the same value into both. Validity and shared coefficients are preserved. |
| CorrelationMeters.Update | Source/CorrelationMeter.cpp:110-135 | Corrected, on `CorrelationMeters.Sample`; the program's step is `CorrelationMeters.SampleAsWritten`. The loop over a block equals the functional `Run`, and pushes one value per sample into both averagers. |
| CorrelationMeters.FreshMeterReadsWindowMeans | Source/CorrelationMeter.h:32-33 | Corrected, on `CorrelationMeters.Sample`. On a fresh meter, the averagers read the means of the newest blockSize and 6 * blockSize pushed values, with the initial zeros oldest. |

## Left out

- `Fifo` (Source/PluginProcessor.h) is not part of this model. It wraps a library FIFO whose index arithmetic is not visible. The code returns false from `push` when the FIFO is full.
- All `paint` and `resized` layout is left out: colours, gradients, rectangles, fonts and labels. Two exceptions are modelled: the tick grid, and the histogram's walk with its x coordinates. The bar's red/normal test is the predicate `Meters.IsOverThreshold`. The `jmap<float>` pixel mapping of levels is left out.
- JUCE timers and `Time::currentTimeMillis` are left out: time is an explicit `now`, and each holder's callback is an explicit event (`MacroMeters.TimerFired`). The atomics are also left out, since every step runs on one thread.
- Float rounding is left out: levels are exact reals. `FloatModel` has no overflow, no subnormals and no signed zero.
- The FIR design and `processSample`, and the real square root, are parameters (`Dsp`): their code belongs to the DSP library. The correlation meter does not require `IsRoot` of its square-root parameter, so its results do not rely on the root being a true square root.
- Overflow is not modelled in three places: the 64-bit `now - peakTime`, the `int` accumulator in `clear` (beyond truncation), and the `size_t` id tables.
- Averagers.ClearAsWritten: does not model overflow of the `int` accumulator for very large fills, because meter levels stay within a few hundred dB.
- CorrelationMeters.Sample: promises neither outputs in [-1, 1] nor any property of the filtered signals, because the filters are opaque.
- `Meter::fallingTickEnabled` and `Histogram::view` are never initialised in the program, so they are constructor parameters here.
- The correlation meter's `paintMeter` and the Goniometer are left out: they are drawing only.
- The audio buffer is a sequence of (left, right) sample pairs. Other channel counts are not modelled.

## Findings

| source | as written | input that shows it | evidently intended | confidence | as-written member | corrected member |
|---|---|---|---|---|---|---|
| Source/Averager.h:26 | `std::accumulate(..., 0)` sums into an `int`, truncating every partial sum | `clear(-47.5)` on 20 slots reads back an average of -47 | the total summed in floating point, so the average equals the fill value | high, not executed | Averagers.ClearAsWritten | Averagers.Clear |
| Source/Averager.h:32-36 | `resize` keeps the write index | 10 adds into 20 slots, then `resize(4, …)`: the index is 10, and the next `add` writes past the end | the index restarts at 0 | high, not executed | Averagers.ResizeAsWritten | Averagers.Resize |
| Source/Histogram.cpp:66 | the first loop stops at `bufferSize - 1`, so slot 775 is never drawn | 776 updates from a fresh histogram in rows view: the newest sample sits in slot 775 and is not drawn | walk every slot once, starting at the read index | medium, not executed | Histograms.WalkAsWritten | Histograms.Walk |
| Source/CorrelationMeter.cpp:119 | the guard tests only `!= 0` and `!isinf`, so a NaN denominator passes | L = +inf, R = 0 with pass-through filters: inf·0 = NaN under the root, and NaN is pushed into both averagers | push 0 unless the denominator is finite and non-zero, and push 0 when the quotient is not finite (an infinite or NaN numerator over a finite non-zero denominator) | high, not executed | CorrelationMeters.SampleAsWritten | CorrelationMeters.Sample |
| Source/StereoMeter.cpp:127 | `INFINITY` is assigned to a `long long`, which is undefined behaviour | id 6 where the undefined conversion yields INT64_MIN, one possible result (a run-time conversion on x86-64 gives it): the hold has expired at every tick, so the tick falls at once | a hold that never expires, e.g. the largest `long long` | high, not executed | StereoMeters.HoldTimeMsAsWritten | StereoMeters.HoldTimeMs |
