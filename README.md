# Frame timing and latency tracking (CAPI FrameTimeManager)

This project models the frame-timing core of the Oculus VR Rift SDK's C API, as
declared in `Src/CAPI/CAPI_FrameTimeManager.h`, and proves properties of it in
Dafny. It has three parts.

- **TimeDeltaCollector** (`time_delta_collector.dfy`, module `DeltaCollector`)
  is a median filter over at most `Capacity = 12` time deltas, in seconds.
  - The class keeps the header's `Count` and a 12-slot `array<real>`.
  - A ghost `History` records every delta added since construction or the last
    `Clear`.
  - The invariant `Valid()` ties the held samples `TimeBufferSeconds[..Count]`
    to `Window(History)`, the 12 most recent deltas.
  - The median and the counting facts that pin it down are in
    `order_statistics.dfy` (module `OrderStatistics`).
- **FrameLatencyTracker** (`frame_latency_tracker.dfy`, module
  `LatencyTracker`) runs the latency tester's colour-tag protocol. The tracker:
  - waits for an all-zero read-back batch;
  - hands out tag colours from a rotation of `FramesTracked` nonzero values;
  - saves each tagged frame's end-of-frame and IMU read times in the ring slot
    of its colour;
  - matches later read-back batches against the saved tags.

  A match feeds the tag's scan-out time minus its end-of-frame time into the
  `FrameDeltas` collector. It also flags the tag so that it is never matched
  again.
- **FrameTimeManager** (`frame_time_manager.dfy`, module `TimeManager`) covers:
  - the per-frame value types `TimingInputs` and `Timing` with their zero
    defaults;
  - the manager's declared state;
  - `SetVsync`;
  - the two latency-tester calls that it hands on to its tracker;
  - the const accessor `GetFrameTiming()`.

The header declares these operations without showing their bodies. Where the
header leaves behaviour open, the model makes the following choices.

- **Collector overwrite.** The collector has no head index, and its count never
  exceeds the capacity. So when it is full, `AddTimeDelta` drops the oldest
  sample by moving the others down one slot, and the samples stay in arrival
  order.
- **Median.** The median of an even number of samples is the upper middle one,
  `sorted[n / 2]`. The median of no samples is `0.0`.
- **Tag colours.**
  - The tag colour of ring slot `k` is `k + 1`, and colour 0 is never saved.
  - `FrameIndex` names the slot that the next saved tag goes to, and it wraps
    modulo `FramesTracked`.
  - `GetNextDrawColor` does not change state; `SaveDrawColor` advances the
    index.
- **Matching.** `MatchRecord` matches every saved, unmatched tag whose colour
  the batch reports, in slot order. For each match:
  - `MatchCount` goes up by one;
  - the render and time-warp latencies become the raw values of that match,
    i.e. its scan-out time minus the saved IMU read time;
  - `LatencyRecordTime` becomes the current time, which is passed in as `now`.

  The header declares only one median filter in the tracker, `FrameDeltas`
  (line 115), and nothing that could filter the two latencies, so the model
  keeps their raw values. It names the counter `MatchCount` (line 110), so the
  model counts matches and a save leaves it alone.
- **Reset.** `Reset` clears the ring as well as the statistics, so that a tag
  saved before a reset cannot match after it. The constructor yields the same
  state as `Reset`.

## Model

| member | source | states |
|---|---|---|
| OrderStatistics.MedianSplitsSamples | Src/CAPI/CAPI_FrameTimeManager.h:40-41 | The median of a non-empty sample list is one of the samples. At most half of the samples lie strictly below it, at most half strictly above it, and more than half at or below it. |
| OrderStatistics.MedianCharacterised | Src/CAPI/CAPI_FrameTimeManager.h:49 | A value splits the samples at the upper middle if and only if it is the median (both directions). |
| OrderStatistics.MedianDependsOnCountsOnly | Src/CAPI/CAPI_FrameTimeManager.h:49 | Two sample lists with the same counts below and at most every value have the same median, so the order in which samples are held does not matter. |
| DeltaCollector.WindowAppend | Src/CAPI/CAPI_FrameTimeManager.h:46 | The held window never exceeds Capacity. Admitting a delta appends it and drops the oldest sample exactly when the window was full. |
| DeltaCollector.OldestSampleForgotten | Src/CAPI/CAPI_FrameTimeManager.h:53-56 | A sample followed by at least Capacity newer ones is out of the window and no longer affects the median. |
| DeltaCollector.TimeDeltaCollector.constructor | Src/CAPI/CAPI_FrameTimeManager.h:44 | A new collector holds zero samples and a fresh 12-slot buffer. |
| DeltaCollector.TimeDeltaCollector.AddTimeDelta | Src/CAPI/CAPI_FrameTimeManager.h:46 | The held samples become the old ones plus the new delta, minus the oldest when the buffer was full. The count stays within 0..Capacity and the samples stay the last 12 of the history. |
| DeltaCollector.TimeDeltaCollector.Clear | Src/CAPI/CAPI_FrameTimeManager.h:47 | The count goes to 0 and no sample is held. The buffer and its capacity are kept. |
| DeltaCollector.TimeDeltaCollector.GetCount | Src/CAPI/CAPI_FrameTimeManager.h:51 | Returns the number of held samples as a double, between 0 and Capacity. It is read-only. |
| DeltaCollector.TimeDeltaCollector.GetMedianTimeDelta | Src/CAPI/CAPI_FrameTimeManager.h:49 | Returns 0.0 when empty. Otherwise it returns a held sample with at most half of the samples below it and at most half above it. The result is the median of the 12 most recent deltas added. |
| LatencyTracker.NextSlot | Src/CAPI/CAPI_FrameTimeManager.h:113 | The next frame index is always a valid ring slot, and it equals (index + 1) mod FramesTracked. |
| LatencyTracker.ColorsDistinctWithinLap | Src/CAPI/CAPI_FrameTimeManager.h:76 | Successive tag colours are never 0, and any FramesTracked consecutive ones are pairwise distinct. |
| LatencyTracker.ColorsRepeatAfterLap | Src/CAPI/CAPI_FrameTimeManager.h:76 | The tag colours repeat after exactly FramesTracked saves. |
| LatencyTracker.FindScanout | Src/CAPI/CAPI_FrameTimeManager.h:86 | Finds a scan-out time exactly when the batch reports the colour, and the time found is one the batch reports for that colour. |
| LatencyTracker.LatenciesOfLastMatch | Src/CAPI/CAPI_FrameTimeManager.h:117-119 | After matching, the render and time-warp latencies are the last matched tag's scan-out time minus its IMU read times, stamped with the current time. When nothing matched, they are unchanged. |
| LatencyTracker.MatchDeltasEmpty | Src/CAPI/CAPI_FrameTimeManager.h:114-115 | Matching feeds FrameDeltas nothing if and only if no saved tag is pending. It never feeds more deltas than there are slots. |
| LatencyTracker.MatchDeltasSingle | Src/CAPI/CAPI_FrameTimeManager.h:114-115 | With a single pending tag, matching feeds exactly one delta: its scan-out time minus its end-of-frame time. |
| LatencyTracker.RematchFeedsNothing | Src/CAPI/CAPI_FrameTimeManager.h:96 | Once matched, tags are not matched again by the same batch, and that batch feeds nothing more. |
| LatencyTracker.FrameLatencyTracker.constructor | Src/CAPI/CAPI_FrameTimeManager.h:78 | A new tracker is enabled and waiting for zeros, with an empty ring, index 0 and no statistics. |
| LatencyTracker.FrameLatencyTracker.Reset | Src/CAPI/CAPI_FrameTimeManager.h:90 | The tracker returns to the constructed state. Every ring slot is emptied and the FrameDeltas history is cleared. |
| LatencyTracker.FrameLatencyTracker.GetNextDrawColor | Src/CAPI/CAPI_FrameTimeManager.h:80-81 | The colour is 0 if and only if the tracker is not enabled and matching. Otherwise it is the nonzero tag of the slot at FrameIndex. |
| LatencyTracker.FrameLatencyTracker.SaveDrawColor | Src/CAPI/CAPI_FrameTimeManager.h:83-84 | Colour 0 saves nothing and changes nothing. Any other colour stores an unmatched record with the frame's end and IMU times in the current slot, and advances FrameIndex to the next slot. |
| LatencyTracker.FrameLatencyTracker.MatchRecord | Src/CAPI/CAPI_FrameTimeManager.h:86 | A disabled tracker changes nothing. While waiting for zeros, only an all-zero batch switches to matching. While matching, every pending tag is flagged and none is left pending. FrameDeltas receives exactly the scan-out minus end-of-frame deltas of the pending tags, MatchCount counts them, and the latencies are those of the last match. |
| LatencyTracker.FrameLatencyTracker.MatchSavedTags | Src/CAPI/CAPI_FrameTimeManager.h:112-115 | Matches the whole ring in slot order, with the same guarantees as the matching branch of MatchRecord. |
| LatencyTracker.FrameLatencyTracker.MatchSlot | Src/CAPI/CAPI_FrameTimeManager.h:94-99 | Only the given slot changes. A pending tag is flagged, its delta is fed once, the count goes up by one, and its latencies are recorded. Anything else changes nothing. |
| LatencyTracker.FrameLatencyTracker.GetLatencyTimings | Src/CAPI/CAPI_FrameTimeManager.h:88 | Writes the render latency, the time-warp latency and the FrameDeltas median, in that order. |
| LatencyTracker.NewMatchingTracker | Src/CAPI/CAPI_FrameTimeManager.h:104-107 | A new tracker that sees an all-zero batch starts matching, with an empty ring, index 0, match count 0, no fed deltas and zero render latency, time-warp latency and record time. |
| LatencyTracker.MatchOnceScenario | Src/CAPI/CAPI_FrameTimeManager.h:114-115 | The run is: tag one frame, then receive the batch that reports the tag twice. The tag is matched once, and the reported median delay is its scan-out minus end-of-frame time. |
| TimeManager.DefaultTimingInputs | Src/CAPI/CAPI_FrameTimeManager.h:145-147 | FrameDelta, ScreenDelay and TimewarpWaitDelta all start at 0, so time-warp waiting is unused (a zero delta means unused, line 142) and the wait delta is not positive. |
| TimeManager.ZeroTiming | Src/CAPI/CAPI_FrameTimeManager.h:167-170 | Every field of a default Timing is zero, including both eyes' render times and time-warp windows. Its inputs equal the default TimingInputs. |
| TimeManager.FrameTimeManager.constructor | Src/CAPI/CAPI_FrameTimeManager.h:133 | Vsync is set as requested, on by default. Both collectors start empty, the tracker is in its reset state and FrameTiming is the zero Timing. |
| TimeManager.DefaultManagerVsync | Src/CAPI/CAPI_FrameTimeManager.h:133 | A manager built without an argument has Vsync on. |
| TimeManager.FrameTimeManager.SetVsync | Src/CAPI/CAPI_FrameTimeManager.h:184 | Only VsyncEnabled changes, and it becomes the given value. |
| TimeManager.FrameTimeManager.GetFrameLatencyTestDrawColor | Src/CAPI/CAPI_FrameTimeManager.h:208-209 | Returns exactly the tracker's next draw colour: 0 unless the tracker is matching, otherwise the tag of the current slot. |
| TimeManager.FrameTimeManager.GetLatencyTimings | Src/CAPI/CAPI_FrameTimeManager.h:216-217 | Writes exactly what the tracker reports. The third value is the median of the last 12 measured present-to-scan-out deltas. |
| TimeManager.FrameTimeManager.GetFrameTiming | Src/CAPI/CAPI_FrameTimeManager.h:220 | Returns the stored FrameTiming unchanged. Its TimewarpWaitDelta is never positive, which the manager's invariant keeps; within this model only the constructor writes FrameTiming. |

## Left out

- `LocklessTiming` and the thread-safe `GetFrameTiming(frameIndex)`: they exist to publish a Timing from one thread to another. Concurrency is not modelled.
- `GetEyePredictionPose` and `GetTimewarpMatrices`: these are pose and matrix math from `OVR_Math.h` and the sensor fusion code. That code is not part of this model.
- `Init`, `ResetFrameTiming`, `BeginFrame`, `EndFrame`, `GetEyePredictionTime`, `GetTimewarpPredictions`, `NeedDistortionTimeMeasurement`, `AddDistortionTimeMeasurement`, `UpdateFrameLatencyTrackingAfterEndFrame`, `Timing::InitTimingFromInputs` and `calcFrameDelta`/`calcScreenDelay`/`calcTimewarpWaitDelta`: CAPI_FrameTimeManager.cpp is not part of this model. These bodies are floating-point timing arithmetic over wall-clock reads and the display's shutter data.
- `RenderInfo` (`HmdRenderInfo`): it is only read by the operations above, so the manager model omits it.
- The flags, delays and IMU read times that only `Init`, `ResetFrameTiming`, `BeginFrame` and `EndFrame` set (`DynamicPrediction`, `SdkRender`, `VSyncToScanoutDelay`, `NoVSyncToScanoutDelay`, `ScreenSwitchingDelay`, `RenderIMUTimeSeconds` and `TimewarpIMUTimeSeconds`) are declared but left unconstrained by the manager's constructor.
- `TimeManager.FrameTimeManager.GetFrameTiming`: "the wait delta is never positive" holds here only because no modelled operation writes `FrameTiming` after construction. `BeginFrame`, which would, is not modelled.
- `Util::FrameTimeRecord` and `Util::LT2_IncrementCount`: Util_LatencyTest2.h is not part of this model. A reported record is a (colour, scan-out time) pair, a batch is a sequence of them, and `LT2_IncrementCount` is taken as 8. No proof depends on that value beyond `2 <= LT2_IncrementCount <= 256`.
- `LatencyTracker.FrameLatencyTracker.MatchRecord`: the wall-clock read that stamps `LatencyRecordTime` is replaced by the parameter `now`.
- `LatencyTracker.FrameLatencyTracker.MatchRecord`: the render and time-warp latencies are stored raw, as those of the last match, not median-filtered. The header declares no filter for them.
- `LatencyTracker.LatenciesOfLastMatch`: likewise, this states the raw latencies of the last match, not a filtered value.
- `LatencyTracker.FrameLatencyTracker.SaveDrawColor`: a save does not change `MatchCount`. The model counts matches only, following the counter's name.
- `LatencyTracker.FrameLatencyTracker.Reset`: emptying the ring on reset is a choice of this model; the header does not show the body.
- `LatencyTracker.NextSlot`: the wrap of `FrameIndex` modulo `FramesTracked` is a choice of this model; the header shows only the ring's size.
- `LatencyTracker.SlotColor`: colour = slot + 1 is a choice of this model; the header says only that colour 0 needs no save.
- `LatencyTracker.FrameLatencyTracker.GetLatencyTimings`: the narrowing of the double latencies to `float` is not modelled. `Float` is an exact real.
- `TimeManager.FrameTimeManager.GetLatencyTimings`: the same narrowing to `float` is not modelled.
- Floating point in general: seconds are exact reals, so rounding and NaN are not modelled.
- `DeltaCollector.TimeDeltaCollector.GetCount`: the count is returned as an exact real rather than a double (the two agree for 0..12).
