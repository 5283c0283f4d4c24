/** FrameTimeManager: keeps track of rendered frame timing for orientation and
 *  time-warp prediction. This module holds the per-frame timing value types,
 *  the manager's declared state, and the manager operations whose behaviour is
 *  fixed by their declarations: the Vsync setter, the latency-tester calls it
 *  hands on to its FrameLatencyTracker, and the const accessor to the current
 *  frame's Timing.
 */
module TimeManager {
  import opened OrderStatistics
  import opened DeltaCollector
  import opened LatencyTracker

  /** An `unsigned int`. */
  type Uint32 = x: int | 0 <= x < 0x1_0000_0000

  /** One value per eye, left then right. */
  type EyePair = s: seq<real> | |s| == 2 witness [0.0, 0.0]

  /** One (start, end) time-warp window per eye. */
  type EyeWindows = s: seq<EyePair> | |s| == 2 witness [NoTimes, NoTimes]

  const NoTimes: EyePair := [0.0, 0.0]

  /** Data that affects the frame timing computation (seconds). */
  datatype TimingInputs = TimingInputs(
    FrameDelta: real,         // fixed, or the median of measured frame deltas
    ScreenDelay: real,        // present to scan-out, possibly as measured by the latency tracker
    TimewarpWaitDelta: real)  // minus the lead time of time-warp before EndFrame; 0.0 if not used

  /** Time-warp waiting is configured: time-warp starts some time before EndFrame.
   *  A delta of 0.0 means "not used", so unused waiting has a zero delta by
   *  definition. */
  predicate TimewarpWaitUsed(inputs: TimingInputs) {
    inputs.TimewarpWaitDelta != 0.0
  }

  /** TimewarpWaitDelta is a negated lead time: never positive. */
  predicate InputsWellFormed(inputs: TimingInputs) {
    inputs.TimewarpWaitDelta <= 0.0
  }

  /** The value of a default-constructed TimingInputs. */
  function DefaultTimingInputs(): (inputs: TimingInputs)
    ensures inputs.FrameDelta == 0.0 && inputs.ScreenDelay == 0.0 && inputs.TimewarpWaitDelta == 0.0
    ensures InputsWellFormed(inputs) && !TimewarpWaitUsed(inputs)
  {
    TimingInputs(0.0, 0.0, 0.0)
  }

  /** Timing values of one frame: its inputs, its index and the predicted
   *  absolute times (seconds) of its schedule. */
  datatype Timing = Timing(
    Inputs: TimingInputs,
    FrameIndex: Uint32,  // index of the frame that started at ThisFrameTime
    ThisFrameTime: real,
    TimewarpPointTime: real,
    NextFrameTime: real,
    MidpointTime: real,
    EyeRenderTimes: EyePair,
    TimeWarpStartEndTimes: EyeWindows)

  predicate TimingWellFormed(t: Timing) {
    InputsWellFormed(t.Inputs)
  }

  /** The value of a default-constructed Timing: every field zero, which also
   *  makes its inputs those of a default-constructed TimingInputs. */
  function ZeroTiming(): (t: Timing)
    ensures t.Inputs == DefaultTimingInputs()
    ensures t.FrameIndex == 0
    ensures t.ThisFrameTime == 0.0 && t.TimewarpPointTime == 0.0
    ensures t.NextFrameTime == 0.0 && t.MidpointTime == 0.0
    ensures forall eye :: 0 <= eye < 2 ==>
      && t.EyeRenderTimes[eye] == 0.0
      && t.TimeWarpStartEndTimes[eye][0] == 0.0
      && t.TimeWarpStartEndTimes[eye][1] == 0.0
    ensures TimingWellFormed(t) && !TimewarpWaitUsed(t.Inputs)
  {
    Timing(TimingInputs(0.0, 0.0, 0.0), 0, 0.0, 0.0, 0.0, 0.0, [0.0, 0.0], [[0.0, 0.0], [0.0, 0.0]])
  }

  class FrameTimeManager {
    /** Frame-to-frame time deltas, through a median filter. */
    const FrameTimeDeltas: TimeDeltaCollector
    /** Distortion rendering times, through a median filter. */
    const DistortionRenderTimes: TimeDeltaCollector
    const ScreenLatencyTracker: FrameLatencyTracker

    /** Without Vsync, all prediction is reduced to a fixed interval. */
    var VsyncEnabled: bool
    var DynamicPrediction: bool
    /** Set if the SDK does the distortion rendering. */
    var SdkRender: bool

    /** Total frame delay components, derived from the display's shutter type. */
    var VSyncToScanoutDelay: real
    var NoVSyncToScanoutDelay: real
    var ScreenSwitchingDelay: real

    /** Current (or last) frame timing. */
    var FrameTiming: Timing

    /** IMU read times. */
    var RenderIMUTimeSeconds: real
    var TimewarpIMUTimeSeconds: real

    ghost function Repr(): set<object> {
      {this} + FrameTimeDeltas.Repr() + DistortionRenderTimes.Repr() + ScreenLatencyTracker.Repr()
    }

    ghost predicate Valid()
      reads Repr()
    {
      && FrameTimeDeltas.Valid()
      && DistortionRenderTimes.Valid()
      && ScreenLatencyTracker.Valid()
      // the three median filters are separate objects over separate buffers
      && FrameTimeDeltas != DistortionRenderTimes
      && FrameTimeDeltas != ScreenLatencyTracker.FrameDeltas
      && DistortionRenderTimes != ScreenLatencyTracker.FrameDeltas
      && FrameTimeDeltas.TimeBufferSeconds != DistortionRenderTimes.TimeBufferSeconds
      && FrameTimeDeltas.TimeBufferSeconds != ScreenLatencyTracker.FrameDeltas.TimeBufferSeconds
      && DistortionRenderTimes.TimeBufferSeconds != ScreenLatencyTracker.FrameDeltas.TimeBufferSeconds
      && TimingWellFormed(FrameTiming)
    }

    /** Starts with empty filters, a tracker in its reset state and a zero
     *  Timing; Vsync is on unless the caller says otherwise. The remaining flags,
     *  delays and IMU read times are set by code outside this model. */
    constructor (vsyncEnabled: bool := true)
      ensures Valid()
      ensures fresh(Repr() - {this})
      ensures VsyncEnabled == vsyncEnabled
      ensures FrameTiming == ZeroTiming()
      ensures FrameTimeDeltas.History == [] && DistortionRenderTimes.History == []
      ensures ScreenLatencyTracker.IsReset()
    {
      FrameTimeDeltas := new TimeDeltaCollector();
      DistortionRenderTimes := new TimeDeltaCollector();
      ScreenLatencyTracker := new FrameLatencyTracker();
      VsyncEnabled := vsyncEnabled;
      FrameTiming := ZeroTiming();
    }

    /** Turns Vsync on or off; nothing else changes. */
    method SetVsync(enabled: bool)
      requires Valid()
      modifies this`VsyncEnabled
      ensures Valid()
      ensures VsyncEnabled == enabled
    {
      VsyncEnabled := enabled;
    }

    /** The colour to draw for the latency tester this frame, as the tracker
     *  gives it: 0 unless the tracker is enabled and matching. */
    function GetFrameLatencyTestDrawColor(): (c: Byte)
      reads Repr()
      requires Valid()
      ensures c == ScreenLatencyTracker.GetNextDrawColor()
      ensures c == 0 <==>
        !(ScreenLatencyTracker.TrackerEnabled && ScreenLatencyTracker.WaitMode == SampleWait_Match)
      ensures c != 0 ==> c - 1 == ScreenLatencyTracker.FrameIndex
    {
      ScreenLatencyTracker.GetNextDrawColor()
    }

    /** The tracker's latency report: render latency, time-warp latency, and the
     *  median of the most recent present-to-scan-out deltas it measured. */
    method GetLatencyTimings(latencies: array<Float>)
      requires Valid()
      requires latencies.Length == 3
      modifies latencies
      ensures latencies[0] == ScreenLatencyTracker.RenderLatencySeconds as Float
      ensures latencies[1] == ScreenLatencyTracker.TimewarpLatencySeconds as Float
      ensures latencies[2] == ScreenLatencyTracker.FrameDeltas.GetMedianTimeDelta() as Float
      ensures latencies[2] == Median(Window(ScreenLatencyTracker.FrameDeltas.History)) as Float
    {
      ScreenLatencyTracker.GetLatencyTimings(latencies);
    }

    /** The current frame's Timing, as stored. Its wait delta is non-positive
     *  because Valid() requires it; no operation of this model writes FrameTiming
     *  after construction (BeginFrame, which does, is not part of it). */
    function GetFrameTiming(): (t: Timing)
      reads Repr()
      requires Valid()
      ensures t == FrameTiming
      ensures TimingWellFormed(t)
      ensures t.Inputs.TimewarpWaitDelta <= 0.0
    {
      FrameTiming
    }
  }

  /** A manager built without an argument starts with Vsync on. */
  method DefaultManagerVsync() returns (enabled: bool)
    ensures enabled
  {
    var manager := new FrameTimeManager();
    enabled := manager.VsyncEnabled;
  }
}
