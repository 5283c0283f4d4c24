/** FrameLatencyTracker: measures the delay from a frame's present to its
 *  scan-out with the latency tester's pixel read-back.
 *
 *  While matching, each frame is tagged with a colour taken from a fixed
 *  rotation, and the frame's end time and IMU read times are saved in the ring
 *  slot the colour names (colour = slot + 1; colour 0 is never saved). The
 *  hardware later reports batches of (colour, scan-out time) records. A saved,
 *  not yet matched record whose colour appears in a batch is matched: its
 *  scan-out time minus its saved end-of-frame time goes into the FrameDeltas
 *  median filter, and the record is flagged so it is never used again.
 */
module LatencyTracker {
  import opened OrderStatistics
  import opened DeltaCollector

  /** An `unsigned char`. */
  type Byte = x: int | 0 <= x < 256

  /** A single-precision `float` output value. Narrowing a double to a float is
   *  not modelled: the value is kept exactly. */
  newtype Float = real

  /** Number of read-back increments of the latency-tester protocol.
   *  Util/Util_LatencyTest2.h, which defines it, is not part of this model;
   *  8 stands in for it, and the model relies only on 2 <= LT2_IncrementCount <= 256. */
  const LT2_IncrementCount: int := 8

  /** Number of ring slots, one per nonzero tag colour. */
  const FramesTracked: int := LT2_IncrementCount - 1

  datatype Option<T> = None | Some(value: T)

  /** One record reported by the latency tester: the colour read back and the
   *  time it was scanned out. */
  datatype FrameTimeRecord = FrameTimeRecord(Color: Byte, TimeSeconds: real)

  /** A batch of records reported together. */
  type FrameTimeRecordSet = seq<FrameTimeRecord>

  /** A saved tag: its colour and end-of-frame (post-present) time, extended with
   *  the matched flag and the two IMU read times in effect for the frame. */
  datatype FrameTimeRecordEx = FrameTimeRecordEx(
    Color: Byte,
    TimeSeconds: real,
    MatchedRecord: bool,
    RenderIMUTimeSeconds: real,
    TimewarpIMUTimeSeconds: real)

  /** A slot that holds no saved tag. */
  const EmptyRecord := FrameTimeRecordEx(0, 0.0, false, 0.0, 0.0)

  datatype SampleWaitType =
    | SampleWait_Zeroes  // waiting for a read-back batch with all zeros
    | SampleWait_Match   // issuing and matching colours

  /** The tag colour of a ring slot. */
  function SlotColor(slot: int): Byte
    requires 0 <= slot < FramesTracked
  {
    slot + 1
  }

  /** The slot used after `slot`, wrapping around the ring. */
  function NextSlot(slot: int): (next: int)
    requires 0 <= slot < FramesTracked
    ensures 0 <= next < FramesTracked
    ensures next == (slot + 1) % FramesTracked
  {
    if slot + 1 == FramesTracked then 0 else slot + 1
  }

  /** The slot in use after `k` saves starting at `start`. */
  function SlotAfter(start: int, k: nat): (slot: int)
    requires 0 <= start < FramesTracked
    ensures 0 <= slot < FramesTracked
  {
    if k == 0 then start else NextSlot(SlotAfter(start, k - 1))
  }

  /** Fewer than FramesTracked saves move forward by that many slots, wrapping once. */
  lemma {:induction false} SlotAfterWithinLap(start: int, k: nat)
    requires 0 <= start < FramesTracked
    requires k < FramesTracked
    ensures SlotAfter(start, k) == if start + k < FramesTracked then start + k else start + k - FramesTracked
  {
    if k > 0 {
      SlotAfterWithinLap(start, k - 1);
    }
  }

  lemma {:induction false} SlotAfterSplit(start: int, j: nat, k: nat)
    requires 0 <= start < FramesTracked
    ensures SlotAfter(start, j + k) == SlotAfter(SlotAfter(start, j), k)
  {
    if k > 0 {
      SlotAfterSplit(start, j, k - 1);
    }
  }

  /** Tag colours are never 0, and those of FramesTracked consecutive frames are
   *  pairwise distinct. */
  lemma ColorsDistinctWithinLap(start: int, j: nat, k: nat)
    requires 0 <= start < FramesTracked
    requires j < k < j + FramesTracked
    ensures SlotColor(SlotAfter(start, j)) != 0
    ensures SlotColor(SlotAfter(start, j)) != SlotColor(SlotAfter(start, k))
  {
    SlotAfterSplit(start, j, k - j);
    SlotAfterWithinLap(SlotAfter(start, j), k - j);
  }

  /** After FramesTracked frames the tag colours repeat. */
  lemma ColorsRepeatAfterLap(start: int, k: nat)
    requires 0 <= start < FramesTracked
    ensures SlotColor(SlotAfter(start, k + FramesTracked)) == SlotColor(SlotAfter(start, k))
  {
    var s := SlotAfter(start, k);
    SlotAfterSplit(start, k, FramesTracked);
    SlotAfterWithinLap(s, FramesTracked - 1);
  }

  /** All-zero read-back: the baseline that starts the matching phase. */
  predicate AllZeroes(rs: FrameTimeRecordSet) {
    |rs| > 0 && forall k :: 0 <= k < |rs| ==> rs[k].Color == 0
  }

  /** The scan-out time of the first reported record with colour `color`. */
  function FindScanout(rs: FrameTimeRecordSet, color: Byte): (o: Option<real>)
    ensures o.Some? <==> exists k :: 0 <= k < |rs| && rs[k].Color == color
    ensures o.Some? ==> exists k :: 0 <= k < |rs| && rs[k].Color == color && rs[k].TimeSeconds == o.value
  {
    if rs == [] then None
    else if rs[0].Color == color then Some(rs[0].TimeSeconds)
    else
      var o := FindScanout(rs[1..], color);
      assert forall k :: 1 <= k < |rs| ==> rs[k] == rs[1..][k - 1];
      o
  }

  /** A saved tag that is not matched yet and whose colour the batch reports. */
  predicate Pending(rec: FrameTimeRecordEx, rs: FrameTimeRecordSet) {
    rec.Color != 0 && !rec.MatchedRecord && FindScanout(rs, rec.Color).Some?
  }

  function ScanoutTime(rec: FrameTimeRecordEx, rs: FrameTimeRecordSet): real
    requires Pending(rec, rs)
  {
    FindScanout(rs, rec.Color).value
  }

  /** The record after matching against `rs`. */
  function Mark(rec: FrameTimeRecordEx, rs: FrameTimeRecordSet): FrameTimeRecordEx {
    if Pending(rec, rs) then rec.(MatchedRecord := true) else rec
  }

  /** What matching one record feeds to the median filter: its scan-out time
   *  minus its end-of-frame time if it is pending, nothing otherwise. */
  function SlotDelta(rec: FrameTimeRecordEx, rs: FrameTimeRecordSet): seq<real> {
    if Pending(rec, rs) then [ScanoutTime(rec, rs) - rec.TimeSeconds] else []
  }

  /** Render latency, time-warp latency and record time after matching one
   *  record at time `now`: the record's, if it is pending, otherwise `prev`. */
  function SlotLatencies(rec: FrameTimeRecordEx, rs: FrameTimeRecordSet, now: real,
                         prev: (real, real, real)): (real, real, real)
  {
    if Pending(rec, rs)
    then (ScanoutTime(rec, rs) - rec.RenderIMUTimeSeconds, ScanoutTime(rec, rs) - rec.TimewarpIMUTimeSeconds, now)
    else prev
  }

  /** The deltas that matching `recs` against `rs` feeds to the median filter,
   *  in slot order. */
  function MatchDeltas(recs: seq<FrameTimeRecordEx>, rs: FrameTimeRecordSet): seq<real> {
    if recs == [] then [] else MatchDeltas(recs[..|recs| - 1], rs) + SlotDelta(recs[|recs| - 1], rs)
  }

  /** The latency bookkeeping after matching `recs` against `rs` in slot order. */
  function LatenciesAfter(recs: seq<FrameTimeRecordEx>, rs: FrameTimeRecordSet, now: real,
                          prev: (real, real, real)): (real, real, real)
  {
    if recs == [] then prev
    else SlotLatencies(recs[|recs| - 1], rs, now, LatenciesAfter(recs[..|recs| - 1], rs, now, prev))
  }

  /** The last slot of `recs` that matching against `rs` would match. */
  function LastPending(recs: seq<FrameTimeRecordEx>, rs: FrameTimeRecordSet): (o: Option<nat>)
    ensures o.Some? ==> o.value < |recs| && Pending(recs[o.value], rs)
    ensures o.Some? ==> forall k :: o.value < k < |recs| ==> !Pending(recs[k], rs)
    ensures o.None? ==> forall k :: 0 <= k < |recs| ==> !Pending(recs[k], rs)
  {
    if recs == [] then None
    else if Pending(recs[|recs| - 1], rs) then Some(|recs| - 1)
    else
      var o := LastPending(recs[..|recs| - 1], rs);
      assert forall k :: 0 <= k < |recs| - 1 ==> recs[k] == recs[..|recs| - 1][k];
      o
  }

  /** After matching, the latencies are those of the last record matched, with
   *  time stamp `now`; when nothing matched they are unchanged. */
  lemma {:induction false} LatenciesOfLastMatch(recs: seq<FrameTimeRecordEx>, rs: FrameTimeRecordSet, now: real,
                                                prev: (real, real, real))
    ensures LastPending(recs, rs).None? ==> LatenciesAfter(recs, rs, now, prev) == prev
    ensures LastPending(recs, rs).Some? ==>
      var rec := recs[LastPending(recs, rs).value];
      LatenciesAfter(recs, rs, now, prev) ==
        (ScanoutTime(rec, rs) - rec.RenderIMUTimeSeconds, ScanoutTime(rec, rs) - rec.TimewarpIMUTimeSeconds, now)
  {
    if recs != [] && !Pending(recs[|recs| - 1], rs) {
      var init := recs[..|recs| - 1];
      LatenciesOfLastMatch(init, rs, now, prev);
      assert LastPending(recs, rs) == LastPending(init, rs);
      if LastPending(init, rs).Some? {
        assert recs[LastPending(init, rs).value] == init[LastPending(init, rs).value];
      }
    }
  }

  /** Matching feeds a delta exactly when some record is pending. */
  lemma {:induction false} MatchDeltasEmpty(recs: seq<FrameTimeRecordEx>, rs: FrameTimeRecordSet)
    ensures MatchDeltas(recs, rs) == [] <==> forall k :: 0 <= k < |recs| ==> !Pending(recs[k], rs)
    ensures |MatchDeltas(recs, rs)| <= |recs|
  {
    if recs != [] {
      var init := recs[..|recs| - 1];
      MatchDeltasEmpty(init, rs);
      assert forall k :: 0 <= k < |init| ==> recs[k] == init[k];
    }
  }

  /** A single pending record contributes exactly its scan-out time minus its
   *  end-of-frame time, once. */
  lemma {:induction false} MatchDeltasSingle(recs: seq<FrameTimeRecordEx>, rs: FrameTimeRecordSet, i: nat)
    requires i < |recs| && Pending(recs[i], rs)
    requires forall k :: 0 <= k < |recs| && k != i ==> !Pending(recs[k], rs)
    ensures MatchDeltas(recs, rs) == [ScanoutTime(recs[i], rs) - recs[i].TimeSeconds]
  {
    var init := recs[..|recs| - 1];
    assert forall k :: 0 <= k < |init| ==> recs[k] == init[k];
    if i == |recs| - 1 {
      MatchDeltasEmpty(init, rs);
    } else {
      MatchDeltasSingle(init, rs, i);
    }
  }

  /** Matching the same batch again against the marked records matches nothing
   *  and feeds nothing. */
  lemma {:induction false} RematchFeedsNothing(recs: seq<FrameTimeRecordEx>, marked: seq<FrameTimeRecordEx>,
                                               rs: FrameTimeRecordSet)
    requires |marked| == |recs|
    requires forall k :: 0 <= k < |recs| ==> marked[k] == Mark(recs[k], rs)
    ensures MatchDeltas(marked, rs) == []
    ensures LastPending(marked, rs).None?
  {
    MatchDeltasEmpty(marked, rs);
  }

  /** A ring holding one saved tag, in slot 0, matched by a batch that reports
   *  its colour: the tag's delta is the only one fed. */
  lemma OneTagMatched(saved: seq<FrameTimeRecordEx>, endFrameTime: real, scanoutTime: real)
    requires |saved| == FramesTracked
    requires saved[0] == FrameTimeRecordEx(1, endFrameTime, false, 0.0, 0.0)
    requires forall k :: 0 < k < FramesTracked ==> saved[k] == EmptyRecord
    ensures MatchDeltas(saved, [FrameTimeRecord(1, scanoutTime)]) == [scanoutTime - endFrameTime]
  {
    var batch := [FrameTimeRecord(1, scanoutTime)];
    assert FindScanout(batch, 1) == Some(scanoutTime);
    MatchDeltasSingle(saved, batch, 0);
  }

  /** The ring after matching its first `i` slots against `rs`. */
  function MarkedUpTo(recs: seq<FrameTimeRecordEx>, i: nat, rs: FrameTimeRecordSet): (marked: seq<FrameTimeRecordEx>)
    ensures |marked| == |recs|
  {
    seq(|recs|, k requires 0 <= k < |recs| => if k < i then Mark(recs[k], rs) else recs[k])
  }

  /** Extending the matched prefix by one slot. */
  lemma MatchStep(recs: seq<FrameTimeRecordEx>, i: nat, rs: FrameTimeRecordSet, now: real,
                  prev: (real, real, real))
    requires i < |recs|
    ensures MatchDeltas(recs[..i + 1], rs) == MatchDeltas(recs[..i], rs) + SlotDelta(recs[i], rs)
    ensures LatenciesAfter(recs[..i + 1], rs, now, prev) ==
            SlotLatencies(recs[i], rs, now, LatenciesAfter(recs[..i], rs, now, prev))
    ensures MarkedUpTo(recs, i + 1, rs) == MarkedUpTo(recs, i, rs)[i := Mark(recs[i], rs)]
  {
    assert recs[..i + 1][..i] == recs[..i];
  }

  class FrameLatencyTracker {
    /** True if rendering read-back is enabled. */
    var TrackerEnabled: bool
    var WaitMode: SampleWaitType
    var MatchCount: int
    /** Records of frame timings being measured, one per tag colour. */
    const FrameEndTimes: array<FrameTimeRecordEx>
    /** The ring slot the next saved tag goes to. */
    var FrameIndex: int
    /** Median filter for scan-out time minus post-present frame time. */
    const FrameDeltas: TimeDeltaCollector
    var RenderLatencySeconds: real
    var TimewarpLatencySeconds: real
    var LatencyRecordTime: real

    ghost function Repr(): set<object> {
      {this, FrameEndTimes} + FrameDeltas.Repr()
    }

    ghost predicate Valid()
      reads Repr()
    {
      && FrameEndTimes.Length == FramesTracked
      && 0 <= FrameIndex < FramesTracked
      && 0 <= MatchCount
      && FrameDeltas.Valid()
      && forall k :: 0 <= k < FramesTracked ==> FrameEndTimes[k].Color == 0 || FrameEndTimes[k].Color == SlotColor(k)
    }

    /** The state after construction or Reset: enabled, waiting for the zero
     *  baseline, no saved tags, no statistics. */
    ghost predicate IsReset()
      reads Repr()
    {
      && TrackerEnabled
      && WaitMode == SampleWait_Zeroes
      && FrameIndex == 0
      && MatchCount == 0
      && RenderLatencySeconds == 0.0
      && TimewarpLatencySeconds == 0.0
      && LatencyRecordTime == 0.0
      && FrameDeltas.History == []
      && forall k :: 0 <= k < FrameEndTimes.Length ==> FrameEndTimes[k] == EmptyRecord
    }

    constructor ()
      ensures Valid() && IsReset()
      ensures fresh(FrameEndTimes) && fresh(FrameDeltas) && fresh(FrameDeltas.TimeBufferSeconds)
    {
      TrackerEnabled := true;
      WaitMode := SampleWait_Zeroes;
      MatchCount := 0;
      FrameEndTimes := new FrameTimeRecordEx[FramesTracked](_ => EmptyRecord);
      FrameIndex := 0;
      FrameDeltas := new TimeDeltaCollector();
      RenderLatencySeconds := 0.0;
      TimewarpLatencySeconds := 0.0;
      LatencyRecordTime := 0.0;
    }

    /** Restarts measurement: waits for the zero baseline again and discards the
     *  saved tags and every statistic, so none of them outlives the reset. */
    method Reset()
      requires Valid()
      modifies this, FrameEndTimes, FrameDeltas
      ensures Valid() && IsReset()
    {
      TrackerEnabled := true;
      WaitMode := SampleWait_Zeroes;
      FrameIndex := 0;
      MatchCount := 0;
      RenderLatencySeconds := 0.0;
      TimewarpLatencySeconds := 0.0;
      LatencyRecordTime := 0.0;
      FrameDeltas.Clear();
      var i := 0;
      while i < FrameEndTimes.Length
        invariant 0 <= i <= FrameEndTimes.Length
        invariant forall k :: 0 <= k < i ==> FrameEndTimes[k] == EmptyRecord
        modifies FrameEndTimes
      {
        FrameEndTimes[i] := EmptyRecord;
        i := i + 1;
      }
    }

    /** The colour to draw this frame: 0 unless the tracker is enabled and
     *  matching, otherwise the colour of the slot the frame will be saved to. */
    function GetNextDrawColor(): (c: Byte)
      reads Repr()
      requires Valid()
      ensures c == 0 <==> !(TrackerEnabled && WaitMode == SampleWait_Match)
      ensures c != 0 ==> 1 <= c <= FramesTracked && c - 1 == FrameIndex
    {
      if TrackerEnabled && WaitMode == SampleWait_Match then SlotColor(FrameIndex) else 0
    }

    /** Saves the frame's tag with its end-of-frame and IMU read times in the
     *  current slot and moves to the next slot. Colour 0 saves nothing. */
    method SaveDrawColor(drawColor: Byte, endFrameTime: real, renderIMUTime: real, timewarpIMUTime: real)
      requires Valid()
      requires drawColor == GetNextDrawColor()
      modifies this`FrameIndex, FrameEndTimes
      ensures Valid()
      ensures drawColor == 0 ==> FrameIndex == old(FrameIndex) && FrameEndTimes[..] == old(FrameEndTimes[..])
      ensures drawColor != 0 ==>
        && FrameIndex == NextSlot(old(FrameIndex))
        && FrameEndTimes[..] == old(FrameEndTimes[..])[old(FrameIndex) :=
             FrameTimeRecordEx(drawColor, endFrameTime, false, renderIMUTime, timewarpIMUTime)]
    {
      if drawColor != 0 {
        FrameEndTimes[FrameIndex] := FrameTimeRecordEx(drawColor, endFrameTime, false, renderIMUTime, timewarpIMUTime);
        FrameIndex := NextSlot(FrameIndex);
      }
    }

    /** Takes a batch reported by the latency tester. While waiting for zeros, an
     *  all-zero batch starts matching; while matching, the saved tags are matched
     *  against the batch (MatchSavedTags). A disabled tracker ignores the batch. */
    method MatchRecord(r: FrameTimeRecordSet, now: real)
      requires Valid()
      modifies this`WaitMode, this`MatchCount, this`RenderLatencySeconds, this`TimewarpLatencySeconds,
               this`LatencyRecordTime, FrameEndTimes, FrameDeltas, FrameDeltas.TimeBufferSeconds
      ensures Valid()
      ensures !old(TrackerEnabled) ==> unchanged(this, FrameEndTimes, FrameDeltas, FrameDeltas.TimeBufferSeconds)
      ensures old(TrackerEnabled) && old(WaitMode) == SampleWait_Zeroes ==>
        && WaitMode == (if AllZeroes(r) then SampleWait_Match else SampleWait_Zeroes)
        && MatchCount == old(MatchCount)
        && RenderLatencySeconds == old(RenderLatencySeconds)
        && TimewarpLatencySeconds == old(TimewarpLatencySeconds)
        && LatencyRecordTime == old(LatencyRecordTime)
        && unchanged(FrameEndTimes, FrameDeltas, FrameDeltas.TimeBufferSeconds)
      ensures old(TrackerEnabled) && old(WaitMode) == SampleWait_Match ==>
        && WaitMode == SampleWait_Match
        && (forall k :: 0 <= k < FramesTracked ==> FrameEndTimes[k] == Mark(old(FrameEndTimes[k]), r))
        && (forall k :: 0 <= k < FramesTracked ==> !Pending(FrameEndTimes[k], r))
        && FrameDeltas.History == old(FrameDeltas.History) + MatchDeltas(old(FrameEndTimes[..]), r)
        && MatchCount == old(MatchCount) + |MatchDeltas(old(FrameEndTimes[..]), r)|
        && (RenderLatencySeconds, TimewarpLatencySeconds, LatencyRecordTime) ==
           LatenciesAfter(old(FrameEndTimes[..]), r, now,
                          old((RenderLatencySeconds, TimewarpLatencySeconds, LatencyRecordTime)))
    {
      if !TrackerEnabled {
        return;
      }
      if WaitMode == SampleWait_Zeroes {
        if AllZeroes(r) {
          WaitMode := SampleWait_Match;
        }
        return;
      }
      MatchSavedTags(r, now);
    }

    /** The tracker's state after matching the first `i` slots of `recs` against
     *  `rs`, starting from the given history, match count and latencies. */
    ghost predicate MatchedUpTo(recs: seq<FrameTimeRecordEx>, history: seq<real>, count: int,
                                prev: (real, real, real), i: nat, rs: FrameTimeRecordSet, now: real)
      reads Repr()
      requires i <= |recs|
    {
      && FrameEndTimes[..] == MarkedUpTo(recs, i, rs)
      && FrameDeltas.History == history + MatchDeltas(recs[..i], rs)
      && MatchCount == count + |MatchDeltas(recs[..i], rs)|
      && (RenderLatencySeconds, TimewarpLatencySeconds, LatencyRecordTime) == LatenciesAfter(recs[..i], rs, now, prev)
    }

    /** Matches every pending saved tag against the batch, in slot order: its
     *  scan-out minus end-of-frame delta feeds FrameDeltas, the latencies of the
     *  last one matched are kept with time stamp `now`, and the tag is flagged
     *  so that it is never matched again. */
    method MatchSavedTags(r: FrameTimeRecordSet, now: real)
      requires Valid()
      modifies this`MatchCount, this`RenderLatencySeconds, this`TimewarpLatencySeconds,
               this`LatencyRecordTime, FrameEndTimes, FrameDeltas, FrameDeltas.TimeBufferSeconds
      ensures Valid()
      ensures forall k :: 0 <= k < FramesTracked ==> FrameEndTimes[k] == Mark(old(FrameEndTimes[k]), r)
      ensures forall k :: 0 <= k < FramesTracked ==> !Pending(FrameEndTimes[k], r)
      ensures FrameDeltas.History == old(FrameDeltas.History) + MatchDeltas(old(FrameEndTimes[..]), r)
      ensures MatchCount == old(MatchCount) + |MatchDeltas(old(FrameEndTimes[..]), r)|
      ensures (RenderLatencySeconds, TimewarpLatencySeconds, LatencyRecordTime) ==
              LatenciesAfter(old(FrameEndTimes[..]), r, now,
                             old((RenderLatencySeconds, TimewarpLatencySeconds, LatencyRecordTime)))
    {
      ghost var recs := FrameEndTimes[..];
      ghost var history := FrameDeltas.History;
      ghost var prev := (RenderLatencySeconds, TimewarpLatencySeconds, LatencyRecordTime);
      ghost var count := MatchCount;
      var i := 0;
      while i < FrameEndTimes.Length
        invariant 0 <= i <= FramesTracked
        invariant Valid()
        invariant MatchedUpTo(recs, history, count, prev, i, r, now)
        modifies this`MatchCount, this`RenderLatencySeconds, this`TimewarpLatencySeconds,
                 this`LatencyRecordTime, FrameEndTimes, FrameDeltas, FrameDeltas.TimeBufferSeconds
      {
        MatchNextSlot(recs, history, count, prev, i, r, now);
        i := i + 1;
      }
      assert recs[..FramesTracked] == recs;
      assert forall k :: 0 <= k < FramesTracked ==> FrameEndTimes[k] == FrameEndTimes[..][k];
    }

    /** One step of MatchSavedTags: matches slot `i` after the slots before it. */
    method MatchNextSlot(ghost recs: seq<FrameTimeRecordEx>, ghost history: seq<real>, ghost count: int,
                         ghost prev: (real, real, real), i: nat, r: FrameTimeRecordSet, now: real)
      requires Valid()
      requires i < |recs| == FramesTracked
      requires MatchedUpTo(recs, history, count, prev, i, r, now)
      modifies this`MatchCount, this`RenderLatencySeconds, this`TimewarpLatencySeconds,
               this`LatencyRecordTime, FrameEndTimes, FrameDeltas, FrameDeltas.TimeBufferSeconds
      ensures Valid()
      ensures MatchedUpTo(recs, history, count, prev, i + 1, r, now)
    {
      MatchStep(recs, i, r, now, prev);
      assert FrameEndTimes[i] == recs[i];
      MatchSlot(i, r, now);
    }

    /** Matches the tag saved in `slot` against the batch, if it is pending. */
    method MatchSlot(slot: int, r: FrameTimeRecordSet, now: real)
      requires Valid()
      requires 0 <= slot < FramesTracked
      modifies this`MatchCount, this`RenderLatencySeconds, this`TimewarpLatencySeconds,
               this`LatencyRecordTime, FrameEndTimes, FrameDeltas, FrameDeltas.TimeBufferSeconds
      ensures Valid()
      ensures FrameEndTimes[..] == old(FrameEndTimes[..])[slot := Mark(old(FrameEndTimes[slot]), r)]
      ensures FrameDeltas.History == old(FrameDeltas.History) + SlotDelta(old(FrameEndTimes[slot]), r)
      ensures MatchCount == old(MatchCount) + |SlotDelta(old(FrameEndTimes[slot]), r)|
      ensures (RenderLatencySeconds, TimewarpLatencySeconds, LatencyRecordTime) ==
              SlotLatencies(old(FrameEndTimes[slot]), r, now,
                            old((RenderLatencySeconds, TimewarpLatencySeconds, LatencyRecordTime)))
    {
      var rec := FrameEndTimes[slot];
      if rec.Color != 0 && !rec.MatchedRecord {
        var scanout := FindScanout(r, rec.Color);
        if scanout.Some? {
          FrameDeltas.AddTimeDelta(scanout.value - rec.TimeSeconds);
          RenderLatencySeconds := scanout.value - rec.RenderIMUTimeSeconds;
          TimewarpLatencySeconds := scanout.value - rec.TimewarpIMUTimeSeconds;
          LatencyRecordTime := now;
          FrameEndTimes[slot] := rec.(MatchedRecord := true);
          MatchCount := MatchCount + 1;
        }
      }
    }

    /** Reports render latency, time-warp latency and the median present-to-
     *  scan-out delay, in that order. */
    method GetLatencyTimings(latencies: array<Float>)
      requires Valid()
      requires latencies.Length == 3
      modifies latencies
      ensures latencies[0] == RenderLatencySeconds as Float
      ensures latencies[1] == TimewarpLatencySeconds as Float
      ensures latencies[2] == FrameDeltas.GetMedianTimeDelta() as Float
    {
      latencies[0] := RenderLatencySeconds as Float;
      latencies[1] := TimewarpLatencySeconds as Float;
      latencies[2] := FrameDeltas.GetMedianTimeDelta() as Float;
    }
  }

  /** A fresh tracker after it has seen the zero baseline: matching, with an
   *  empty ring and no statistics. */
  method NewMatchingTracker(now: real) returns (tracker: FrameLatencyTracker)
    ensures fresh(tracker.Repr()) && tracker.Valid()
    ensures tracker.TrackerEnabled && tracker.WaitMode == SampleWait_Match
    ensures tracker.FrameIndex == 0 && tracker.MatchCount == 0 && tracker.FrameDeltas.History == []
    ensures tracker.RenderLatencySeconds == 0.0 && tracker.TimewarpLatencySeconds == 0.0
    ensures tracker.LatencyRecordTime == 0.0
    ensures forall k :: 0 <= k < FramesTracked ==> tracker.FrameEndTimes[k] == EmptyRecord
  {
    tracker := new FrameLatencyTracker();
    tracker.MatchRecord([FrameTimeRecord(0, 0.0)], now);
  }

  /** A fresh tracker that sees the zero baseline, tags one frame, and then
   *  receives the batch that reports that tag twice: the tag is matched once,
   *  and the median filter holds exactly its scan-out minus end-of-frame delta. */
  method MatchOnceScenario(endFrameTime: real, scanoutTime: real, now: real)
    returns (delay: real, matches: int)
    ensures delay == scanoutTime - endFrameTime
    ensures matches == 1
  {
    var tracker := NewMatchingTracker(now);
    var color := tracker.GetNextDrawColor();
    tracker.SaveDrawColor(color, endFrameTime, 0.0, 0.0);
    var batch := [FrameTimeRecord(color, scanoutTime)];
    ghost var saved := tracker.FrameEndTimes[..];
    assert saved[0] == FrameTimeRecordEx(1, endFrameTime, false, 0.0, 0.0);
    assert forall k :: 0 < k < FramesTracked ==> saved[k] == EmptyRecord;
    ghost var history := tracker.FrameDeltas.History;
    tracker.MatchRecord(batch, now);
    OneTagMatched(saved, endFrameTime, scanoutTime);
    assert tracker.FrameDeltas.History == history + [scanoutTime - endFrameTime];
    ghost var marked := tracker.FrameEndTimes[..];
    tracker.MatchRecord(batch, now);
    RematchFeedsNothing(saved, marked, batch);
    delay := tracker.FrameDeltas.GetMedianTimeDelta();
    matches := tracker.MatchCount;
  }
}
