/** TimeDeltaCollector: a fixed-capacity buffer of time deltas (seconds) whose
 *  median smooths noisy frame-to-frame measurements.
 *
 *  The collector owns only a count and a 12-slot array, with no separate head
 *  index, and its count never exceeds the capacity. So the held samples are
 *  slots [0, Count) in arrival order, oldest first. A delta added to a full
 *  collector drops the oldest one by moving every other sample down a slot.
 */
module DeltaCollector {
  import opened OrderStatistics

  /** Number of slots in TimeBufferSeconds. */
  const Capacity: int := 12

  /** The samples a collector holds after seeing `history`: the most recent
   *  `Capacity` of them, or all of them if there are fewer. */
  function Window(history: seq<real>): seq<real> {
    if |history| <= Capacity then history else history[|history| - Capacity..]
  }

  /** Admitting one more delta: append it, and drop the oldest sample when the
   *  window was already full. */
  lemma WindowAppend(history: seq<real>, t: real)
    ensures |Window(history)| <= Capacity
    ensures Window(history + [t]) ==
      (if |Window(history)| == Capacity then Window(history)[1..] else Window(history)) + [t]
  {
  }

  /** A sample followed by at least `Capacity` newer ones no longer influences
   *  the collector's median. */
  lemma OldestSampleForgotten(history: seq<real>, oldest: real)
    requires |history| >= Capacity
    ensures Window([oldest] + history) == Window(history)
    ensures Median(Window([oldest] + history)) == Median(Window(history))
  {
  }

  class TimeDeltaCollector {
    var Count: int
    const TimeBufferSeconds: array<real>
    /** Every delta added since construction or the last Clear, oldest first. */
    ghost var History: seq<real>

    ghost function Repr(): set<object> {
      {this, TimeBufferSeconds}
    }

    ghost predicate Valid()
      reads this, TimeBufferSeconds
    {
      && TimeBufferSeconds.Length == Capacity
      && 0 <= Count <= Capacity
      && TimeBufferSeconds[..Count] == Window(History)
    }

    /** The samples currently held, oldest first. */
    function Samples(): seq<real>
      reads this, TimeBufferSeconds
      requires Valid()
    {
      TimeBufferSeconds[..Count]
    }

    constructor ()
      ensures Valid() && fresh(TimeBufferSeconds)
      ensures Count == 0 && History == [] && Samples() == []
    {
      Count := 0;
      TimeBufferSeconds := new real[Capacity];
      History := [];
    }

    /** Adds a delta; when the buffer is full, the oldest delta is dropped. */
    method AddTimeDelta(timeSeconds: real)
      requires Valid()
      modifies this, TimeBufferSeconds
      ensures Valid()
      ensures History == old(History) + [timeSeconds]
      ensures Samples() ==
        (if old(Count) == Capacity then old(Samples())[1..] else old(Samples())) + [timeSeconds]
    {
      WindowAppend(History, timeSeconds);
      if Count == Capacity {
        var i := 0;
        while i < Count - 1
          invariant 0 <= i <= Count - 1
          invariant forall k :: 0 <= k < i ==> TimeBufferSeconds[k] == old(TimeBufferSeconds[k + 1])
          invariant forall k :: i <= k < Capacity ==> TimeBufferSeconds[k] == old(TimeBufferSeconds[k])
          modifies TimeBufferSeconds
        {
          TimeBufferSeconds[i] := TimeBufferSeconds[i + 1];
          i := i + 1;
        }
        Count := Count - 1;
      }
      ghost var kept := if old(Count) == Capacity then old(Samples())[1..] else old(Samples());
      assert TimeBufferSeconds[..Count] == kept;
      TimeBufferSeconds[Count] := timeSeconds;
      Count := Count + 1;
      History := History + [timeSeconds];
      assert TimeBufferSeconds[..Count] == kept + [timeSeconds];
    }

    /** Forgets every held delta; the array and its capacity stay as they are. */
    method Clear()
      requires Valid()
      modifies this
      ensures Valid()
      ensures Count == 0 && History == [] && Samples() == []
    {
      Count := 0;
      History := [];
    }

    /** The number of held deltas, as a double. */
    function GetCount(): (n: real)
      reads this, TimeBufferSeconds
      requires Valid()
      ensures n == |Samples()| as real
      ensures 0.0 <= n <= Capacity as real
    {
      Count as real
    }

    /** The median of the held deltas (the upper middle one for an even count),
     *  or 0.0 when none is held. */
    function GetMedianTimeDelta(): (m: real)
      reads this, TimeBufferSeconds
      requires Valid()
      ensures Count == 0 ==> m == 0.0
      ensures Count > 0 ==> m in Samples() && IsUpperMedian(Samples(), m)
      ensures Count > 0 ==> CountBelow(Samples(), m) <= Count / 2 && CountAbove(Samples(), m) <= Count / 2
      ensures m == Median(Window(History))
    {
      var s := TimeBufferSeconds[..Count];
      if s == [] then 0.0 else MedianSplitsSamples(s); Median(s)
    }
  }
}
