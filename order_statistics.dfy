/** Order statistics over a finite list of time samples (seconds): the median
 *  reported by the frame-time collector and the counting facts that pin it down.
 *
 *  The median of n samples is the element at index n / 2 of an ascending copy.
 *  For an even n that is the UPPER of the two middle samples; the median of no
 *  samples is 0.0.
 */
module OrderStatistics {

  /** Number of samples strictly below `v`. */
  function CountBelow(s: seq<real>, v: real): (n: nat)
    ensures n <= |s|
  {
    if s == [] then 0 else (if s[0] < v then 1 else 0) + CountBelow(s[1..], v)
  }

  /** Number of samples at most `v`. */
  function CountAtMost(s: seq<real>, v: real): (n: nat)
    ensures n <= |s|
  {
    if s == [] then 0 else (if s[0] <= v then 1 else 0) + CountAtMost(s[1..], v)
  }

  /** Number of samples strictly above `v`. */
  function CountAbove(s: seq<real>, v: real): (n: nat)
    ensures n <= |s|
  {
    if s == [] then 0 else (if s[0] > v then 1 else 0) + CountAbove(s[1..], v)
  }

  predicate Ascending(t: seq<real>) {
    forall i, j :: 0 <= i < j < |t| ==> t[i] <= t[j]
  }

  /** `v` splits `s` at its upper middle: at most half of the samples lie below
   *  it, and more than half lie at or below it. */
  predicate IsUpperMedian(s: seq<real>, v: real) {
    CountBelow(s, v) <= |s| / 2 < CountAtMost(s, v)
  }

  /** Inserts `x` into an ascending list before the first element not below it. */
  function Insert(x: real, t: seq<real>): (r: seq<real>)
    ensures |r| == |t| + 1
  {
    if t == [] || x <= t[0] then [x] + t else [t[0]] + Insert(x, t[1..])
  }

  /** An ascending copy of the samples (insertion sort). */
  function SortAscending(s: seq<real>): (t: seq<real>)
    ensures |t| == |s|
  {
    if s == [] then [] else Insert(s[0], SortAscending(s[1..]))
  }

  /** The median of the samples: the middle element of an ascending copy,
   *  the upper middle one for an even count, 0.0 for no samples. */
  function Median(s: seq<real>): real {
    if s == [] then 0.0 else SortAscending(s)[|s| / 2]
  }

  // ---------------------------------------------------------------------------
  // Counting

  lemma {:induction false} CountPartition(s: seq<real>, v: real)
    ensures CountAtMost(s, v) + CountAbove(s, v) == |s|
  {
    if s != [] {
      CountPartition(s[1..], v);
    }
  }

  /** A value with more samples at most it than below it is one of the samples. */
  lemma {:induction false} CountGapIsMember(s: seq<real>, v: real)
    requires CountBelow(s, v) < CountAtMost(s, v)
    ensures v in s
  {
    if s[0] != v {
      CountGapIsMember(s[1..], v);
    }
  }

  /** Every sample at most `a` is strictly below any `b` above `a`. */
  lemma {:induction false} CountMonotone(s: seq<real>, a: real, b: real)
    requires a < b
    ensures CountAtMost(s, a) <= CountBelow(s, b)
  {
    if s != [] {
      CountMonotone(s[1..], a, b);
    }
  }

  lemma {:induction false} CountBelowNone(s: seq<real>, v: real)
    requires forall k :: 0 <= k < |s| ==> v <= s[k]
    ensures CountBelow(s, v) == 0
  {
    if s != [] {
      CountBelowNone(s[1..], v);
    }
  }

  // ---------------------------------------------------------------------------
  // Sorting

  lemma {:induction false} InsertBounded(x: real, t: seq<real>, b: real)
    requires b <= x
    requires forall k :: 0 <= k < |t| ==> b <= t[k]
    ensures forall k :: 0 <= k < |Insert(x, t)| ==> b <= Insert(x, t)[k]
  {
    if t != [] && t[0] < x {
      InsertBounded(x, t[1..], b);
    }
  }

  lemma {:induction false} InsertAscending(x: real, t: seq<real>)
    requires Ascending(t)
    ensures Ascending(Insert(x, t))
  {
    if t != [] && t[0] < x {
      InsertAscending(x, t[1..]);
      InsertBounded(x, t[1..], t[0]);
    }
  }

  /** Insertion keeps the counts of the list with `x` in front. */
  lemma {:induction false} InsertCounts(x: real, t: seq<real>, v: real)
    ensures CountBelow(Insert(x, t), v) == CountBelow([x] + t, v)
    ensures CountAtMost(Insert(x, t), v) == CountAtMost([x] + t, v)
  {
    assert ([x] + t)[1..] == t;
    if t != [] && t[0] < x {
      InsertCounts(x, t[1..], v);
      var r := Insert(x, t[1..]);
      assert ([t[0]] + r)[1..] == r;
      assert ([x] + t[1..])[1..] == t[1..];
    }
  }

  lemma {:induction false} SortAscendingIsSorted(s: seq<real>)
    ensures Ascending(SortAscending(s))
  {
    if s != [] {
      SortAscendingIsSorted(s[1..]);
      InsertAscending(s[0], SortAscending(s[1..]));
    }
  }

  /** Sorting does not change how many samples lie below or at most a value. */
  lemma {:induction false} SortAscendingCounts(s: seq<real>, v: real)
    ensures CountBelow(SortAscending(s), v) == CountBelow(s, v)
    ensures CountAtMost(SortAscending(s), v) == CountAtMost(s, v)
  {
    if s != [] {
      var t := SortAscending(s[1..]);
      SortAscendingCounts(s[1..], v);
      InsertCounts(s[0], t, v);
      assert ([s[0]] + t)[1..] == t;
    }
  }

  /** In an ascending list, at most k elements are below the k-th, and at least
   *  k + 1 are at most it. */
  lemma {:induction false} AscendingRankCounts(t: seq<real>, k: nat)
    requires Ascending(t)
    requires k < |t|
    ensures CountBelow(t, t[k]) <= k
    ensures CountAtMost(t, t[k]) >= k + 1
  {
    if k == 0 {
      CountBelowNone(t[1..], t[0]);
    } else {
      AscendingRankCounts(t[1..], k - 1);
      assert t[1..][k - 1] == t[k];
    }
  }

  // ---------------------------------------------------------------------------
  // The median

  /** The median of held samples is one of them, splits them at the upper
   *  middle, and leaves at most half of them strictly above it. */
  lemma MedianSplitsSamples(s: seq<real>)
    requires s != []
    ensures Median(s) in s
    ensures IsUpperMedian(s, Median(s))
    ensures CountBelow(s, Median(s)) <= |s| / 2
    ensures CountAbove(s, Median(s)) <= |s| / 2
  {
    var t := SortAscending(s);
    var m := t[|s| / 2];
    SortAscendingIsSorted(s);
    AscendingRankCounts(t, |s| / 2);
    SortAscendingCounts(s, m);
    CountGapIsMember(s, m);
    CountPartition(s, m);
  }

  /** The upper-median split is attained by exactly one value: the median. */
  lemma MedianCharacterised(s: seq<real>, v: real)
    requires s != []
    ensures IsUpperMedian(s, v) <==> v == Median(s)
  {
    var m := Median(s);
    MedianSplitsSamples(s);
    if IsUpperMedian(s, v) && v != m {
      if v < m {
        CountMonotone(s, v, m);
      } else {
        CountMonotone(s, m, v);
      }
    }
  }

  /** Two lists that agree on every count have the same median; in particular
   *  the median does not depend on the order in which samples are held. */
  lemma MedianDependsOnCountsOnly(s: seq<real>, u: seq<real>)
    requires |s| == |u|
    requires forall v :: CountBelow(s, v) == CountBelow(u, v) && CountAtMost(s, v) == CountAtMost(u, v)
    ensures Median(s) == Median(u)
  {
    if s != [] {
      MedianSplitsSamples(s);
      MedianCharacterised(u, Median(s));
    }
  }
}
