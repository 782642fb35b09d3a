/**
 * The integer running mean that `dd_submit_benchmark` keeps for each request
 * state: one new sample `val` is folded into the mean `avg` of `count`
 * earlier samples as `avg + (val - avg) / (count + 1)`, with C's truncating
 * division.
 */
module RunningMean {
  import opened CArith

  function Min(x: int, y: int): int { if x <= y then x else y }
  function Max(x: int, y: int): int { if x <= y then y else x }

  /**
   * One step of the running mean. The new mean lies between the old mean
   * and the sample, a sample equal to the mean leaves it alone, and the
   * first sample (count 0) becomes the mean outright.
   */
  function MeanStep(avg: int, val: int, count: nat): (r: int)
    ensures Min(avg, val) <= r <= Max(avg, val)
    ensures val == avg ==> r == avg
    ensures count == 0 ==> r == val
  {
    avg + TruncDiv(val - avg, count + 1)
  }

  /** The mean after folding `samples` in order, `count` samples having been seen before. */
  function MeanAfter(avg: int, samples: seq<int>, count: nat): int
    decreases |samples|
  {
    if samples == [] then avg
    else MeanAfter(MeanStep(avg, samples[0], count), samples[1..], count + 1)
  }

  /** Samples that all equal the current mean never move it. */
  lemma {:induction false} SteadySamplesKeepMean(avg: int, samples: seq<int>, count: nat)
    requires forall k :: 0 <= k < |samples| ==> samples[k] == avg
    ensures MeanAfter(avg, samples, count) == avg
    decreases |samples|
  {
    if samples != [] {
      SteadySamplesKeepMean(MeanStep(avg, samples[0], count), samples[1..], count + 1);
    }
  }

  /**
   * N identical samples, starting from no samples at all, give a mean equal
   * to that sample, whatever the slot held before.
   */
  lemma {:induction false} IdenticalSamplesMean(avg: int, samples: seq<int>, v: int)
    requires |samples| > 0
    requires forall k :: 0 <= k < |samples| ==> samples[k] == v
    ensures MeanAfter(avg, samples, 0) == v
  {
    SteadySamplesKeepMean(v, samples[1..], 1);
  }

  /** A mean inside [lo, hi] stays there while every sample is inside [lo, hi]. */
  lemma {:induction false} MeanStaysInRange(avg: int, samples: seq<int>, count: nat, lo: int, hi: int)
    requires lo <= avg <= hi
    requires forall k :: 0 <= k < |samples| ==> lo <= samples[k] <= hi
    ensures lo <= MeanAfter(avg, samples, count) <= hi
    decreases |samples|
  {
    if samples != [] {
      MeanStaysInRange(MeanStep(avg, samples[0], count), samples[1..], count + 1, lo, hi);
    }
  }

  /**
   * Starting from no samples, the mean of any non-empty run of samples lies
   * between the smallest and the largest sample; in particular it fits a
   * C `long` whenever every sample does.
   */
  lemma {:induction false} MeanWithinSamples(avg: int, samples: seq<int>, lo: int, hi: int)
    requires |samples| > 0
    requires forall k :: 0 <= k < |samples| ==> lo <= samples[k] <= hi
    ensures lo <= MeanAfter(avg, samples, 0) <= hi
    ensures InLong(lo) && InLong(hi) ==> InLong(MeanAfter(avg, samples, 0))
  {
    MeanStaysInRange(samples[0], samples[1..], 1, lo, hi);
  }
}
