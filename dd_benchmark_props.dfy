/**
 * What the benchmark bookkeeping of security/ddar/dd_common.h gives over a
 * whole request lifetime and over many requests: the timestamps a run of
 * `dd_req_state` calls leaves behind, and the means a run of
 * `dd_submit_benchmark` calls leaves behind.
 */
module DdBenchmarkProps {
  import opened RunningMean
  import opened DdCommon

  /** One `dd_req_state(req, state)` call and the clock reading it stamps. */
  datatype Stamp = Stamp(state: ReqState, time: Timespec)

  /** The per-state timestamps after the calls `events`, in order. */
  function StampAll(s: seq<Timespec>, events: seq<Stamp>, benchmarkOn: bool): (r: seq<Timespec>)
    requires |s| == ReqCount
    ensures |r| == ReqCount
    decreases |events|
  {
    if events == [] then s
    else
      var last := events[|events| - 1];
      Stamped(StampAll(s, events[..|events| - 1], benchmarkOn), last.state, benchmarkOn, last.time)
  }

  /** The clock reading of the last call among `events` that entered the state with index `j`. */
  function LastTime(events: seq<Stamp>, j: nat): Option<Timespec>
    decreases |events|
  {
    if events == [] then None
    else if Index(events[|events| - 1].state) == j then Some(events[|events| - 1].time)
    else LastTime(events[..|events| - 1], j)
  }

  /** With benchmarking off, no run of state changes touches the timestamps. */
  lemma {:induction false} StampAllDisabled(s: seq<Timespec>, events: seq<Stamp>)
    requires |s| == ReqCount
    ensures StampAll(s, events, false) == s
    decreases |events|
  {
    if events != [] {
      StampAllDisabled(s, events[..|events| - 1]);
    }
  }

  /**
   * After a request is (re)initialised and then moved through any states
   * other than INIT, each slot holds the time the state was last entered,
   * and zero for a state it never entered; what the slots held before the
   * INIT call is gone.
   */
  lemma {:induction false} StampAllAfterInit(s: seq<Timespec>, events: seq<Stamp>, j: nat)
    requires |s| == ReqCount && j < ReqCount
    requires |events| > 0 && events[0].state == Init
    requires forall k :: 0 < k < |events| ==> events[k].state != Init
    ensures StampAll(s, events, true)[j] ==
      match LastTime(events, j)
      case Some(t) => t
      case None => ZeroTime
    decreases |events|
  {
    var prefix := events[..|events| - 1];
    var last := events[|events| - 1];
    if |events| == 1 {
      assert prefix == [];
      assert StampAll(s, events, true) == Stamped(s, Init, true, last.time);
    } else {
      assert prefix[0] == events[0];
      StampAllAfterInit(s, prefix, j);
    }
  }

  /** The six states in the order `enum dd_req_state_t` declares them. */
  const AllStates: seq<ReqState> := [Init, Pending, Processing, Submitted, Finishing, Unallocated]

  /** A run through the states in declaration order, entering state `k` at `times[k]`. */
  function InOrderRun(times: seq<Timespec>): (events: seq<Stamp>)
    requires |times| <= ReqCount
    ensures |events| == |times|
    ensures forall k :: 0 <= k < |events| ==> Index(events[k].state) == k && events[k].time == times[k]
  {
    seq(|times|, k requires 0 <= k < |times| => Stamp(AllStates[k], times[k]))
  }

  /** In a run whose k-th call enters the state with index k, state j was last entered by call j. */
  lemma {:induction false} LastTimeInOrder(events: seq<Stamp>, j: nat)
    requires forall k :: 0 <= k < |events| ==> Index(events[k].state) == k
    ensures j < |events| ==> LastTime(events, j) == Some(events[j].time)
    ensures j >= |events| ==> LastTime(events, j) == None
    decreases |events|
  {
    if events != [] {
      LastTimeInOrder(events[..|events| - 1], j);
    }
  }

  /**
   * A request that goes through every state once, in order, with
   * benchmarking on, ends with exactly the six clock readings in its
   * timestamp slots, whatever they held before.
   */
  lemma InOrderLifecycle(s: seq<Timespec>, times: seq<Timespec>)
    requires |s| == ReqCount && |times| == ReqCount
    ensures StampAll(s, InOrderRun(times), true) == times
  {
    var events := InOrderRun(times);
    forall j | 0 <= j < ReqCount
      ensures StampAll(s, events, true)[j] == times[j]
    {
      StampAllAfterInit(s, events, j);
      LastTimeInOrder(events, j);
    }
  }

  /**
   * For such a request, with a clock that never goes back, every sample
   * `dd_submit_benchmark` takes is the non-negative time from INIT to the
   * state.
   */
  lemma InOrderSamples(s: seq<Timespec>, times: seq<Timespec>, i: nat)
    requires |s| == ReqCount && |times| == ReqCount && i < ReqCount
    requires forall k :: 0 < k < ReqCount ==> Nsec(times[k - 1]) <= Nsec(times[k])
    ensures Sample(StampAll(s, InOrderRun(times), true), i) == Nsec(times[i]) - Nsec(times[0])
    ensures Sample(StampAll(s, InOrderRun(times), true), i) >= 0
  {
    InOrderLifecycle(s, times);
    ClockMonotone(times, i);
  }

  lemma {:induction false} ClockMonotone(times: seq<Timespec>, i: nat)
    requires i < |times|
    requires forall k :: 0 < k < |times| ==> Nsec(times[k - 1]) <= Nsec(times[k])
    ensures Nsec(times[0]) <= Nsec(times[i])
  {
    if i > 0 {
      ClockMonotone(times, i - 1);
    }
  }

  /**
   * A state the request never entered after INIT keeps a zero timestamp,
   * so its sample is minus the INIT time in nanoseconds, not an elapsed time.
   */
  lemma {:induction false} SkippedStateSample(s: seq<Timespec>, events: seq<Stamp>, j: nat)
    requires |s| == ReqCount && 0 < j < ReqCount
    requires |events| > 0 && events[0].state == Init
    requires forall k :: 0 < k < |events| ==> events[k].state != Init
    requires forall k :: 0 <= k < |events| ==> Index(events[k].state) != j
    ensures Sample(StampAll(s, events, true), j) == -Nsec(StampAll(s, events, true)[Index(Init)])
  {
    StampAllAfterInit(s, events, j);
    NeverEnteredHasNoTime(events, j);
  }

  lemma {:induction false} NeverEnteredHasNoTime(events: seq<Stamp>, j: nat)
    requires forall k :: 0 <= k < |events| ==> Index(events[k].state) != j
    ensures LastTime(events, j) == None
    decreases |events|
  {
    if events != [] {
      NeverEnteredHasNoTime(events[..|events| - 1], j);
    }
  }

  /** The means after the finished requests with timestamps `stages` are submitted in order. */
  function SubmitAll(data: seq<int>, stages: seq<seq<Timespec>>, count: nat): (r: seq<int>)
    requires |data| == ReqCount
    requires forall k :: 0 <= k < |stages| ==> |stages[k]| == ReqCount
    ensures |r| == ReqCount
    ensures r[Index(Init)] == data[Index(Init)]
    decreases |stages|
  {
    if stages == [] then data
    else SubmitAll(MeansAfterSubmit(data, stages[0], count), stages[1..], count + 1)
  }

  /** The samples slot `i` receives from those requests. */
  function SlotSamples(stages: seq<seq<Timespec>>, i: nat): (r: seq<int>)
    requires i < ReqCount
    requires forall k :: 0 <= k < |stages| ==> |stages[k]| == ReqCount
    ensures |r| == |stages|
    ensures forall k :: 0 <= k < |stages| ==> r[k] == Sample(stages[k], i)
  {
    seq(|stages|, k requires 0 <= k < |stages| => Sample(stages[k], i))
  }

  /** Each non-INIT slot evolves as its own running mean over its own samples. */
  lemma {:induction false} SubmitAllSlot(data: seq<int>, stages: seq<seq<Timespec>>, count: nat, i: nat)
    requires |data| == ReqCount && 0 < i < ReqCount
    requires forall k :: 0 <= k < |stages| ==> |stages[k]| == ReqCount
    ensures SubmitAll(data, stages, count)[i] == MeanAfter(data[i], SlotSamples(stages, i), count)
    decreases |stages|
  {
    if stages != [] {
      var next := MeansAfterSubmit(data, stages[0], count);
      SubmitAllSlot(next, stages[1..], count + 1, i);
      assert SlotSamples(stages[1..], i) == SlotSamples(stages, i)[1..];
    }
  }

  /**
   * Starting from an empty result (count 0), N requests that all took the
   * same time L to reach state `i` leave the mean for `i` at exactly L.
   */
  lemma IdenticalRequestsMean(data: seq<int>, stages: seq<seq<Timespec>>, i: nat, latency: int)
    requires |data| == ReqCount && 0 < i < ReqCount
    requires |stages| > 0
    requires forall k :: 0 <= k < |stages| ==> |stages[k]| == ReqCount
    requires forall k :: 0 <= k < |stages| ==> Sample(stages[k], i) == latency
    ensures SubmitAll(data, stages, 0)[i] == latency
  {
    SubmitAllSlot(data, stages, 0, i);
    IdenticalSamplesMean(data[i], SlotSamples(stages, i), latency);
  }

  /**
   * Starting from an empty result, the mean for state `i` stays between the
   * smallest and largest latency any submitted request had for `i`.
   */
  lemma SubmittedMeanWithinLatencies(data: seq<int>, stages: seq<seq<Timespec>>, i: nat, lo: int, hi: int)
    requires |data| == ReqCount && 0 < i < ReqCount
    requires |stages| > 0
    requires forall k :: 0 <= k < |stages| ==> |stages[k]| == ReqCount
    requires forall k :: 0 <= k < |stages| ==> lo <= Sample(stages[k], i) <= hi
    ensures lo <= SubmitAll(data, stages, 0)[i] <= hi
  {
    SubmitAllSlot(data, stages, 0, i);
    MeanWithinSamples(data[i], SlotSamples(stages, i), lo, hi);
  }
}
