/**
 * Request-state and benchmark bookkeeping of the DDAR (disk data at rest)
 * request core, security/ddar/dd_common.h.
 *
 * A request records, per state it enters, the wall-clock time it entered
 * it; once it is done, its per-state latencies since INIT are folded into a
 * running mean per state. The benchmark switch (`dd_debug_bit_test`) and
 * the clock (`ktime_get_real_ts64`) are kernel calls and arrive here as
 * parameters.
 */
module DdCommon {
  import opened CArith
  import opened RunningMean

  datatype Option<T> = None | Some(value: T)

  /** `enum dd_req_state_t`, in declaration order. */
  datatype ReqState = Init | Pending | Processing | Submitted | Finishing | Unallocated

  /** `DD_REQ_COUNT`: the number of states, which sizes the per-state arrays. */
  const ReqCount: nat := 6

  /** The enumerator's integer value, `DD_REQ_INIT = 0` to `DD_REQ_UNALLOCATED = 5`. */
  function Index(s: ReqState): (n: nat)
    ensures n < ReqCount
    ensures FromIndex(n) == Some(s)
  {
    match s
    case Init => 0
    case Pending => 1
    case Processing => 2
    case Submitted => 3
    case Finishing => 4
    case Unallocated => 5
  }

  /** The state an integer names, if any: exactly 0 to 5 name one. */
  function FromIndex(n: int): (r: Option<ReqState>)
    ensures r.Some? <==> 0 <= n < ReqCount
  {
    if n == 0 then Some(Init)
    else if n == 1 then Some(Pending)
    else if n == 2 then Some(Processing)
    else if n == 3 then Some(Submitted)
    else if n == 4 then Some(Finishing)
    else if n == 5 then Some(Unallocated)
    else None
  }

  /** Every value from 0 to 5 is the index of the state it names. */
  lemma FromIndexRoundTrip(n: int)
    requires 0 <= n < ReqCount
    ensures FromIndex(n).Some? && Index(FromIndex(n).value) == n
  {
  }

  /** `struct timespec64`: seconds and nanoseconds. */
  datatype Timespec = Timespec(sec: int, nsec: int)

  /** What `memset` leaves in a `timespec64`. */
  const ZeroTime: Timespec := Timespec(0, 0)

  const NsecPerSec: int := 1000000000

  /**
   * The `nsec` macro: a timestamp in nanoseconds. Two timestamps with
   * normalised nanosecond fields compare as their `nsec` values do.
   */
  function Nsec(t: Timespec): (r: int)
    ensures t == ZeroTime ==> r == 0
    ensures 0 <= t.nsec < NsecPerSec ==> t.sec * NsecPerSec <= r < (t.sec + 1) * NsecPerSec
  {
    t.sec * NsecPerSec + t.nsec
  }

  /** All slots of a freshly cleared `struct dd_benchmark`. */
  function ClearedStages(): (r: seq<Timespec>)
    ensures |r| == ReqCount
    ensures forall j :: 0 <= j < |r| ==> r[j] == ZeroTime
  {
    seq(ReqCount, _ => ZeroTime)
  }

  /**
   * The per-state timestamps after `dd_req_state(req, state)` stamped `now`:
   * with benchmarking off nothing changes; with it on, the slot of `state`
   * holds `now`, every other slot is zero if `state` is INIT and is left as
   * it was otherwise.
   */
  function Stamped(s: seq<Timespec>, state: ReqState, benchmarkOn: bool, now: Timespec): (r: seq<Timespec>)
    requires |s| == ReqCount
    ensures |r| == ReqCount
    ensures !benchmarkOn ==> r == s
    ensures benchmarkOn ==> r[Index(state)] == now
    ensures benchmarkOn && state == Init ==> forall j :: 0 < j < ReqCount ==> r[j] == ZeroTime
    ensures benchmarkOn && state != Init ==>
      forall j :: 0 <= j < ReqCount && j != Index(state) ==> r[j] == s[j]
  {
    if !benchmarkOn then s
    else
      var base := if state == Init then ClearedStages() else s;
      base[Index(state) := now]
  }

  /**
   * The elapsed nanoseconds between entering INIT and entering state `i`,
   * the sample `dd_submit_benchmark` folds into slot `i`.
   */
  function Sample(stage: seq<Timespec>, i: nat): (r: int)
    requires |stage| == ReqCount && i < ReqCount
    ensures r + Nsec(stage[Index(Init)]) == Nsec(stage[i])
  {
    Nsec(stage[i]) - Nsec(stage[0])
  }

  /**
   * The running means after one finished request with timestamps `stage`
   * has been folded in, `count` requests having been folded in before: slot
   * INIT is never written, every other slot moves toward that request's
   * sample for it, and the first request's samples become the means.
   */
  function MeansAfterSubmit(data: seq<int>, stage: seq<Timespec>, count: nat): (r: seq<int>)
    requires |data| == ReqCount && |stage| == ReqCount
    ensures |r| == ReqCount
    ensures r[Index(Init)] == data[Index(Init)]
    ensures forall i :: 0 < i < ReqCount ==>
      Min(data[i], Sample(stage, i)) <= r[i] <= Max(data[i], Sample(stage, i))
    ensures count == 0 ==> forall i :: 0 < i < ReqCount ==> r[i] == Sample(stage, i)
    ensures forall i :: 0 < i < ReqCount && Sample(stage, i) == data[i] ==> r[i] == data[i]
  {
    seq(ReqCount, i requires 0 <= i < ReqCount =>
      if i == 0 then data[0] else MeanStep(data[i], Sample(stage, i), count))
  }

  /** `struct dd_req`, reduced to the state and the embedded `bm.stage` array. */
  class DdReq {
    var state: ReqState
    const stage: array<Timespec>

    ghost predicate Valid()
      reads this
    {
      stage.Length == ReqCount
    }

    constructor (state0: ReqState)
      ensures Valid() && fresh(stage)
      ensures state == state0 && stage[..] == ClearedStages()
    {
      state := state0;
      stage := new Timespec[ReqCount](_ => ZeroTime);
    }

    /**
     * `dd_req_state`: record that the request entered `state`. The switch
     * `benchmarkOn` stands for `dd_debug_bit_test(DD_DEBUG_BENCHMARK)` and
     * `now` for the clock reading `ktime_get_real_ts64` would store.
     */
    method SetState(state: ReqState, benchmarkOn: bool, now: Timespec)
      requires Valid()
      modifies this, stage
      ensures Valid()
      ensures this.state == state
      ensures stage[..] == Stamped(old(stage[..]), state, benchmarkOn, now)
    {
      if benchmarkOn {
        if state == Init {
          forall j | 0 <= j < stage.Length {
            stage[j] := ZeroTime;
          }
        }
        stage[Index(state)] := now;
      }
      this.state := state;
    }
  }

  /** `struct dd_benchmark_result` without its lock and rate-limit state. */
  class BenchmarkResult {
    var count: nat
    const data: array<int>

    ghost predicate Valid()
      reads this
    {
      data.Length == ReqCount
    }

    constructor ()
      ensures Valid() && fresh(data)
      ensures count == 0 && data[..] == seq(ReqCount, _ => 0)
    {
      count := 0;
      data := new int[ReqCount](_ => 0);
    }
  }

  /**
   * `dd_submit_benchmark(bm, context)`, with `context` reduced to its
   * `bm_result`. With benchmarking on, every slot but INIT takes one running
   * mean step toward the request's sample and the count goes up by one;
   * with it off, nothing changes. The divisor `count + 1` is computed as a
   * C `long`, so `count` must stay below `LONG_MAX`.
   */
  method SubmitBenchmark(stage: array<Timespec>, bmResult: BenchmarkResult, benchmarkOn: bool)
    requires stage.Length == ReqCount && bmResult.Valid()
    requires bmResult.count < LongMax
    modifies bmResult, bmResult.data
    ensures bmResult.Valid()
    ensures bmResult.count == if benchmarkOn then old(bmResult.count) + 1 else old(bmResult.count)
    ensures bmResult.data[..] ==
      if benchmarkOn then MeansAfterSubmit(old(bmResult.data[..]), stage[..], old(bmResult.count))
      else old(bmResult.data[..])
  {
    if benchmarkOn {
      var i := 1;
      while i < ReqCount
        invariant 1 <= i <= ReqCount
        invariant bmResult.count == old(bmResult.count)
        invariant forall j :: 1 <= j < i ==>
          bmResult.data[j] == MeanStep(old(bmResult.data[j]), Sample(stage[..], j), bmResult.count)
        invariant forall j :: 0 <= j < ReqCount && (j == 0 || i <= j) ==>
          bmResult.data[j] == old(bmResult.data[j])
      {
        var avg := bmResult.data[i];
        var val := Nsec(stage[i]) - Nsec(stage[Index(Init)]);
        var div := bmResult.count + 1;
        bmResult.data[i] := avg + TruncDiv(val - avg, div);
        i := i + 1;
      }
      bmResult.count := bmResult.count + 1;
    }
  }
}
