# DDAR request-state and benchmark bookkeeping, in Dafny

This project models the executable part of `security/ddar/dd_common.h` from
the Samsung DDAR (disk data at rest) encryption layer of the sm8750 kernel:

- the request states of `enum dd_req_state_t`, INIT (0) through
  UNALLOCATED (5), with `DD_REQ_COUNT` (6) sizing the per-state arrays;
- the `nsec` macro, which turns a `timespec64` into nanoseconds;
- `dd_req_state`, which records the state a request enters and, when
  benchmarking is on, clears the request's per-state timestamps on INIT and
  stamps the slot of the new state with the current time;
- `dd_submit_benchmark`, which, when benchmarking is on, folds a finished
  request's per-state latencies (time since INIT) into a running mean per
  state, `avg + (val - avg) / (count + 1)` with C's truncating division, and
  then counts the request.

A request (`struct dd_req`) is the class `DdCommon.DdReq`, holding its state
and its `bm.stage` timestamp array; the aggregate (`struct
dd_benchmark_result`) is the class `DdCommon.BenchmarkResult`, holding
`count` and the `data` array. The two kernel calls the functions make are
parameters: `benchmarkOn` for `dd_debug_bit_test(DD_DEBUG_BENCHMARK)` and
`now` for the reading of `ktime_get_real_ts64`. Each method is proved
against a specification function (`Stamped`, `MeansAfterSubmit`), and the
lemmas in `DdBenchmarkProps` follow those functions over a whole request
lifetime and over many requests: a request run through the six states in
order ends with exactly the six clock readings; N requests with the same
latency L to a state leave that state's mean at exactly L; the mean stays
between the smallest and largest latency submitted.

The model also makes visible that a state a request never entered after
INIT keeps a zero timestamp, so its sample is minus the INIT time rather
than an elapsed time (`SkippedStateSample`). Whether any caller submits such
a request is decided by code that is not part of this model.

The subsystem's design describes one operation that stamps a state and, on
the terminal state, folds the latencies in. The header instead has two
separate functions, `dd_req_state` and `dd_submit_benchmark`, and the code
that decides when the second is called is not part of this model. The model
follows the header: two independent operations, with no rule tying a
submission to the UNALLOCATED state.

Files: `c_arith.dfy` (module `CArith`: C `long` range and truncating
division), `running_mean.dfy` (module `RunningMean`), `dd_common.dfy`
(module `DdCommon`: the header itself), `dd_benchmark_props.dfy` (module
`DdBenchmarkProps`: properties over runs of calls).

## Model

| member | source | states |
|---|---|---|
| `CArith.TruncDiv` | security/ddar/dd_common.h:169 | C's `/` on `long` for a positive divisor: the quotient truncates toward zero (remainder has the sign of the dividend and is smaller than the divisor), and never exceeds the dividend in size |
| `RunningMean.MeanStep` | security/ddar/dd_common.h:165-169 | one running-mean step lands between the old mean and the sample; a sample equal to the mean leaves it unchanged; with count 0 the mean becomes the sample |
| `RunningMean.SteadySamplesKeepMean` | security/ddar/dd_common.h:164-171 | any number of samples equal to the current mean leave it unchanged, whatever the count |
| `RunningMean.IdenticalSamplesMean` | security/ddar/dd_common.h:164-171 | from count 0, N >= 1 identical samples v give mean v, whatever the slot held before |
| `RunningMean.MeanStaysInRange` | security/ddar/dd_common.h:164-171 | a mean inside [lo, hi] stays inside while all samples are inside [lo, hi] |
| `RunningMean.MeanWithinSamples` | security/ddar/dd_common.h:164-171 | from count 0, the mean of a non-empty run of samples lies between their bounds, hence fits a `long` when the samples do |
| `DdCommon.Index` | security/ddar/dd_common.h:16-24 | each state has its enumerator value, below `DD_REQ_COUNT`, and that value names it back |
| `DdCommon.FromIndex` | security/ddar/dd_common.h:16-24 | exactly the integers 0 to 5 name a state |
| `DdCommon.FromIndexRoundTrip` | security/ddar/dd_common.h:16-24 | the state named by 0 to 5 has that value as its index |
| `DdCommon.Nsec` | security/ddar/dd_common.h:143 | the `nsec` macro: zero for a cleared timestamp, and within the second `tv_sec` when `tv_nsec` is normalised |
| `DdCommon.ClearedStages` | security/ddar/dd_common.h:150 | the `memset` of `struct dd_benchmark`: every one of the six slots is zero |
| `DdCommon.Stamped` | security/ddar/dd_common.h:145-156 | timestamps after `dd_req_state`: benchmarking off leaves them unchanged; on, the new state's slot holds `now`, all other slots are zero after INIT and unchanged otherwise |
| `DdCommon.DdReq.SetState` | security/ddar/dd_common.h:145-156 | `dd_req_state`: `state` is always the new state, and the stage array becomes `Stamped` of its old contents |
| `DdCommon.Sample` | security/ddar/dd_common.h:166 | a sample is the time from the INIT stamp to the state's stamp in nanoseconds |
| `DdCommon.MeansAfterSubmit` | security/ddar/dd_common.h:164-170 | slot INIT is never written; every other slot lies between its old mean and the request's sample, equals the sample when count is 0, and is unchanged when the sample equals the mean |
| `DdCommon.SubmitBenchmark` | security/ddar/dd_common.h:158-174 | `dd_submit_benchmark`: benchmarking on raises `count` by exactly one and sets `data` to `MeansAfterSubmit`; off, `count` and `data` are unchanged |
| `DdBenchmarkProps.StampAll` | security/ddar/dd_common.h:145-156 | a run of `dd_req_state` calls keeps six timestamp slots |
| `DdBenchmarkProps.StampAllDisabled` | security/ddar/dd_common.h:147-155 | with benchmarking off, no run of state changes touches the timestamps |
| `DdBenchmarkProps.StampAllAfterInit` | security/ddar/dd_common.h:149-152 | after INIT and any later non-INIT states, each slot holds the time its state was last entered, or zero if it was never entered |
| `DdBenchmarkProps.InOrderRun` | security/ddar/dd_common.h:16-24 | the k-th call of an in-order run enters the state with index k |
| `DdBenchmarkProps.LastTimeInOrder` | security/ddar/dd_common.h:16-24 | in an in-order run, state j was last entered by call j, and later states not at all |
| `DdBenchmarkProps.InOrderLifecycle` | security/ddar/dd_common.h:145-156 | a request taken once through all six states in order ends holding exactly the six clock readings |
| `DdBenchmarkProps.InOrderSamples` | security/ddar/dd_common.h:143-166 | for such a request and a clock that never goes back, every sample is the non-negative time from INIT to the state |
| `DdBenchmarkProps.SkippedStateSample` | security/ddar/dd_common.h:149-166 | a state never entered since INIT yields a sample of minus the INIT time |
| `DdBenchmarkProps.SubmitAll` | security/ddar/dd_common.h:158-174 | repeated submissions keep six slots and never change slot INIT |
| `DdBenchmarkProps.SlotSamples` | security/ddar/dd_common.h:166 | the samples one slot receives from a run of submitted requests |
| `DdBenchmarkProps.SubmitAllSlot` | security/ddar/dd_common.h:164-171 | under repeated submissions each non-INIT slot is its own running mean over its own samples |
| `DdBenchmarkProps.IdenticalRequestsMean` | security/ddar/dd_common.h:158-174 | from count 0, N requests with the same latency L to a state leave that state's mean at exactly L |
| `DdBenchmarkProps.SubmittedMeanWithinLatencies` | security/ddar/dd_common.h:158-174 | from count 0, a state's mean stays between the smallest and largest latency submitted for it |

## Left out

- The locks (`bm_result.lock`, `dd_context.lock`, `ctr_lock`, `dd_proc.lock`) and the atomic `reqcount`: they serve concurrency; the bodies are modelled as sequential code.
- `dd_dump_benchmark` (lines 176-190): logging gated by the kernel's time-based rate limiter; the rate-limit state of `struct dd_benchmark_result` is left out with it.
- `dd_debug_bit_test` and `ktime_get_real_ts64`: kernel calls, passed in as the parameters `benchmarkOn` and `now`.
- The key and crypto declarations (`dd_add_master_key`, `dd_evict_master_key`, `dd_dump_key`, `get_dd_master_key`, `dd_sec_crypt_bio_pages`, `dd_sec_crypt_page`, `dd_hex_key_dump`) and the file-system hooks (`fscrypt_ddar_get_storage_type`, `fscrypt_dd_trace_inode`, the `FSCRYPT_STORAGE_TYPE_*` and `FSCRYPT_DDAR_NAME_FUNC_*` constants): declarations only, their bodies are not part of this model.
- `struct dd_context`, `struct dd_proc` and the remaining fields of `struct dd_req` (queues, reference count, abort flags, wait queues, pages, bios, mapped areas, work items): the header declares them but contains no code that operates on them, so no transition, queueing or reference-counting rule is modelled. `SubmitBenchmark` takes the `bm_result` of the context directly, the only part of the context `dd_submit_benchmark` uses.
- security/samsung/defex_lsm/include/defex_sign.h: a size constant, external key symbols and the prototype of an external signature check; no logic.
- SubmitBenchmark: C `long` overflow is not modelled. `nsec`, the sample `val - avg` and the new mean are unbounded integers; the source would overflow only for clock readings past the year 2262 or samples and means of opposite sign near the `long` limits. `MeanWithinSamples` shows that the means themselves stay in `long` range whenever the samples do.
- SubmitBenchmark: requires `count < LONG_MAX`, because `count + 1` is stored in a `long` divisor that would wrap to a non-positive value beyond it; the wrap of the `unsigned long` counter itself is therefore not reached.
- TruncDiv: only positive divisors are modelled; the divisor `count + 1` is positive under the precondition above.
- DdReq.SetState: the state parameter is a `ReqState`, so the out-of-range values a C enum argument could carry (such as `DD_REQ_COUNT`, which would stamp past the end of `stage`) are not modelled.
- The constructors of `DdReq` and `BenchmarkResult` only set up zeroed objects for the model; the allocation and initialisation code of the source is not part of this model.
