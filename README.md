# predsched core in Dafny

This is a model of the scheduling core of `predsched`. `predsched` simulates single-machine
schedulers that are given predictions of job lengths, and it measures their total flow time.
The model covers three parts:

- **Instances** (`instance.dfy`). An instance is the vector of true job lengths. The model has
  its two accessors and the offline optimum. The optimum sorts the lengths ascending and folds
  them into `sum (n - i) * job_i`. The model proves that this fold is the total flow time of
  shortest-job-first. It also proves that no order of the same jobs has a smaller total flow
  time.
- **Adaptive Round Robin** (`algs.dfy`), shortened to ARR. The model has two pieces:
  - the in-place sort of the indexed predictions;
  - the simulator `ArrEnv`, a class whose `Simulate` method performs one step in place.

  `Simulate` is proved equal to a step function `Step` on state values. `Step` is then
  characterised by lemmas:
  - the step size is the least of the round-robin entries and the active job's budget;
  - how far the clock moves, and what is charged to the cost;
  - the three ways the active job can be resolved;
  - indices stay in range;
  - a non-negative state stays non-negative, and the clock and the cost never go down.
- **Truncated normal constructors** (`rtnorm.dfy`). The three validating constructors and the
  error type with its message. Each constructor accepts exactly when the mean lies strictly
  inside the bounds that are given.

`sorting.dfy` holds the shared sort, which both the optimum and ARR use. It is an in-place
insertion sort on an array by a real-valued key, proved to be an ascending permutation. It also
holds a functional reference sort on reals and a proof that ascending permutations are unique.
The Rust `f64` values become Dafny `real`s, and `==` on floats becomes exact equality on reals.

The step is modelled as the code is written, including these behaviours:

- the loops at `src/algs.rs:53-55` and `:87-89` decrement a copy of each entry, so round-robin
  entries never decrease (`DecrementCopies`);
- the lines `self.active_to_process == None` at `:68` and `:72` are comparisons whose result is
  discarded, so a carried budget is never reset;
- a fresh budget is `lambda * predicted length`;
- the clock advances by `stepsize` times the length of the round-robin list *before* the active
  job is pushed;
- an active job that finishes is charged but stays at the head of the candidate list, so with an
  empty round-robin list the next step charges it again (`FinishedActiveRepeats`).

## Model

| member | source | states |
|---|---|---|
| `Instances.Instance.JobLen` | src/instance.rs:10-12 | the true length of an in-range job index (an out-of-range index panics in the source and is excluded) |
| `Instances.Instance.NumJobs` | src/instance.rs:14-16 | the number of jobs in the instance |
| `Instances.Opt` | src/instance.rs:20-27 | the method clones the lengths into an array, sorts it in place and folds it; the result equals `OptimalFlowTime`, i.e. the weighted sum of the ascending lengths |
| `Instances.FoldWeighted` | src/instance.rs:23-26 | the fold loop computes `sum (n - i) * s[i]` over all positions |
| `Instances.WeightedPrefixStep` | src/instance.rs:24-26 | one more fold step adds `(n - k) * s[k]` to the accumulator |
| `Instances.OptEmpty` | src/instance.rs:24 | an instance without jobs has optimum `0.0`, the fold's seed |
| `Instances.OptPermutationInvariant` | src/instance.rs:21-22 | the optimum depends only on the multiset of lengths |
| `Instances.WeightedPrefixAsFlowTime` | src/instance.rs:24-26 | after `k` steps the fold is the flow time of the first `k` jobs plus `n - k` times their total length |
| `Instances.WeightedSumIsFlowTime` | src/instance.rs:23-26 | the weighted sum of a sequence is its total flow time when run in that order |
| `Instances.OptIsShortestFirstFlowTime` | src/instance.rs:20-27 | the optimum is the total flow time of shortest-job-first |
| `Instances.WeightedPrefixNonNegative` | src/instance.rs:24-26 | with non-negative lengths every partial fold is non-negative |
| `Instances.OptNonNegative` | src/instance.rs:20-27 | with non-negative lengths the optimum is non-negative |
| `Instances.OptExample` | src/instance.rs:20-27 | lengths `[1, 2, 4, 3]` give optimum `20` |
| `Instances.WeightedPrefixFront` | src/instance.rs:24-26 | a job put in front is weighted once for every job |
| `Instances.WeightedSumFront` | src/instance.rs:24-26 | `WeightedSum([x] + r) == (abs(r) + 1) * x + WeightedSum(r)` |
| `Instances.MoveToFront` | src/instance.rs:22-26 | moving a job no longer than every job before it to the front never increases the weighted sum (the exchange step) |
| `Instances.DemoteFront` | src/instance.rs:24-26 | with `m` behind it, the head of `a` is weighted `abs(a + b) + 1` |
| `Instances.PromoteFront` | src/instance.rs:24-26 | with `m` in front, `m` is weighted `abs(a + b) + 1` and the head of `a` one less |
| `Instances.SwapWeights` | src/instance.rs:24-26 | giving the larger weight to the shorter job never costs more |
| `Instances.SortedHeadIsMin` | src/instance.rs:22 | the head of an ascending sequence is at most any of its elements |
| `Instances.CutAt` | src/instance.rs:22 | cutting out position `i` removes one copy of `s[i]` from the multiset |
| `Instances.ExtractHead` | src/instance.rs:22 | any order of the jobs is `a + [min] + b`, where every job in `a` is at least the minimum and `a + b` holds the remaining jobs |
| `Instances.NoneBelowHead` | src/instance.rs:22 | no job of a permutation of an ascending sequence is shorter than its head |
| `Instances.WeightedSumMinimal` | src/instance.rs:20-27 | the weighted sum of the ascending order is at most that of any permutation |
| `Instances.FrontMonotone` | src/instance.rs:24-26 | the same job in front of two equally long orders keeps their comparison |
| `Instances.OptIsMinimal` | src/instance.rs:20-27 | no permutation of the jobs has a total flow time below the reported optimum |
| `Sorting.SortByKey` | src/algs.rs:7 | in-place stable sort by a real key (`sort_by` is stable): the result is ascending by the key and a permutation of the input, each element's origin is recorded, and elements with equal keys keep their original relative order |
| `Sorting.SiftDown` | src/algs.rs:7 | one insertion pass: an ascending, order-of-ties-preserving prefix of length `i` becomes one of length `i + 1`, the origins stay recorded, and the multiset is kept |
| `Sorting.Swap` | src/algs.rs:7 | exchanges two array cells, leaves the others alone and keeps the multiset |
| `Sorting.SortedByIdIsSorted` | src/instance.rs:22 | sorting reals by the identity key gives an ascending sequence |
| `Sorting.InsertPermutes` | src/instance.rs:22 | reference insertion adds exactly one copy of the element |
| `Sorting.InsertSorted` | src/instance.rs:22 | reference insertion into an ascending sequence keeps it ascending |
| `Sorting.ConsSorted` | src/instance.rs:22 | an element no larger than every element of an ascending sequence can go in front of it |
| `Sorting.SortAscCorrect` | src/instance.rs:22 | the reference sort is an ascending permutation of its input |
| `Sorting.SortedUnique` | src/instance.rs:22 | two ascending sequences with the same multiset are equal |
| `Sorting.SortedPermutationIsSortAsc` | src/instance.rs:22 | any ascending permutation of the lengths is the reference sort, so the sorted clone is determined |
| `Algs.Enumerate` | src/algs.rs:6 | `enumerate` pairs each prediction with its index, in order |
| `Algs.AdaptiveRoundRobin` | src/algs.rs:5-7 | the indexed predictions, sorted in place: a permutation of the enumeration that is ascending by predicted length, with equal predictions in increasing index order |
| `Algs.Min` | src/algs.rs:46 | `min` of two reals is a lower bound of both and is one of them |
| `Algs.MinRemainingIsMinimum` | src/algs.rs:47-50 | `min_by` on remaining values returns a value at most every entry's and equal to one of them |
| `Algs.UnfinishedMembers` | src/algs.rs:56-63 | `drain_filter` keeps exactly the entries whose remaining value is not zero |
| `Algs.UnfinishedAppend` | src/algs.rs:56-63 | the filter distributes over concatenation, so it keeps the survivors' order |
| `Algs.FinishedCountAppend` | src/algs.rs:56-63 | the count of removed entries distributes over concatenation |
| `Algs.UnfinishedPrefix` | src/algs.rs:56-63 | the filter's effect on one more entry |
| `Algs.UnfinishedCount` | src/algs.rs:56-63 | kept entries plus removed entries make up the list |
| `Algs.ChargesIsProduct` | src/algs.rs:56-63 | charging the time once per removed entry adds `count * time` |
| `Algs.ChargesNonNegative` | src/algs.rs:56-63 | charging a non-negative time adds a non-negative amount |
| `Algs.UnfinishedNonNegative` | src/algs.rs:56-63 | the entries that the filter keeps are non-negative when the input's are |
| `Algs.DrainByFields` | src/algs.rs:51-63 | a state whose five fields are those of the clock update and the filter is `Drain(s, stepsize)` |
| `Algs.ArrEnv.constructor` | src/algs.rs:16-33 | the struct with every field given |
| `Algs.ArrEnv.DrainFinished` | src/algs.rs:56-63 | the filter loop leaves `Unfinished(rr)` and adds the time once for each removed entry |
| `Algs.ArrEnv.AdvanceClock` | src/algs.rs:51 | the clock advances by `stepsize * count` |
| `Algs.ArrEnv.DecrementCopies` | src/algs.rs:53-55 | the loop decrements a local copy of each remaining value; having no `modifies` clause, it changes no field of the environment |
| `Algs.ArrEnv.AdvanceAndDrain` | src/algs.rs:51-63 | the clock update, the no-op decrement and the filter together: candidates and carried budget unchanged, clock advanced by `stepsize * count`, `rr` filtered, each removed entry charged the new time |
| `Algs.ArrEnv.ResolveActive` | src/algs.rs:65-77 | the three outcomes for the active job, in place: the new state is `Resolve(old state, budget, stepsize)` |
| `Algs.ArrEnv.Simulate` | src/algs.rs:36-100 | one step in place: the new state is `Step(old state)`, indices stay in range, and the result is `false` |
| `Algs.StepSizeIsMinimum` | src/algs.rs:44-50 | the step size is at most every round-robin entry and at most both budgets; it equals one of them; with no candidates it equals a round-robin entry (`:80-84`) |
| `Algs.BudgetChoice` | src/algs.rs:40-42 | the carried budget when present, otherwise `(lambda * predicted, true length)` |
| `Algs.StepClockAndCharges` | src/algs.rs:51-67 | the clock advances by `stepsize * abs(rr)` before the push; the cost gains the new time once per removed entry, and once more if the active job finished |
| `Algs.NoRoundRobinNoTime` | src/algs.rs:51 | with an empty round-robin list the clock does not move |
| `Algs.StepRoundRobin` | src/algs.rs:56-77 | the new round-robin list is the surviving entries in order, then the demoted active job when its budget ran out first |
| `Algs.ActiveFinishes` | src/algs.rs:65-68 | when the true length is reached the active job is charged, stays in the candidates, and the carried budget is not reset |
| `Algs.ActiveDemoted` | src/algs.rs:69-73 | when the algorithmic budget is reached first the head leaves the candidates for the round-robin tail with its true remainder, and the carried budget is not reset |
| `Algs.ActiveCarriesOver` | src/algs.rs:74-77 | otherwise both budgets carry over, reduced by the step |
| `Algs.StepKeepsIndicesInRange` | src/algs.rs:39 | every candidate index stays a valid job index, so `job_len` never panics in a later step |
| `Algs.BudgetNonNegative` | src/algs.rs:40-42 | non-negative inputs give non-negative budgets |
| `Algs.StepSizeNonNegative` | src/algs.rs:44-50 | non-negative inputs give a non-negative step size |
| `Algs.DrainNonNegative` | src/algs.rs:51-63 | advancing and draining keeps the state non-negative, and the clock and the cost do not decrease |
| `Algs.StepPreservesNonNegative` | src/algs.rs:36-100 | a step keeps the clock, the cost, the predictions, the entries and the budgets non-negative |
| `Algs.StepMonotone` | src/algs.rs:36-100 | a step never moves the clock or the cost backwards |
| `Algs.FinishedActiveRepeats` | src/algs.rs:65-68 | a finished active job with no round-robin work is charged again by the next step, and nothing else changes |
| `RTNorm.Display` | src/rtnorm.rs:24-31 | each error has a non-empty message |
| `RTNorm.DisplayInjective` | src/rtnorm.rs:24-31 | different errors have different messages |
| `RTNorm.New` | src/rtnorm.rs:40-50 | accepts exactly when `lower < mean < upper`; the result holds both bounds, the mean and the deviation; the only error is `BadBounds` |
| `RTNorm.UpperTruncation` | src/rtnorm.rs:52-63 | accepts exactly when `mean < upper`; it has no lower bound; the only error is `BadBounds` |
| `RTNorm.LowerTruncation` | src/rtnorm.rs:65-76 | accepts exactly when `lower < mean`; it has no upper bound; the only error is `BadBounds` |
| `RTNorm.ConstructorsWellOrdered` | src/rtnorm.rs:40-76 | every distribution a constructor returns has its mean strictly inside its bounds |
| `RTNorm.NewIsBothTruncations` | src/rtnorm.rs:40-63 | the two-sided constructor accepts exactly when both one-sided ones do, so its `lower >= upper` test is redundant |
| `RTNorm.StdDevUnchecked` | src/rtnorm.rs:40-76 | the standard deviation never decides acceptance (`BadVariance` is never returned) |

## Left out

- NaN and the `partial_cmp(..).unwrap()` panics: `f64` becomes `real`, which has no NaN, so the sort comparators and `min_by` never panic in the model.
- Floating-point rounding: every sum and product is exact. `Algs.ChargesIsProduct` states the repeated addition of the charging loop as an exact product, which rounding does not give.
- `AdaptiveRoundRobin`: in the source, `lambda` is an `f32` and the function returns nothing. The model takes a `real` and returns the sorted vector, the only value the function computes. The unused locals `remaining`, `time` and `cost` and the empty `for` loop at `src/algs.rs:8-13` have no effect and are not modelled.
- `Algs.ArrEnv.Simulate`: its precondition excludes a state with no candidates and an empty round-robin list. There `unwrap` panics (`src/algs.rs:84`). It also requires `Valid()`: every candidate index, not only the head's, is below the number of instance jobs, so `job_len` never panics. The candidate indices come from `enumerate(pred.jobs)`, and the prediction is generated from the instance with one value per job (`src/pred.rs:15-18`, `src/sample.rs:66-69`), so every index the caller builds is in range. `Simulate` keeps `Valid()`.
- Full runs of ARR: nothing in the source calls `simulate` in a loop. Termination is therefore not modelled; with the no-op decrement loops a run would not terminate in general.
- Behaviour kept as written: the fresh budget is `lambda * predicted` (`src/algs.rs:42`); "finished" is exact equality with `0.0` (`src/algs.rs:57`, `src/algs.rs:65`); a finished active job is neither removed nor reset (`src/algs.rs:65-68`).
- Only the items of `src/algs.rs`, `src/instance.rs` and `src/rtnorm.rs` listed above are modelled; `two_stage_schedule`, called at `src/sample.rs:70`, has no code in these files.
- `TruncatedNormal::sample` (`src/rtnorm.rs:83-85`, an empty body), `src/sample.rs`, `src/pred.rs`, `src/main.rs` and `src/lib.rs`: random generation, I/O and the driver are not part of this model. `Prediction` is an alias of `Instance` (`src/pred.rs:4`), and the model says the same.
