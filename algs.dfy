/**
 * Adaptive Round Robin (ARR): the sort of the indexed predictions and one
 * step of the stepwise simulator.
 *
 * The simulator keeps a candidate list ordered by prediction, whose head is
 * the active job, and a round-robin list of (index, remaining) entries. One
 * step takes the least of the round-robin entries and the active job's
 * budget, advances the clock by that amount times the number of round-robin
 * entries, charges the clock once for each round-robin entry at exactly zero
 * and drops it, then either charges the active job as finished, demotes it to
 * the round-robin list, or carries its reduced budget over to the next step.
 *
 * The model follows the code as written: the decrement loops write to a
 * copy, so round-robin entries never decrease; the two `==` comparisons
 * meant to reset the carried budget are discarded; a finished active job
 * stays at the head of the candidate list.
 */
module Algs {
  import opened Wrappers
  import opened Sorting
  import opened Instances

  /** The enumerated predictions `(index, predicted length)`. */
  function Enumerate(s: seq<real>): (r: seq<(nat, real)>)
    ensures |r| == |s|
    ensures forall i :: 0 <= i < |s| ==> r[i] == (i, s[i])
  {
    seq(|s|, i requires 0 <= i < |s| => (i, s[i]))
  }

  /** The sort key of a candidate: its predicted length. */
  function PredictedLen(c: (nat, real)): real { c.1 }

  /**
   * The part of `adaptive_round_robin` that computes anything: the indexed
   * predictions, sorted in place ascending by predicted length; equal
   * predictions stay in index order, because the sort is stable. The source
   * discards this vector (its driver loop is empty); the model returns it.
   */
  method AdaptiveRoundRobin(instance: Instance, pred: Prediction, lambda: real)
    returns (predicted: seq<(nat, real)>)
    ensures multiset(predicted) == multiset(Enumerate(pred.jobs))
    ensures SortedBy(predicted, PredictedLen)
    ensures forall p, q :: 0 <= p < q < |predicted| && predicted[p].1 == predicted[q].1 ==> predicted[p].0 < predicted[q].0
  {
    var jobs := pred.jobs;
    var sorted := new (nat, real)[|jobs|](i requires 0 <= i < |jobs| => (i, jobs[i]));
    assert sorted[..] == Enumerate(jobs);
    ghost var perm := SortByKey(sorted, PredictedLen);
    predicted := sorted[..];
    assert forall p :: 0 <= p < |predicted| ==> predicted[p].0 == perm[p];
  }

  /** `f64::min` on two reals. */
  function Min(a: real, b: real): (m: real)
    ensures m <= a && m <= b
    ensures m == a || m == b
  {
    if a <= b then a else b
  }

  /** The least remaining value of a non-empty list of `(index, remaining)` pairs (`min_by`). */
  function MinRemaining(q: seq<(nat, real)>): real
    requires q != []
  {
    if |q| == 1 then q[0].1
    else
      var t := MinRemaining(q[1..]);
      if q[0].1 <= t then q[0].1 else t
  }

  /** `MinRemaining` is a lower bound of the remaining values and is one of them. */
  lemma {:induction false} MinRemainingIsMinimum(q: seq<(nat, real)>)
    requires q != []
    ensures forall k :: 0 <= k < |q| ==> MinRemaining(q) <= q[k].1
    ensures exists k :: 0 <= k < |q| && MinRemaining(q) == q[k].1
  {
    if |q| > 1 {
      MinRemainingIsMinimum(q[1..]);
      var j :| 0 <= j < |q[1..]| && MinRemaining(q[1..]) == q[1..][j].1;
      assert q[1..][j] == q[j + 1];
      forall k | 1 <= k < |q| ensures MinRemaining(q[1..]) <= q[k].1 {
        assert q[1..][k - 1] == q[k];
      }
      if q[0].1 <= MinRemaining(q[1..]) {
        assert MinRemaining(q) == q[0].1;
      } else {
        assert MinRemaining(q) == q[j + 1].1;
      }
    } else {
      assert MinRemaining(q) == q[0].1;
    }
  }

  /** The entries that `drain_filter` keeps: those whose remaining is not exactly zero, in order. */
  function Unfinished(q: seq<(nat, real)>): seq<(nat, real)>
  {
    if q == [] then []
    else (if q[0].1 == 0.0 then [] else [q[0]]) + Unfinished(q[1..])
  }

  /** The number of entries that `drain_filter` removes, each charged the current time. */
  function FinishedCount(q: seq<(nat, real)>): nat
  {
    if q == [] then 0
    else (if q[0].1 == 0.0 then 1 else 0) + FinishedCount(q[1..])
  }

  /** The kept entries are exactly the entries of `q` whose remaining is not zero. */
  lemma {:induction false} UnfinishedMembers(q: seq<(nat, real)>, e: (nat, real))
    ensures e in Unfinished(q) <==> e in q && e.1 != 0.0
  {
    if q != [] {
      UnfinishedMembers(q[1..], e);
      assert q == [q[0]] + q[1..];
    }
  }

  /** Filtering works piecewise, so it keeps the relative order of the survivors. */
  lemma {:induction false} UnfinishedAppend(a: seq<(nat, real)>, b: seq<(nat, real)>)
    ensures Unfinished(a + b) == Unfinished(a) + Unfinished(b)
  {
    if a == [] {
      assert a + b == b;
    } else {
      var h: seq<(nat, real)> := if a[0].1 == 0.0 then [] else [a[0]];
      calc {
        Unfinished(a + b);
        == { assert (a + b)[0] == a[0]; assert (a + b)[1..] == a[1..] + b; }
        h + Unfinished(a[1..] + b);
        == { UnfinishedAppend(a[1..], b); }
        h + (Unfinished(a[1..]) + Unfinished(b));
        ==
        (h + Unfinished(a[1..])) + Unfinished(b);
      }
    }
  }

  /** Counting the removed entries works piecewise. */
  lemma {:induction false} FinishedCountAppend(a: seq<(nat, real)>, b: seq<(nat, real)>)
    ensures FinishedCount(a + b) == FinishedCount(a) + FinishedCount(b)
  {
    if a == [] {
      assert a + b == b;
    } else {
      FinishedCountAppend(a[1..], b);
      assert (a + b)[1..] == a[1..] + b;
    }
  }

  /** Filtering one more entry of `q`. */
  lemma UnfinishedPrefix(q: seq<(nat, real)>, i: nat)
    requires i < |q|
    ensures Unfinished(q[..i + 1]) == Unfinished(q[..i]) + (if q[i].1 == 0.0 then [] else [q[i]])
    ensures FinishedCount(q[..i + 1]) == FinishedCount(q[..i]) + (if q[i].1 == 0.0 then 1 else 0)
  {
    UnfinishedAppend(q[..i], [q[i]]);
    FinishedCountAppend(q[..i], [q[i]]);
    assert q[..i + 1] == q[..i] + [q[i]];
    assert Unfinished([q[i]]) == (if q[i].1 == 0.0 then [] else [q[i]]) by {
      var one: seq<(nat, real)> := [q[i]];
      assert one[1..] == [];
    }
  }

  /** The cost added by charging the time `t` once for each of `n` finished jobs, one addition at a time. */
  function Charges(n: nat, t: real): real
  {
    if n == 0 then 0.0 else Charges(n - 1, t) + t
  }

  /** In exact arithmetic the repeated charges are `n * t`. */
  lemma {:induction false} ChargesIsProduct(n: nat, t: real)
    ensures Charges(n, t) == n as real * t
  {
    if n > 0 {
      ChargesIsProduct(n - 1, t);
      assert (n - 1) as real * t + t == n as real * t;
    }
  }

  /** Every entry is either kept or counted as finished. */
  lemma {:induction false} UnfinishedCount(q: seq<(nat, real)>)
    ensures |Unfinished(q)| + FinishedCount(q) == |q|
  {
    if q != [] {
      UnfinishedCount(q[1..]);
    }
  }

  /** The simulator's state: the fields of `ArrEnv` other than the instance and `lambda`. */
  datatype ArrState = ArrState(
    remainingJobs: seq<(nat, real)>,
    rr: seq<(nat, real)>,
    time: real,
    activeToProcess: Option<(real, real)>,
    cost: real)

  /** Every candidate names a job of the instance, so `job_len` does not panic. */
  ghost predicate IndicesInRange(remainingJobs: seq<(nat, real)>, instance: Instance)
  {
    forall k :: 0 <= k < |remainingJobs| ==> remainingJobs[k].0 < |instance.jobs|
  }

  /** A step does not panic: the active job exists in the instance, or the round-robin list is non-empty. */
  ghost predicate CanStep(s: ArrState, instance: Instance)
  {
    IndicesInRange(s.remainingJobs, instance) && (s.remainingJobs != [] || s.rr != [])
  }

  /**
   * The active job's `(to process by algorithm, to process by real length)`:
   * the carried pair if there is one, else `lambda` times its predicted length
   * and its true length.
   */
  function Budget(s: ArrState, instance: Instance, lambda: real): (real, real)
    requires s.remainingJobs != [] && s.remainingJobs[0].0 < |instance.jobs|
  {
    if s.activeToProcess.Some? then s.activeToProcess.value
    else (lambda * s.remainingJobs[0].1, instance.JobLen(s.remainingJobs[0].0))
  }

  /** The amount of work of this step. */
  function StepSize(s: ArrState, instance: Instance, lambda: real): real
    requires CanStep(s, instance)
  {
    if s.remainingJobs != [] then
      var budget := Budget(s, instance, lambda);
      MinRemaining(s.rr + [(s.remainingJobs[0].0, Min(budget.0, budget.1))])
    else
      MinRemaining(s.rr)
  }

  /**
   * The common part of both branches: the clock advances by `stepsize` times
   * the number of round-robin entries, then the entries at exactly zero are
   * dropped and each is charged the new time.
   */
  function Drain(s: ArrState, stepsize: real): ArrState
  {
    var time := s.time + stepsize * |s.rr| as real;
    ArrState(s.remainingJobs, Unfinished(s.rr), time, s.activeToProcess, s.cost + Charges(FinishedCount(s.rr), time))
  }

  /** `Drain` field by field. */
  lemma DrainByFields(s: ArrState, stepsize: real, d: ArrState)
    requires d.remainingJobs == s.remainingJobs && d.activeToProcess == s.activeToProcess
    requires d.time == s.time + stepsize * |s.rr| as real
    requires d.rr == Unfinished(s.rr)
    requires d.cost == s.cost + Charges(FinishedCount(s.rr), d.time)
    ensures d == Drain(s, stepsize)
  {
    var e := Drain(s, stepsize);
    assert e.time == d.time;
    assert e.cost == d.cost;
    assert e.rr == d.rr && e.remainingJobs == d.remainingJobs && e.activeToProcess == d.activeToProcess;
  }

  /** What happens to the active job, decided by which bound the step reached. */
  function Resolve(d: ArrState, budget: (real, real), stepsize: real): ArrState
    requires d.remainingJobs != []
  {
    if stepsize == budget.1 then
      d.(cost := d.cost + d.time)
    else if stepsize == budget.0 then
      d.(rr := d.rr + [(d.remainingJobs[0].0, budget.1 - stepsize)], remainingJobs := d.remainingJobs[1..])
    else
      d.(activeToProcess := Some((budget.0 - stepsize, budget.1 - stepsize)))
  }

  /** One call of `simulate`, as a function of the state before it. */
  function Step(s: ArrState, instance: Instance, lambda: real): ArrState
    requires CanStep(s, instance)
  {
    var stepsize := StepSize(s, instance, lambda);
    var d := Drain(s, stepsize);
    if s.remainingJobs == [] then d else Resolve(d, Budget(s, instance, lambda), stepsize)
  }

  /**
   * The step size is the least of the round-robin entries and the active job's
   * two budgets, and it is one of them.
   */
  lemma StepSizeIsMinimum(s: ArrState, instance: Instance, lambda: real)
    requires CanStep(s, instance)
    ensures forall k :: 0 <= k < |s.rr| ==> StepSize(s, instance, lambda) <= s.rr[k].1
    ensures s.remainingJobs != [] ==>
      var budget := Budget(s, instance, lambda);
      var stepsize := StepSize(s, instance, lambda);
      stepsize <= budget.0 && stepsize <= budget.1 &&
      (stepsize == budget.0 || stepsize == budget.1 || exists k :: 0 <= k < |s.rr| && stepsize == s.rr[k].1)
    ensures s.remainingJobs == [] ==> exists k :: 0 <= k < |s.rr| && StepSize(s, instance, lambda) == s.rr[k].1
  {
    var stepsize := StepSize(s, instance, lambda);
    if s.remainingJobs != [] {
      var budget := Budget(s, instance, lambda);
      var q := s.rr + [(s.remainingJobs[0].0, Min(budget.0, budget.1))];
      assert stepsize == MinRemaining(q);
      MinRemainingIsMinimum(q);
      assert q[|s.rr|].1 == Min(budget.0, budget.1);
      forall k | 0 <= k < |s.rr| ensures stepsize <= s.rr[k].1 {
        assert q[k] == s.rr[k];
      }
      var k :| 0 <= k < |q| && stepsize == q[k].1;
      if k < |s.rr| {
        assert q[k] == s.rr[k];
      }
    } else {
      assert stepsize == MinRemaining(s.rr);
      MinRemainingIsMinimum(s.rr);
    }
  }

  /** With no carried pair the fresh budget is `lambda * predicted` and the true length; otherwise the carried pair. */
  lemma BudgetChoice(s: ArrState, instance: Instance, lambda: real)
    requires s.remainingJobs != [] && s.remainingJobs[0].0 < |instance.jobs|
    ensures s.activeToProcess.None? ==>
      Budget(s, instance, lambda) == (lambda * s.remainingJobs[0].1, instance.jobs[s.remainingJobs[0].0])
    ensures s.activeToProcess.Some? ==> Budget(s, instance, lambda) == s.activeToProcess.value
  {
    var idx := s.remainingJobs[0].0;
    assert instance.JobLen(idx) == instance.jobs[idx];
    assert s.activeToProcess.None? ==> Budget(s, instance, lambda).1 == instance.jobs[idx];
    assert s.activeToProcess.None? ==> Budget(s, instance, lambda).0 == lambda * s.remainingJobs[0].1;
  }

  /**
   * The clock advances by the step size times the length of the round-robin
   * list before the step (the active job is not counted); the removed entries,
   * and the active job if it finished, are charged the new time each.
   */
  lemma StepClockAndCharges(s: ArrState, instance: Instance, lambda: real)
    requires CanStep(s, instance)
    ensures var s' := Step(s, instance, lambda);
      var stepsize := StepSize(s, instance, lambda);
      var finished := s.remainingJobs != [] && stepsize == Budget(s, instance, lambda).1;
      s'.time == s.time + stepsize * |s.rr| as real &&
      s'.cost == s.cost + FinishedCount(s.rr) as real * s'.time + (if finished then s'.time else 0.0)
  {
    var stepsize := StepSize(s, instance, lambda);
    var d := Drain(s, stepsize);
    assert d.time == s.time + stepsize * |s.rr| as real;
    ChargesIsProduct(FinishedCount(s.rr), d.time);
  }

  /** Without round-robin entries the clock stands still. */
  lemma {:induction false} NoRoundRobinNoTime(s: ArrState, instance: Instance, lambda: real)
    requires CanStep(s, instance) && s.rr == []
    ensures Step(s, instance, lambda).time == s.time
  {
    StepClockAndCharges(s, instance, lambda);
  }

  /**
   * The round-robin list after a step: the surviving entries in their old
   * order and with their old values, then the demoted active job if the
   * algorithmic budget ran out first.
   */
  lemma StepRoundRobin(s: ArrState, instance: Instance, lambda: real)
    requires CanStep(s, instance)
    ensures var s' := Step(s, instance, lambda);
      var stepsize := StepSize(s, instance, lambda);
      if s.remainingJobs != [] && stepsize != Budget(s, instance, lambda).1
         && stepsize == Budget(s, instance, lambda).0
      then s'.rr == Unfinished(s.rr) + [(s.remainingJobs[0].0, Budget(s, instance, lambda).1 - stepsize)]
      else s'.rr == Unfinished(s.rr)
  {
  }

  /** When the active job's true length is reached it is charged once more and nothing else about it changes. */
  lemma ActiveFinishes(s: ArrState, instance: Instance, lambda: real)
    requires CanStep(s, instance) && s.remainingJobs != []
    requires StepSize(s, instance, lambda) == Budget(s, instance, lambda).1
    ensures var s' := Step(s, instance, lambda);
      s'.remainingJobs == s.remainingJobs && s'.activeToProcess == s.activeToProcess &&
      s'.cost == s.cost + FinishedCount(s.rr) as real * s'.time + s'.time
  {
    StepClockAndCharges(s, instance, lambda);
  }

  /** When the algorithmic budget runs out first the active job leaves the candidates for the round-robin tail. */
  lemma ActiveDemoted(s: ArrState, instance: Instance, lambda: real)
    requires CanStep(s, instance) && s.remainingJobs != []
    requires StepSize(s, instance, lambda) != Budget(s, instance, lambda).1
    requires StepSize(s, instance, lambda) == Budget(s, instance, lambda).0
    ensures var s' := Step(s, instance, lambda);
      s'.remainingJobs == s.remainingJobs[1..] && s'.activeToProcess == s.activeToProcess &&
      s'.cost == s.cost + FinishedCount(s.rr) as real * s'.time &&
      s'.rr == Unfinished(s.rr) + [(s.remainingJobs[0].0, Budget(s, instance, lambda).1 - StepSize(s, instance, lambda))]
  {
    StepClockAndCharges(s, instance, lambda);
  }

  /** When a round-robin entry is the least, the active job stays and carries both budgets reduced by the step. */
  lemma ActiveCarriesOver(s: ArrState, instance: Instance, lambda: real)
    requires CanStep(s, instance) && s.remainingJobs != []
    requires StepSize(s, instance, lambda) != Budget(s, instance, lambda).1
    requires StepSize(s, instance, lambda) != Budget(s, instance, lambda).0
    ensures var s' := Step(s, instance, lambda);
      var budget := Budget(s, instance, lambda);
      var stepsize := StepSize(s, instance, lambda);
      s'.remainingJobs == s.remainingJobs && s'.rr == Unfinished(s.rr) &&
      s'.activeToProcess == Some((budget.0 - stepsize, budget.1 - stepsize))
  {
  }

  /** The candidate list only ever loses its head, so its indices stay in range. */
  lemma StepKeepsIndicesInRange(s: ArrState, instance: Instance, lambda: real)
    requires CanStep(s, instance)
    ensures IndicesInRange(Step(s, instance, lambda).remainingJobs, instance)
  {
  }

  /**
   * Invariant with non-negative inputs: the clock, the cost, the predictions,
   * the round-robin entries and the carried budgets are all non-negative.
   */
  ghost predicate NonNegative(s: ArrState)
  {
    0.0 <= s.time && 0.0 <= s.cost &&
    (forall k :: 0 <= k < |s.remainingJobs| ==> 0.0 <= s.remainingJobs[k].1) &&
    (forall k :: 0 <= k < |s.rr| ==> 0.0 <= s.rr[k].1) &&
    (s.activeToProcess.Some? ==> 0.0 <= s.activeToProcess.value.0 && 0.0 <= s.activeToProcess.value.1)
  }

  /** Every true length of the instance is non-negative. */
  ghost predicate NonNegativeJobs(instance: Instance)
  {
    forall i :: 0 <= i < |instance.jobs| ==> 0.0 <= instance.jobs[i]
  }

  lemma BudgetNonNegative(s: ArrState, instance: Instance, lambda: real)
    requires CanStep(s, instance) && s.remainingJobs != []
    requires NonNegative(s) && NonNegativeJobs(instance) && 0.0 <= lambda
    ensures 0.0 <= Budget(s, instance, lambda).0 && 0.0 <= Budget(s, instance, lambda).1
  {
    assert 0.0 <= s.remainingJobs[0].1;
    assert 0.0 <= lambda * s.remainingJobs[0].1;
  }

  lemma StepSizeNonNegative(s: ArrState, instance: Instance, lambda: real)
    requires CanStep(s, instance) && NonNegative(s) && NonNegativeJobs(instance) && 0.0 <= lambda
    ensures 0.0 <= StepSize(s, instance, lambda)
  {
    StepSizeIsMinimum(s, instance, lambda);
    if s.remainingJobs != [] {
      BudgetNonNegative(s, instance, lambda);
    }
  }

  lemma DrainNonNegative(s: ArrState, stepsize: real)
    requires NonNegative(s) && 0.0 <= stepsize
    ensures NonNegative(Drain(s, stepsize))
    ensures s.time <= Drain(s, stepsize).time && s.cost <= Drain(s, stepsize).cost
  {
    var d := Drain(s, stepsize);
    assert 0.0 <= stepsize * |s.rr| as real;
    ChargesNonNegative(FinishedCount(s.rr), d.time);
    UnfinishedNonNegative(s.rr);
  }

  /** Charging a non-negative time any number of times adds a non-negative amount. */
  lemma {:induction false} ChargesNonNegative(n: nat, t: real)
    requires 0.0 <= t
    ensures 0.0 <= Charges(n, t)
  {
    if n > 0 {
      ChargesNonNegative(n - 1, t);
    }
  }

  /** The filter keeps only entries of its input, so non-negative entries stay non-negative. */
  lemma {:induction false} UnfinishedNonNegative(q: seq<(nat, real)>)
    requires forall k :: 0 <= k < |q| ==> 0.0 <= q[k].1
    ensures forall k :: 0 <= k < |Unfinished(q)| ==> 0.0 <= Unfinished(q)[k].1
  {
    if q != [] {
      UnfinishedNonNegative(q[1..]);
      var h: seq<(nat, real)> := if q[0].1 == 0.0 then [] else [q[0]];
      assert Unfinished(q) == h + Unfinished(q[1..]);
    }
  }

  /** A step keeps the non-negativity invariant. */
  lemma StepPreservesNonNegative(s: ArrState, instance: Instance, lambda: real)
    requires CanStep(s, instance) && NonNegative(s) && NonNegativeJobs(instance) && 0.0 <= lambda
    ensures NonNegative(Step(s, instance, lambda))
  {
    var stepsize := StepSize(s, instance, lambda);
    StepSizeNonNegative(s, instance, lambda);
    DrainNonNegative(s, stepsize);
    if s.remainingJobs != [] {
      StepSizeIsMinimum(s, instance, lambda);
      BudgetNonNegative(s, instance, lambda);
    }
  }

  /** With non-negative inputs neither the clock nor the cost ever decreases. */
  lemma StepMonotone(s: ArrState, instance: Instance, lambda: real)
    requires CanStep(s, instance) && NonNegative(s) && NonNegativeJobs(instance) && 0.0 <= lambda
    ensures s.time <= Step(s, instance, lambda).time
    ensures s.cost <= Step(s, instance, lambda).cost
  {
    var stepsize := StepSize(s, instance, lambda);
    StepSizeNonNegative(s, instance, lambda);
    DrainNonNegative(s, stepsize);
  }

  /**
   * A fresh active job whose true length fits its algorithmic budget, with
   * nothing in round robin, is charged again and again: the step changes
   * nothing but the cost, so repeated steps never finish the run.
   */
  lemma FinishedActiveRepeats(s: ArrState, instance: Instance, lambda: real)
    requires CanStep(s, instance) && s.remainingJobs != [] && s.rr == [] && s.activeToProcess.None?
    requires instance.jobs[s.remainingJobs[0].0] <= lambda * s.remainingJobs[0].1
    ensures Step(s, instance, lambda) == s.(cost := s.cost + s.time)
  {
    var budget := Budget(s, instance, lambda);
    var q := [(s.remainingJobs[0].0, Min(budget.0, budget.1))];
    assert [] + q == q;
    assert StepSize(s, instance, lambda) == MinRemaining(q) == budget.1;
  }

  /** The simulator of `algs.rs`: the referenced instance, the trust parameter and the mutable state. */
  class ArrEnv {
    const instance: Instance
    /** The first job is the active one; sorted by predicted processing time. */
    var remainingJobs: seq<(nat, real)>
    /** The round-robin queue of `(index, remaining to process)`. */
    var rr: seq<(nat, real)>
    var time: real
    /** `(to process by algorithm, to process by real length)` of the active job, when carried over. */
    var activeToProcess: Option<(real, real)>
    var cost: real
    const lambda: real

    /** The struct literal: every field given. */
    constructor (instance: Instance, remainingJobs: seq<(nat, real)>, rr: seq<(nat, real)>, time: real,
                 activeToProcess: Option<(real, real)>, cost: real, lambda: real)
      ensures this.instance == instance && this.lambda == lambda
      ensures State() == ArrState(remainingJobs, rr, time, activeToProcess, cost)
    {
      this.instance := instance;
      this.remainingJobs := remainingJobs;
      this.rr := rr;
      this.time := time;
      this.activeToProcess := activeToProcess;
      this.cost := cost;
      this.lambda := lambda;
    }

    /** The state as a value. */
    function State(): ArrState
      reads this
    {
      ArrState(remainingJobs, rr, time, activeToProcess, cost)
    }

    ghost predicate Valid()
      reads this
    {
      IndicesInRange(remainingJobs, instance)
    }

    /**
     * `drain_filter` with the charging closure: removes the round-robin
     * entries at exactly zero, adding the current time to the cost for each.
     */
    method DrainFinished()
      modifies this`rr, this`cost
      ensures rr == Unfinished(old(rr))
      ensures cost == old(cost) + Charges(FinishedCount(old(rr)), time)
    {
      var q := rr;
      var kept: seq<(nat, real)> := [];
      for i := 0 to |q|
        invariant kept == Unfinished(q[..i])
        invariant cost == old(cost) + Charges(FinishedCount(q[..i]), time)
      {
        UnfinishedPrefix(q, i);
        if q[i].1 == 0.0 {
          cost := cost + time;
        } else {
          kept := kept + [q[i]];
        }
      }
      assert q[..|q|] == q;
      rr := kept;
    }

    /** The clock moves on by `stepsize` for each of `count` jobs processed side by side. */
    method AdvanceClock(stepsize: real, count: nat)
      modifies this`time
      ensures time == old(time) + stepsize * count as real
    {
      time := time + stepsize * count as real;
    }

    /** The source's `for (_, mut remaining) in self.rr.iter()`: it decrements a copy, so nothing changes. */
    method DecrementCopies(stepsize: real)
      ensures unchanged(this)
    {
      for k := 0 to |rr| {
        var remaining := rr[k].1;
        remaining := remaining - stepsize;
      }
    }

    /**
     * The part both branches share: the clock advances by `stepsize` for each
     * of the `count` round-robin entries, the decrement loop runs on copies,
     * and `drain_filter` drops and charges the entries at zero.
     */
    method AdvanceAndDrain(stepsize: real, count: nat)
      requires count == |rr|
      modifies this
      ensures remainingJobs == old(remainingJobs) && activeToProcess == old(activeToProcess)
      ensures time == old(time) + stepsize * count as real
      ensures rr == Unfinished(old(rr))
      ensures cost == old(cost) + Charges(FinishedCount(old(rr)), time)
    {
      AdvanceClock(stepsize, count);
      DecrementCopies(stepsize);
      DrainFinished();
    }

    /**
     * The three outcomes for the active job `idx`: it finished for real, its
     * algorithmic budget ran out and it moves to the round-robin tail, or a
     * round-robin entry finished first and both budgets carry over. The
     * budget is not reset in the first two cases.
     */
    method ResolveActive(idx: nat, activeAlg: real, activeReal: real, stepsize: real)
      requires remainingJobs != [] && remainingJobs[0].0 == idx
      modifies this
      ensures State() == Resolve(old(State()), (activeAlg, activeReal), stepsize)
    {
      if stepsize == activeReal {
        cost := cost + time;
      } else if stepsize == activeAlg {
        rr := rr + [(idx, activeReal - stepsize)];
        remainingJobs := remainingJobs[1..];
      } else {
        activeToProcess := Some((activeAlg - stepsize, activeReal - stepsize));
      }
    }

    /** One step of the simulator; it always returns `false`. */
    method Simulate() returns (more: bool)
      requires Valid() && (remainingJobs != [] || rr != [])
      modifies this
      ensures Valid()
      ensures State() == Step(old(State()), instance, lambda)
      ensures !more
    {
      ghost var s := State();
      if remainingJobs != [] {
        var (idx, len) := remainingJobs[0];
        var realLen := instance.JobLen(idx);
        var budget := if activeToProcess.Some? then activeToProcess.value else (lambda * len, realLen);
        var activeAlg, activeReal := budget.0, budget.1;
        assert budget == Budget(s, instance, lambda) by {
          assert activeToProcess.None? ==> Budget(s, instance, lambda).0 == lambda * len;
          assert activeToProcess.None? ==> Budget(s, instance, lambda).1 == realLen;
        }
        var processedJobs := rr;
        var numProcessedJobs := |processedJobs|;
        processedJobs := processedJobs + [(idx, Min(activeAlg, activeReal))];
        var stepsize := MinRemaining(processedJobs);
        assert stepsize == StepSize(s, instance, lambda);
        AdvanceAndDrain(stepsize, numProcessedJobs);
        DrainByFields(s, stepsize, State());
        ResolveActive(idx, activeAlg, activeReal, stepsize);
      } else {
        var stepsize := MinRemaining(rr);
        assert stepsize == StepSize(s, instance, lambda);
        AdvanceAndDrain(stepsize, |rr|);
        DrainByFields(s, stepsize, State());
      }
      more := false;
    }
  }
}
