/**
 * A scheduling instance (the true job lengths) and its offline-optimal total
 * flow time: sort the lengths ascending and weight the job of rank `i` by the
 * number `n - i` of jobs whose completion it delays (itself included).
 */
module Instances {
  import opened Sorting

  /** An instance: the true processing times, indexed by job. */
  datatype Instance = Instance(jobs: seq<real>) {

    /** The true length of job `idx` (Rust panics on an index out of range). */
    function JobLen(idx: nat): (r: real)
      requires idx < |jobs|
      ensures r == jobs[idx]
    {
      jobs[idx]
    }

    /** The number of jobs. */
    function NumJobs(): (n: nat)
      ensures n == |jobs|
    {
      |jobs|
    }
  }

  /**
   * The optimal total flow time of `instance` (the `Opt` trait's `opt`): a
   * clone of the lengths is sorted in place, then folded left with weight
   * `n - idx` at position `idx`.
   */
  method Opt(instance: Instance) returns (r: real)
    ensures r == OptimalFlowTime(instance.jobs)
  {
    var jobs := instance.jobs;
    var sorted := new real[|jobs|](i requires 0 <= i < |jobs| => jobs[i]);
    assert sorted[..] == jobs;
    ghost var perm := SortByKey(sorted, Id);
    var s := sorted[..];
    assert s == SortAsc(jobs) by {
      SortedByIdIsSorted(s);
      SortedPermutationIsSortAsc(jobs, s);
    }
    r := FoldWeighted(s);
  }

  /**
   * The fold `acc + (n - idx) * job` over the enumerated `s`, seeded with 0:
   * its result is the weighted sum of `s`.
   */
  method FoldWeighted(s: seq<real>) returns (acc: real)
    ensures acc == WeightedSum(s)
  {
    var n := |s|;
    acc := 0.0;
    for idx := 0 to n
      invariant acc == WeightedPrefix(s, n, idx)
    {
      WeightedPrefixStep(s, n, idx);
      acc := acc + (n - idx) as real * s[idx];
    }
  }

  /** Predictions share the representation of an instance. */
  type Prediction = Instance

  /** The fold of the first `k` elements of `s`: the sum of `(n - i) * s[i]` for `i < k`. */
  function WeightedPrefix(s: seq<real>, n: nat, k: nat): real
    requires k <= |s|
  {
    if k == 0 then 0.0
    else
      var i := k - 1;
      WeightedPrefix(s, n, i) + (n - i) as real * s[i]
  }

  lemma WeightedPrefixStep(s: seq<real>, n: nat, k: nat)
    requires k < |s|
    ensures WeightedPrefix(s, n, k + 1) == WeightedPrefix(s, n, k) + (n - k) as real * s[k]
  {
  }

  /** The sum of `(|s| - i) * s[i]` over all positions of `s`. */
  function WeightedSum(s: seq<real>): real
  {
    WeightedPrefix(s, |s|, |s|)
  }

  /** The value the core reports as optimal: the weighted sum of the ascending lengths. */
  function OptimalFlowTime(jobs: seq<real>): real
  {
    WeightedSum(SortAsc(jobs))
  }

  /** The total length of `s`: the completion time of the last job when `s` runs in order. */
  function Total(s: seq<real>): real
  {
    if s == [] then 0.0 else Total(s[..|s| - 1]) + s[|s| - 1]
  }

  /**
   * The total flow time of running the jobs one after the other in the order
   * `s`: the sum over `k` of the completion time `Total(s[..k + 1])`.
   */
  function FlowTime(s: seq<real>): real
  {
    if s == [] then 0.0 else FlowTime(s[..|s| - 1]) + Total(s)
  }

  /** An instance without jobs costs the fold's seed. */
  lemma OptEmpty()
    ensures OptimalFlowTime([]) == 0.0
  {
  }

  /** The optimum depends only on the multiset of lengths, not on their order. */
  lemma OptPermutationInvariant(a: seq<real>, b: seq<real>)
    requires multiset(a) == multiset(b)
    ensures OptimalFlowTime(a) == OptimalFlowTime(b)
  {
    SortAscCorrect(a);
    SortedPermutationIsSortAsc(b, SortAsc(a));
  }

  /** The fold after `k` steps is the flow time of the first `k` jobs plus their delay of the other `n - k`. */
  lemma {:induction false} WeightedPrefixAsFlowTime(s: seq<real>, n: nat, k: nat)
    requires k <= |s|
    ensures WeightedPrefix(s, n, k) == FlowTime(s[..k]) + (n - k) as real * Total(s[..k])
  {
    if k > 0 {
      WeightedPrefixAsFlowTime(s, n, k - 1);
      assert s[..k][..k - 1] == s[..k - 1];
      var t := Total(s[..k - 1]);
      assert Total(s[..k]) == t + s[k - 1];
      calc {
        WeightedPrefix(s, n, k);
        FlowTime(s[..k - 1]) + (n - (k - 1)) as real * t + (n - (k - 1)) as real * s[k - 1];
        FlowTime(s[..k - 1]) + (n - (k - 1)) as real * (t + s[k - 1]);
        FlowTime(s[..k - 1]) + Total(s[..k]) + (n - k) as real * Total(s[..k]);
      }
    }
  }

  /** The weighted sum is the sum of the prefix sums, i.e. the total flow time of running `s` in order. */
  lemma WeightedSumIsFlowTime(s: seq<real>)
    ensures WeightedSum(s) == FlowTime(s)
  {
    WeightedPrefixAsFlowTime(s, |s|, |s|);
    assert s[..|s|] == s;
  }

  /** The optimum is the total flow time of shortest-job-first. */
  lemma OptIsShortestFirstFlowTime(jobs: seq<real>)
    ensures OptimalFlowTime(jobs) == FlowTime(SortAsc(jobs))
  {
    WeightedSumIsFlowTime(SortAsc(jobs));
  }

  lemma {:induction false} WeightedPrefixNonNegative(s: seq<real>, n: nat, k: nat)
    requires k <= |s| <= n
    requires forall i :: 0 <= i < |s| ==> 0.0 <= s[i]
    ensures 0.0 <= WeightedPrefix(s, n, k)
  {
    if k > 0 {
      WeightedPrefixNonNegative(s, n, k - 1);
      assert 0.0 <= (n - (k - 1)) as real * s[k - 1];
    }
  }

  /** With non-negative lengths the optimum is non-negative. */
  lemma OptNonNegative(jobs: seq<real>)
    requires forall i :: 0 <= i < |jobs| ==> 0.0 <= jobs[i]
    ensures 0.0 <= OptimalFlowTime(jobs)
  {
    var s := SortAsc(jobs);
    SortAscCorrect(jobs);
    forall i | 0 <= i < |s| ensures 0.0 <= s[i] {
      assert s[i] in multiset(jobs);
    }
    WeightedPrefixNonNegative(s, |s|, |s|);
  }

  /** The worked example: 4*1 + 3*2 + 2*3 + 1*4. */
  lemma OptExample()
    ensures OptimalFlowTime([1.0, 2.0, 4.0, 3.0]) == 20.0
  {
    ExampleSorted();
    ExampleWeighted();
  }

  lemma ExampleSorted()
    ensures SortAsc([1.0, 2.0, 4.0, 3.0]) == [1.0, 2.0, 3.0, 4.0]
  {
    var jobs := [1.0, 2.0, 4.0, 3.0];
    var s := [1.0, 2.0, 3.0, 4.0];
    assert multiset(s) == multiset(jobs);
    SortedPermutationIsSortAsc(jobs, s);
  }

  lemma ExampleWeighted()
    ensures WeightedSum([1.0, 2.0, 3.0, 4.0]) == 20.0
  {
    assert WeightedPrefix([1.0, 2.0, 3.0, 4.0], 4, 2) == 10.0;
  }

  /** Putting `x` in front of `r` charges it once for every job: `|r| + 1` times. */
  lemma {:induction false} WeightedPrefixFront(x: real, r: seq<real>, n: nat, k: nat)
    requires k <= |r| && 0 < n
    ensures WeightedPrefix([x] + r, n, k + 1) == n as real * x + WeightedPrefix(r, n - 1, k)
  {
    if k > 0 {
      WeightedPrefixFront(x, r, n, k - 1);
      assert ([x] + r)[k] == r[k - 1];
    }
  }

  lemma WeightedSumFront(x: real, r: seq<real>)
    ensures WeightedSum([x] + r) == (|r| + 1) as real * x + WeightedSum(r)
  {
    WeightedPrefixFront(x, r, |r| + 1, |r|);
  }

  /** Moving a job no longer than every job before it to the front never increases the weighted sum. */
  lemma {:induction false} MoveToFront(a: seq<real>, m: real, b: seq<real>)
    requires forall i :: 0 <= i < |a| ==> m <= a[i]
    ensures WeightedSum([m] + (a + b)) <= WeightedSum(a + [m] + b)
  {
    if a != [] {
      var x, a' := a[0], a[1..];
      var q := |a + b| as real;
      SplitHead(a, m, b);
      MoveToFront(a', m, b);
      DemoteFront(a, m, b);
      PromoteFront(a, m, b);
      WeightedSumFront(m, a' + b);
      assert (|a' + b| + 1) as real == q;
      SwapWeights(q, x, m);
    } else {
      assert [m] + (a + b) == a + [m] + b;
    }
  }

  /** With `m` behind it, the head of `a` is charged once for each of the `|a + b| + 1` jobs. */
  lemma DemoteFront(a: seq<real>, m: real, b: seq<real>)
    requires a != []
    ensures WeightedSum(a + [m] + b) == (|a + b| as real + 1.0) * a[0] + WeightedSum(a[1..] + [m] + b)
  {
    SplitHead(a, m, b);
    WeightedSumFront(a[0], a[1..] + [m] + b);
    assert (|a[1..] + [m] + b| + 1) as real == |a + b| as real + 1.0;
  }

  /** With `m` in front, `m` is charged `|a + b| + 1` times and the head of `a` once less. */
  lemma PromoteFront(a: seq<real>, m: real, b: seq<real>)
    requires a != []
    ensures WeightedSum([m] + (a + b)) == (|a + b| as real + 1.0) * m + |a + b| as real * a[0] + WeightedSum(a[1..] + b)
  {
    SplitHead(a, m, b);
    WeightedSumFront(m, a + b);
    WeightedSumFront(a[0], a[1..] + b);
    assert (|a[1..] + b| + 1) as real == |a + b| as real;
  }

  /** `a + [m] + b` and `a + b` with the head of `a` taken off. */
  lemma SplitHead(a: seq<real>, m: real, b: seq<real>)
    requires a != []
    ensures a + [m] + b == [a[0]] + (a[1..] + [m] + b)
    ensures a + b == [a[0]] + (a[1..] + b)
    ensures forall i :: 0 <= i < |a[1..]| ==> a[1..][i] == a[i + 1]
  {
  }

  /** Charging the longer job once more than the shorter one costs at least as much as the other way round. */
  lemma SwapWeights(p: real, x: real, m: real)
    requires m <= x
    ensures (p + 1.0) * m + p * x <= (p + 1.0) * x + p * m
  {
    assert (p + 1.0) * m == p * m + m;
    assert (p + 1.0) * x == p * x + x;
  }

  /** The head of an ascending sequence is no larger than any of its elements. */
  lemma SortedHeadIsMin(s: seq<real>, x: real)
    requires Sorted(s) && x in multiset(s)
    ensures s != [] && s[0] <= x
  {
    var j :| 0 <= j < |s| && s[j] == x;
  }

  /** Cutting the element at `i` out of `s` removes one copy of it from the multiset. */
  lemma CutAt(s: seq<real>, i: nat)
    requires i < |s|
    ensures s == s[..i] + [s[i]] + s[i + 1..]
    ensures multiset(s[..i] + s[i + 1..]) == multiset(s) - multiset{s[i]}
  {
    assert s == s[..i] + [s[i]] + s[i + 1..];
    assert multiset(s) == multiset(s[..i]) + multiset{s[i]} + multiset(s[i + 1..]);
  }

  /**
   * An order of the jobs of the ascending `s` splits around a copy of the
   * shortest job `s[0]`: every job before it is at least as long, and the
   * jobs around it are those of `s[1..]`.
   */
  lemma ExtractHead(s: seq<real>, order: seq<real>) returns (a: seq<real>, b: seq<real>)
    requires Sorted(s) && s != [] && multiset(order) == multiset(s)
    ensures order == a + [s[0]] + b
    ensures forall k :: 0 <= k < |a| ==> s[0] <= a[k]
    ensures multiset(a + b) == multiset(s[1..])
    ensures |a + b| == |s| - 1
  {
    var i := IndexOf(order, s[0]);
    a, b := order[..i], order[i + 1..];
    CutAt(order, i);
    NoneBelowHead(s, order, i);
    CutAt(s, 0);
    assert s[..0] + s[1..] == s[1..];
    SameMultisetSameLength(a + b, s[1..]);
  }

  /** A position of `m` in `order`, which holds a copy of it. */
  lemma IndexOf(order: seq<real>, m: real) returns (i: nat)
    requires m in multiset(order)
    ensures i < |order| && order[i] == m
  {
    assert m in order;
    i :| 0 <= i < |order| && order[i] == m;
  }

  /** No job of a permutation of the ascending `s` is shorter than `s[0]`. */
  lemma NoneBelowHead(s: seq<real>, order: seq<real>, i: nat)
    requires Sorted(s) && s != [] && multiset(order) == multiset(s) && i <= |order|
    ensures forall k :: 0 <= k < |order[..i]| ==> s[0] <= order[..i][k]
  {
    forall k | 0 <= k < |order[..i]| ensures s[0] <= order[..i][k] {
      assert order[..i][k] == order[k];
      assert order[k] in multiset(order);
      SortedHeadIsMin(s, order[k]);
    }
  }

  lemma SameMultisetSameLength(x: seq<real>, y: seq<real>)
    requires multiset(x) == multiset(y)
    ensures |x| == |y|
  {
    assert |multiset(x)| == |multiset(y)|;
  }

  /** Shortest-job-first minimises the weighted sum over all orders of the same jobs. */
  lemma {:induction false} WeightedSumMinimal(jobs: seq<real>, order: seq<real>)
    requires multiset(order) == multiset(jobs)
    ensures WeightedSum(SortAsc(jobs)) <= WeightedSum(order)
    decreases |order|
  {
    SortAscCorrect(jobs);
    var s := SortAsc(jobs);
    if order == [] {
      assert |jobs| == |multiset(jobs)| == 0;
    } else {
      assert s != [] by {
        assert order[0] in multiset(s);
      }
      var a, b := ExtractHead(s, order);
      var m, rest := s[0], s[1..];
      MoveToFront(a, m, b);
      WeightedSumMinimal(rest, a + b);
      assert SortAsc(rest) == rest by {
        assert Sorted(rest);
        SortedPermutationIsSortAsc(rest, rest);
      }
      assert s == [m] + rest;
      FrontMonotone(m, rest, a + b);
    }
  }

  /** The same job in front of two equally long orders keeps their comparison. */
  lemma FrontMonotone(m: real, r: seq<real>, t: seq<real>)
    requires |r| == |t| && WeightedSum(r) <= WeightedSum(t)
    ensures WeightedSum([m] + r) <= WeightedSum([m] + t)
  {
    WeightedSumFront(m, r);
    WeightedSumFront(m, t);
  }

  /** No order of the jobs has a smaller total flow time than the reported optimum. */
  lemma OptIsMinimal(jobs: seq<real>, order: seq<real>)
    requires multiset(order) == multiset(jobs)
    ensures OptimalFlowTime(jobs) <= FlowTime(order)
  {
    WeightedSumMinimal(jobs, order);
    WeightedSumIsFlowTime(order);
  }
}
