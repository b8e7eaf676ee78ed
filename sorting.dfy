/**
 * Ascending sorts on real keys.
 *
 * `SortByKey` is the in-place sort the core calls on its local vectors
 * (`Vec::sort_by` with `partial_cmp` on the key); `SortAsc` is a functional
 * reference sort of reals, and `SortedUnique` says that a sorted permutation
 * of a sequence of reals is determined by its multiset, so every sort agrees
 * with the reference.
 */
module Sorting {

  /** The identity key: sorting reals by themselves. */
  function Id(x: real): real { x }

  /** `s` is ascending. */
  ghost predicate Sorted(s: seq<real>)
  {
    forall p, q :: 0 <= p < q < |s| ==> s[p] <= s[q]
  }

  /** `s` is ascending with respect to `key`. */
  ghost predicate SortedBy<T>(s: seq<T>, key: T -> real)
  {
    forall p, q :: 0 <= p < q < |s| ==> key(s[p]) <= key(s[q])
  }

  lemma SortedByIdIsSorted(s: seq<real>)
    requires SortedBy(s, Id)
    ensures Sorted(s)
  {
    forall p, q | 0 <= p < q < |s| ensures s[p] <= s[q] {
      assert Id(s[p]) <= Id(s[q]);
    }
  }

  /** Inserts `x` into `s` before the first element not smaller than it. */
  function Insert(x: real, s: seq<real>): seq<real>
  {
    if s == [] || x <= s[0] then [x] + s
    else [s[0]] + Insert(x, s[1..])
  }

  /** The reference ascending sort of a sequence of reals (insertion sort). */
  function SortAsc(s: seq<real>): seq<real>
  {
    if s == [] then [] else Insert(s[0], SortAsc(s[1..]))
  }

  lemma {:induction false} InsertPermutes(x: real, s: seq<real>)
    ensures multiset(Insert(x, s)) == multiset(s) + multiset{x}
  {
    if s != [] && s[0] < x {
      InsertPermutes(x, s[1..]);
      assert s == [s[0]] + s[1..];
    }
  }

  lemma {:induction false} InsertSorted(x: real, s: seq<real>)
    requires Sorted(s)
    ensures Sorted(Insert(x, s))
  {
    if s == [] || x <= s[0] {
      ConsSorted(x, s);
    } else {
      var t := Insert(x, s[1..]);
      InsertSorted(x, s[1..]);
      InsertPermutes(x, s[1..]);
      forall k | 0 <= k < |t| ensures s[0] <= t[k] {
        assert t[k] in multiset(s[1..]) + multiset{x};
      }
      ConsSorted(s[0], t);
    }
  }

  /** An element no larger than any of an ascending sequence can go in front of it. */
  lemma ConsSorted(h: real, t: seq<real>)
    requires Sorted(t)
    requires forall k :: 0 <= k < |t| ==> h <= t[k]
    ensures Sorted([h] + t)
  {
    forall p, q | 0 <= p < q < |[h] + t| ensures ([h] + t)[p] <= ([h] + t)[q] {
      assert ([h] + t)[q] == t[q - 1];
      if p > 0 {
        assert ([h] + t)[p] == t[p - 1];
      }
    }
  }

  /** `SortAsc` returns an ascending permutation of its input. */
  lemma {:induction false} SortAscCorrect(s: seq<real>)
    ensures Sorted(SortAsc(s))
    ensures multiset(SortAsc(s)) == multiset(s)
  {
    if s != [] {
      SortAscCorrect(s[1..]);
      InsertSorted(s[0], SortAsc(s[1..]));
      InsertPermutes(s[0], SortAsc(s[1..]));
      assert s == [s[0]] + s[1..];
    }
  }

  /** Two ascending sequences of reals with the same elements are equal. */
  lemma {:induction false} SortedUnique(a: seq<real>, b: seq<real>)
    requires Sorted(a) && Sorted(b)
    requires multiset(a) == multiset(b)
    ensures a == b
  {
    if a == [] {
      assert |b| == |multiset(b)| == 0;
    } else {
      assert |b| == |multiset(b)| == |multiset(a)| == |a|;
      assert a[0] in multiset(b);
      assert b[0] in multiset(a);
      assert a[0] == b[0] by {
        var i :| 0 <= i < |b| && b[i] == a[0];
        var j :| 0 <= j < |a| && a[j] == b[0];
        assert b[0] <= b[i] && a[0] <= a[j];
      }
      assert a == [a[0]] + a[1..];
      assert b == [b[0]] + b[1..];
      assert multiset(a) == multiset{a[0]} + multiset(a[1..]);
      assert multiset(b) == multiset{b[0]} + multiset(b[1..]);
      assert multiset(a[1..]) == multiset(a) - multiset{a[0]};
      assert multiset(b[1..]) == multiset(b) - multiset{b[0]};
      SortedUnique(a[1..], b[1..]);
    }
  }

  /** Any ascending permutation of `s` is the reference sort of `s`. */
  lemma SortedPermutationIsSortAsc(s: seq<real>, t: seq<real>)
    requires Sorted(t) && multiset(t) == multiset(s)
    ensures t == SortAsc(s)
  {
    SortAscCorrect(s);
    SortedUnique(t, SortAsc(s));
  }

  /** Exchanges `a[i]` and `a[j]`. */
  method Swap<T>(a: array<T>, i: nat, j: nat)
    requires i < a.Length && j < a.Length
    modifies a
    ensures a[i] == old(a[j]) && a[j] == old(a[i])
    ensures forall k :: 0 <= k < a.Length && k != i && k != j ==> a[k] == old(a[k])
    ensures multiset(a[..]) == multiset(old(a[..]))
  {
    a[i], a[j] := a[j], a[i];
  }

  /** `s[k]` is `a0[perm[k]]` for every position `k` of `s`. */
  ghost predicate Tracks<T>(s: seq<T>, a0: seq<T>, perm: seq<nat>)
  {
    |perm| == |s| && forall k :: 0 <= k < |s| ==> perm[k] < |a0| && s[k] == a0[perm[k]]
  }

  /**
   * The state of the insertion sort of `a0` after `i` passes: the first `i`
   * elements are ascending and are the first `i` of `a0` in some order,
   * elements with equal keys among them keep their original order, and the
   * rest is untouched.
   */
  ghost predicate Inserted<T>(s: seq<T>, a0: seq<T>, key: T -> real, perm: seq<nat>, i: nat)
  {
    && i <= |s| == |a0|
    && Tracks(s, a0, perm)
    && (forall p, q :: 0 <= p < q < i ==> key(s[p]) <= key(s[q]))
    && (forall k :: i <= k < |s| ==> perm[k] == k)
    && (forall k :: 0 <= k < i ==> perm[k] < i)
    && (forall p, q :: 0 <= p < q < i && key(s[p]) == key(s[q]) ==> perm[p] < perm[q])
  }

  /**
   * The state while element `i` of `a0` is sifted down and is now at `j`:
   * the others up to `i` are ascending, the moving one is strictly below all
   * those after it, the others up to `i` came from before `i` and keep the
   * order of their equal keys, and everything after `i` is untouched.
   */
  ghost predicate Sifting<T>(s: seq<T>, a0: seq<T>, key: T -> real, perm: seq<nat>, i: nat, j: nat)
  {
    && j <= i < |s| == |a0|
    && Tracks(s, a0, perm)
    && (forall p, q :: 0 <= p < q <= i && p != j && q != j ==> key(s[p]) <= key(s[q]))
    && (forall q :: j < q <= i ==> key(s[j]) < key(s[q]))
    && (0 < j < i ==> key(s[j - 1]) <= key(s[j + 1]))
    && perm[j] == i
    && (forall k :: 0 <= k <= i && k != j ==> perm[k] < i)
    && (forall k :: i < k < |s| ==> perm[k] == k)
    && (forall p, q :: 0 <= p < q <= i && p != j && q != j && key(s[p]) == key(s[q]) ==> perm[p] < perm[q])
  }

  /** A pass starts with the new element where it is. */
  lemma SiftStart<T>(s: seq<T>, a0: seq<T>, key: T -> real, perm: seq<nat>, i: nat)
    requires Inserted(s, a0, key, perm, i) && i < |s|
    ensures Sifting(s, a0, key, perm, i, i)
  {
  }

  /** Swapping the moving element with a strictly larger left neighbour, in both `s` and `perm`. */
  lemma SiftStep<T>(s: seq<T>, a0: seq<T>, key: T -> real, perm: seq<nat>, i: nat, j: nat)
    requires Sifting(s, a0, key, perm, i, j) && 0 < j && key(s[j]) < key(s[j - 1])
    ensures Sifting(s[j - 1 := s[j]][j := s[j - 1]], a0, key, perm[j - 1 := perm[j]][j := perm[j - 1]], i, j - 1)
  {
  }

  /** A pass ends at the front or at a left neighbour with a key no larger, and one more element is inserted. */
  lemma SiftDone<T>(s: seq<T>, a0: seq<T>, key: T -> real, perm: seq<nat>, i: nat, j: nat)
    requires Sifting(s, a0, key, perm, i, j) && (j == 0 || key(s[j - 1]) <= key(s[j]))
    ensures Inserted(s, a0, key, perm, i + 1)
  {
  }

  /**
   * Sorts `a` in place, ascending by `key`, by insertion with adjacent swaps.
   * The ghost `perm` says where each element came from: `a[k]` is the old
   * `a[perm[k]]`. The sort is stable: elements with equal keys keep their
   * original relative order.
   */
  method SortByKey<T>(a: array<T>, key: T -> real) returns (ghost perm: seq<nat>)
    modifies a
    ensures SortedBy(a[..], key)
    ensures multiset(a[..]) == multiset(old(a[..]))
    ensures |perm| == a.Length
    ensures forall k :: 0 <= k < a.Length ==> perm[k] < a.Length && a[k] == old(a[..])[perm[k]]
    ensures forall p, q :: 0 <= p < q < a.Length && key(a[p]) == key(a[q]) ==> perm[p] < perm[q]
  {
    ghost var a0 := a[..];
    perm := seq(a.Length, (k: int) requires 0 <= k => k as nat);
    var i := 0;
    while i < a.Length
      invariant 0 <= i <= a.Length
      invariant Inserted(a[..], a0, key, perm, i)
      invariant multiset(a[..]) == multiset(a0)
    {
      perm := SiftDown(a, key, i, a0, perm);
      i := i + 1;
    }
  }

  /**
   * One pass of the insertion sort: moves `a[i]` down past every strictly
   * larger key before it, so that the prefix up to `i` becomes ascending.
   * It stops at an equal key, so equal keys keep their order.
   */
  method SiftDown<T>(a: array<T>, key: T -> real, i: nat, ghost a0: seq<T>, ghost perm0: seq<nat>)
    returns (ghost perm: seq<nat>)
    requires i < a.Length
    requires Inserted(a[..], a0, key, perm0, i)
    modifies a
    ensures Inserted(a[..], a0, key, perm, i + 1)
    ensures multiset(a[..]) == multiset(old(a[..]))
  {
    perm := perm0;
    SiftStart(a[..], a0, key, perm, i);
    var j: nat := i;
    while 0 < j && key(a[j]) < key(a[j - 1])
      invariant Sifting(a[..], a0, key, perm, i, j)
      invariant multiset(a[..]) == multiset(old(a[..]))
    {
      ghost var s := a[..];
      SiftStep(s, a0, key, perm, i, j);
      Swap(a, j - 1, j);
      assert a[..] == s[j - 1 := s[j]][j := s[j - 1]];
      perm := perm[j - 1 := perm[j]][j := perm[j - 1]];
      j := j - 1;
    }
    SiftDone(a[..], a0, key, perm, i, j);
  }
}
