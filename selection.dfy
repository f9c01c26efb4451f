/**
 * The pruning pattern of library/scene.c: a list is walked by index and every
 * element whose flag is set is taken out with list_remove (the index then
 * stays put). What remains, and what was taken out, are the order-preserving
 * selections of the elements by their flags.
 */
module Selections {
  /** The elements among the first n of `xs` whose flag equals `want`, in their order. */
  function Selected<T>(xs: seq<T>, flags: seq<bool>, want: bool, n: nat): (r: seq<T>)
    requires |xs| == |flags| && n <= |xs|
    ensures |r| <= n
  {
    if n == 0 then []
    else Selected(xs, flags, want, n - 1) + (if flags[n - 1] == want then [xs[n - 1]] else [])
  }

  /** The elements of `xs` whose flag equals `want`, in their order. */
  function Select<T>(xs: seq<T>, flags: seq<bool>, want: bool): (r: seq<T>)
    requires |xs| == |flags|
    ensures |r| <= |xs|
  {
    Selected(xs, flags, want, |xs|)
  }

  /** No element occurs twice. */
  predicate Distinct<T(==)>(xs: seq<T>)
  {
    forall i, j :: 0 <= i < j < |xs| ==> xs[i] != xs[j]
  }

  /** An element is selected among the first n iff it occurs there at a position whose flag matches. */
  lemma {:induction false} SelectedMembers<T>(xs: seq<T>, flags: seq<bool>, want: bool, n: nat, x: T)
    requires |xs| == |flags| && n <= |xs|
    ensures x in Selected(xs, flags, want, n) <==> exists i :: 0 <= i < n && xs[i] == x && flags[i] == want
  {
    if n > 0 {
      SelectedMembers(xs, flags, want, n - 1, x);
      if exists i :: 0 <= i < n && xs[i] == x && flags[i] == want {
        var i :| 0 <= i < n && xs[i] == x && flags[i] == want;
        if i < n - 1 {
          assert x in Selected(xs, flags, want, n - 1);
        }
      }
    }
  }

  /** An element is selected iff it occurs in `xs` at a position whose flag matches. */
  lemma SelectMembers<T>(xs: seq<T>, flags: seq<bool>, want: bool, x: T)
    requires |xs| == |flags|
    ensures x in Select(xs, flags, want) <==> exists i :: 0 <= i < |xs| && xs[i] == x && flags[i] == want
  {
    SelectedMembers(xs, flags, want, |xs|, x);
  }

  /** One more element adds itself to the selection whose flag it carries, and nothing to the other. */
  lemma SelectedStep<T>(xs: seq<T>, flags: seq<bool>, want: bool, n: nat)
    requires |xs| == |flags| && 0 < n <= |xs|
    ensures flags[n - 1] == want ==> Selected(xs, flags, want, n) == Selected(xs, flags, want, n - 1) + [xs[n - 1]]
    ensures flags[n - 1] != want ==> Selected(xs, flags, want, n) == Selected(xs, flags, want, n - 1)
  {
  }

  /** Among the first n elements, what is kept and what is taken out together make up those n. */
  ghost predicate Partitioned<T>(xs: seq<T>, flags: seq<bool>, n: nat)
    requires |xs| == |flags| && n <= |xs|
  {
    multiset(Selected(xs, flags, false, n)) + multiset(Selected(xs, flags, true, n)) == multiset(xs[..n])
  }

  /** Among the first n elements, what is kept and what is taken out together make up those n. */
  lemma {:induction false} SelectedPartition<T>(xs: seq<T>, flags: seq<bool>, n: nat)
    requires |xs| == |flags| && 0 < n <= |xs|
    ensures Partitioned(xs, flags, n)
  {
    if n == 1 {
      PartitionBase(xs, flags);
    } else {
      SelectedPartition(xs, flags, n - 1);
    }
    PartitionStep(xs, flags, n);
  }

  /** Nothing is kept or taken out of no elements. */
  lemma PartitionBase<T>(xs: seq<T>, flags: seq<bool>)
    requires |xs| == |flags|
    ensures Partitioned(xs, flags, 0)
  {
    assert xs[..0] == [];
  }

  /** The partition of the first n - 1 elements extends to the first n. */
  lemma PartitionStep<T>(xs: seq<T>, flags: seq<bool>, n: nat)
    requires |xs| == |flags| && 0 < n <= |xs|
    requires Partitioned(xs, flags, n - 1)
    ensures Partitioned(xs, flags, n)
  {
    var kept, out := Selected(xs, flags, false, n - 1), Selected(xs, flags, true, n - 1);
    var last := multiset{xs[n - 1]};
    SelectedStep(xs, flags, false, n);
    SelectedStep(xs, flags, true, n);
    PrefixMultiset(xs, n);
    if flags[n - 1] {
      calc {
        multiset(Selected(xs, flags, false, n)) + multiset(Selected(xs, flags, true, n));
        multiset(kept) + multiset(out + [xs[n - 1]]);
        multiset(kept) + multiset(out) + last;
      }
    } else {
      calc {
        multiset(Selected(xs, flags, false, n)) + multiset(Selected(xs, flags, true, n));
        multiset(kept + [xs[n - 1]]) + multiset(out);
        multiset(kept) + multiset(out) + last;
      }
    }
  }

  /** A prefix one element longer counts that element once more. */
  lemma PrefixMultiset<T>(xs: seq<T>, n: nat)
    requires 0 < n <= |xs|
    ensures multiset(xs[..n]) == multiset(xs[..n - 1]) + multiset{xs[n - 1]}
  {
    assert xs[..n] == xs[..n - 1] + [xs[n - 1]];
  }

  /** What is kept and what is taken out together make up the list: nothing is lost or duplicated. */
  lemma SelectPartition<T>(xs: seq<T>, flags: seq<bool>)
    requires |xs| == |flags|
    ensures multiset(Select(xs, flags, false)) + multiset(Select(xs, flags, true)) == multiset(xs)
  {
    if xs == [] {
      PartitionBase(xs, flags);
    } else {
      SelectedPartition(xs, flags, |xs|);
    }
    assert xs[..|xs|] == xs;
    assert Partitioned(xs, flags, |xs|);
  }

  /** A selection from a list without repeats has no repeats. */
  lemma {:induction false} SelectedDistinct<T>(xs: seq<T>, flags: seq<bool>, want: bool, n: nat)
    requires |xs| == |flags| && n <= |xs| && Distinct(xs)
    ensures Distinct(Selected(xs, flags, want, n))
  {
    if n > 0 {
      SelectedDistinct(xs, flags, want, n - 1);
      if flags[n - 1] == want {
        var s := Selected(xs, flags, want, n - 1);
        forall i | 0 <= i < |s|
          ensures s[i] != xs[n - 1]
        {
          SelectedMembers(xs, flags, want, n - 1, s[i]);
        }
      }
    }
  }

  /** A selection from a list without repeats has no repeats. */
  lemma SelectDistinct<T>(xs: seq<T>, flags: seq<bool>, want: bool)
    requires |xs| == |flags| && Distinct(xs)
    ensures Distinct(Select(xs, flags, want))
  {
    SelectedDistinct(xs, flags, want, |xs|);
  }

  /** When no flag among the first n matches, nothing is selected. */
  lemma {:induction false} SelectNone<T>(xs: seq<T>, flags: seq<bool>, want: bool, n: nat)
    requires |xs| == |flags| && n <= |xs| && forall i :: 0 <= i < |flags| ==> flags[i] != want
    ensures Selected(xs, flags, want, n) == []
  {
    if n > 0 {
      SelectNone(xs, flags, want, n - 1);
    }
  }

  /** When every flag matches, the whole prefix is selected. */
  lemma {:induction false} SelectAll<T>(xs: seq<T>, flags: seq<bool>, want: bool, n: nat)
    requires |xs| == |flags| && n <= |xs| && forall i :: 0 <= i < |flags| ==> flags[i] == want
    ensures Selected(xs, flags, want, n) == xs[..n]
  {
    if n > 0 {
      SelectAll(xs, flags, want, n - 1);
      assert xs[..n] == xs[..n - 1] + [xs[n - 1]];
    }
  }

  /**
   * The state of a walk by index over `xs` that takes out the flagged
   * elements, after k elements were visited: `cur` holds the kept ones
   * followed by the unvisited rest, `i` is the index of the first unvisited
   * element in `cur`, and `out` holds the elements taken out, in order.
   */
  ghost predicate Walking<T>(xs: seq<T>, flags: seq<bool>, k: nat, cur: seq<T>, i: nat, out: seq<T>)
  {
    && |xs| == |flags| && k <= |xs|
    && cur == Selected(xs, flags, false, k) + xs[k..]
    && i == |Selected(xs, flags, false, k)|
    && |cur| == i + |xs| - k
    && out == Selected(xs, flags, true, k)
  }

  /** A walk starts with the whole list, at index 0, with nothing taken out. */
  lemma WalkStart<T>(xs: seq<T>, flags: seq<bool>)
    requires |xs| == |flags|
    ensures Walking(xs, flags, 0, xs, 0, [])
  {
  }

  /** While the index is inside the list, it points at the k-th element of the original. */
  lemma WalkAt<T>(xs: seq<T>, flags: seq<bool>, k: nat, cur: seq<T>, i: nat, out: seq<T>)
    requires Walking(xs, flags, k, cur, i, out) && i < |cur|
    ensures k < |xs| && cur[i] == xs[k]
  {
  }

  /** Taking out the flagged element at the index leaves the walk one element further, the index put. */
  lemma WalkDrop<T>(xs: seq<T>, flags: seq<bool>, k: nat, cur: seq<T>, i: nat, out: seq<T>)
    requires Walking(xs, flags, k, cur, i, out) && i < |cur| && flags[k]
    ensures Walking(xs, flags, k + 1, cur[..i] + cur[i + 1..], i, out + [cur[i]])
  {
    assert cur[..i] == Selected(xs, flags, false, k);
    assert cur[i + 1..] == xs[k + 1..];
  }

  /** Stepping past an element that is not flagged leaves the walk one element further, the index moved on. */
  lemma WalkKeep<T>(xs: seq<T>, flags: seq<bool>, k: nat, cur: seq<T>, i: nat, out: seq<T>)
    requires Walking(xs, flags, k, cur, i, out) && i < |cur| && !flags[k]
    ensures Walking(xs, flags, k + 1, cur, i + 1, out)
  {
    assert xs[k..] == [xs[k]] + xs[k + 1..];
  }

  /** When the index reaches the end, every element was visited: the list is the kept selection. */
  lemma WalkEnd<T>(xs: seq<T>, flags: seq<bool>, k: nat, cur: seq<T>, i: nat, out: seq<T>)
    requires Walking(xs, flags, k, cur, i, out) && i >= |cur|
    ensures k == |xs| && cur == Select(xs, flags, false) && out == Select(xs, flags, true)
  {
  }
}
