/**
 * `Array.prototype.filter` over a sequence: the elements that the callback
 * keeps, in their original order.
 */
module Filtering {

  /** The kept elements of `s`, in order. */
  function Filter<T>(s: seq<T>, keep: T -> bool): (r: seq<T>)
    ensures |r| <= |s|
  {
    if s == [] then []
    else
      var n := |s| - 1;
      Filter(s[..n], keep) + (if keep(s[n]) then [s[n]] else [])
  }

  /**
   * Soundness and completeness: an element is in the result exactly when it
   * is an element of `s` that the callback keeps.
   */
  lemma {:induction false} FilterMembership<T>(s: seq<T>, keep: T -> bool, x: T)
    ensures x in Filter(s, keep) <==> x in s && keep(x)
  {
    if s != [] {
      var n := |s| - 1;
      FilterMembership(s[..n], keep, x);
      assert s == s[..n] + [s[n]];
    }
  }

  /**
   * The positions of `s` whose element is kept, in increasing order: every
   * listed position is kept and every kept position is listed.
   */
  function KeptIndices<T>(s: seq<T>, keep: T -> bool): (idx: seq<nat>)
    ensures forall k | 0 <= k < |idx| :: idx[k] < |s| && keep(s[idx[k]])
    ensures forall k, l | 0 <= k < l < |idx| :: idx[k] < idx[l]
    ensures forall i | 0 <= i < |s| && keep(s[i]) :: i in idx
  {
    if s == [] then []
    else
      var n := |s| - 1;
      KeptIndices(s[..n], keep) + (if keep(s[n]) then [n] else [])
  }

  /** The filtered sequence is `s` read at `KeptIndices`: nothing reordered, duplicated or invented. */
  lemma {:induction false} FilterIsSubsequence<T>(s: seq<T>, keep: T -> bool)
    ensures |Filter(s, keep)| == |KeptIndices(s, keep)|
    ensures forall k | 0 <= k < |KeptIndices(s, keep)| :: Filter(s, keep)[k] == s[KeptIndices(s, keep)[k]]
  {
    if s != [] {
      var n := |s| - 1;
      FilterIsSubsequence(s[..n], keep);
      var idx := KeptIndices(s[..n], keep);
      forall k | 0 <= k < |idx|
        ensures Filter(s[..n], keep)[k] == s[idx[k]]
      {
        assert s[..n][idx[k]] == s[idx[k]];
      }
    }
  }

  /** Appending an element appends it to the result exactly when it is kept. */
  lemma FilterAppend<T>(s: seq<T>, x: T, keep: T -> bool)
    ensures Filter(s + [x], keep) == Filter(s, keep) + (if keep(x) then [x] else [])
  {
    assert (s + [x])[..|s|] == s;
  }

  /** When every element is kept the result is `s` itself. */
  lemma {:induction false} FilterKeepsAll<T>(s: seq<T>, keep: T -> bool)
    requires forall i | 0 <= i < |s| :: keep(s[i])
    ensures Filter(s, keep) == s
  {
    if s != [] {
      var n := |s| - 1;
      FilterKeepsAll(s[..n], keep);
      assert s == s[..n] + [s[n]];
    }
  }

  /** When no element is kept the result is empty. */
  lemma {:induction false} FilterKeepsNone<T>(s: seq<T>, keep: T -> bool)
    requires forall i | 0 <= i < |s| :: !keep(s[i])
    ensures Filter(s, keep) == []
  {
    if s != [] {
      FilterKeepsNone(s[..|s| - 1], keep);
    }
  }

  /** Two callbacks that agree on the elements of `s` keep the same elements. */
  lemma {:induction false} FilterCongruent<T>(s: seq<T>, keep1: T -> bool, keep2: T -> bool)
    requires forall i | 0 <= i < |s| :: keep1(s[i]) == keep2(s[i])
    ensures Filter(s, keep1) == Filter(s, keep2)
  {
    if s != [] {
      FilterCongruent(s[..|s| - 1], keep1, keep2);
    }
  }

  /** Filtering by a conjunction is filtering by the first test, then by the second. */
  lemma {:induction false} FilterConjunction<T>(s: seq<T>, first: T -> bool, second: T -> bool, both: T -> bool)
    requires forall i | 0 <= i < |s| :: both(s[i]) == (first(s[i]) && second(s[i]))
    ensures Filter(s, both) == Filter(Filter(s, first), second)
  {
    if s != [] {
      var n := |s| - 1;
      FilterConjunction(s[..n], first, second, both);
      var once := Filter(s[..n], first);
      if first(s[n]) {
        FilterAppend(once, s[n], second);
      } else {
        assert Filter(s, first) == once;
      }
    }
  }
}
