/**
 * The stable sort behind `Vec::sort_by` and `Vec::sort`, over a comparator supplied by the
 * caller. The comparator stands for a derived `Ord` that is not part of this model; the only
 * thing assumed of it is that it is a total preorder.
 */
module Sorting {

  ghost predicate TotalPreorder<T(!new)>(le: (T, T) -> bool)
  {
    && (forall a, b :: le(a, b) || le(b, a))
    && (forall a, b, c :: le(a, b) && le(b, c) ==> le(a, c))
  }

  predicate SortedBy<T>(s: seq<T>, le: (T, T) -> bool)
  {
    forall i, j :: 0 <= i < j < |s| ==> le(s[i], s[j])
  }

  /**
   * Inserts `x` after every element that is not greater than it: on a sorted `s` this puts
   * `x` behind all its equals, which is what a stable sort does with a later element.
   */
  function InsertStable<T>(s: seq<T>, x: T, le: (T, T) -> bool): (r: seq<T>)
    ensures multiset(r) == multiset(s) + multiset{x}
    ensures |r| == |s| + 1
  {
    if s == [] then [x]
    else if le(s[|s| - 1], x) then s + [x]
    else
      assert s == s[..|s| - 1] + [s[|s| - 1]];
      InsertStable(s[..|s| - 1], x, le) + [s[|s| - 1]]
  }

  /** Stable sort by `le`: the unique sorted rearrangement that keeps equals in input order. */
  function SortBy<T>(s: seq<T>, le: (T, T) -> bool): (r: seq<T>)
    ensures multiset(r) == multiset(s)
    ensures |r| == |s|
  {
    if s == [] then []
    else
      assert s == s[..|s| - 1] + [s[|s| - 1]];
      InsertStable(SortBy(s[..|s| - 1], le), s[|s| - 1], le)
  }

  /** Appending an element that no element exceeds keeps a sequence sorted. */
  lemma SnocSorted<T>(s: seq<T>, x: T, le: (T, T) -> bool)
    requires SortedBy(s, le)
    requires forall k :: 0 <= k < |s| ==> le(s[k], x)
    ensures SortedBy(s + [x], le)
  {
    forall i, j | 0 <= i < j < |s| + 1
      ensures le((s + [x])[i], (s + [x])[j])
    {
      if j == |s| {
        assert (s + [x])[i] == s[i];
      }
    }
  }

  /** Every element of a sorted sequence is bounded by an element its last one is bounded by. */
  lemma BoundedByLast<T(!new)>(s: seq<T>, x: T, le: (T, T) -> bool)
    requires TotalPreorder(le)
    requires SortedBy(s, le) && s != [] && le(s[|s| - 1], x)
    ensures forall k :: 0 <= k < |s| ==> le(s[k], x)
  {
    forall k | 0 <= k < |s|
      ensures le(s[k], x)
    {
      if k < |s| - 1 {
        assert le(s[k], s[|s| - 1]);
      }
    }
  }

  lemma {:induction false} InsertStableSorted<T(!new)>(s: seq<T>, x: T, le: (T, T) -> bool)
    requires TotalPreorder(le)
    requires SortedBy(s, le)
    ensures SortedBy(InsertStable(s, x, le), le)
    decreases |s|
  {
    if s == [] {
    } else if le(s[|s| - 1], x) {
      BoundedByLast(s, x, le);
      SnocSorted(s, x, le);
    } else {
      var init, last := s[..|s| - 1], s[|s| - 1];
      assert SortedBy(init, le);
      InsertStableSorted(init, x, le);
      var ins := InsertStable(init, x, le);
      forall k | 0 <= k < |ins|
        ensures le(ins[k], last)
      {
        assert ins[k] in multiset(ins);
        if ins[k] != x {
          assert ins[k] in multiset(init);
          var m :| 0 <= m < |init| && init[m] == ins[k];
          assert s[m] == init[m];
        }
      }
      SnocSorted(ins, last, le);
    }
  }

  /** `SortBy` yields a sorted sequence. */
  lemma {:induction false} SortBySorted<T(!new)>(s: seq<T>, le: (T, T) -> bool)
    requires TotalPreorder(le)
    ensures SortedBy(SortBy(s, le), le)
    decreases |s|
  {
    if s != [] {
      SortBySorted(s[..|s| - 1], le);
      InsertStableSorted(SortBy(s[..|s| - 1], le), s[|s| - 1], le);
    }
  }

  /** A prefix of a sorted sequence is sorted. */
  lemma SortedPrefix<T>(s: seq<T>, n: nat, le: (T, T) -> bool)
    requires SortedBy(s, le) && n <= |s|
    ensures SortedBy(s[..n], le)
  {
    forall i, j | 0 <= i < j < n
      ensures le(s[..n][i], s[..n][j])
    {
      assert s[..n][i] == s[i] && s[..n][j] == s[j];
    }
  }

  /** A last element no smaller than the one before it is inserted back at the end. */
  lemma InsertAtEnd<T>(s: seq<T>, le: (T, T) -> bool)
    requires |s| == 1 || (|s| >= 2 && le(s[|s| - 2], s[|s| - 1]))
    ensures InsertStable(s[..|s| - 1], s[|s| - 1], le) == s
  {
    var init := s[..|s| - 1];
    assert |s| >= 2 ==> init[|init| - 1] == s[|s| - 2];
    assert init + [s[|s| - 1]] == s;
  }

  /** The last two elements of a sorted sequence are in order. */
  lemma SortedLastPair<T>(s: seq<T>, le: (T, T) -> bool)
    requires SortedBy(s, le) && |s| >= 2
    ensures le(s[|s| - 2], s[|s| - 1])
  {
  }

  /** Stability, seen from outside: input that is already sorted comes back unchanged. */
  lemma {:induction false} SortByKeepsSorted<T>(s: seq<T>, le: (T, T) -> bool)
    requires SortedBy(s, le)
    ensures SortBy(s, le) == s
    decreases |s|
  {
    if s != [] {
      var n := |s| - 1;
      SortedPrefix(s, n, le);
      SortByKeepsSorted(s[..n], le);
      if n > 0 {
        SortedLastPair(s, le);
      }
      InsertAtEnd(s, le);
    }
  }
}
