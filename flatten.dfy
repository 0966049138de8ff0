/**
 * Turning per-actor instruction queues into one list of (actor, instruction) pairs, the first
 * half of both instruction sorters.
 */
module Flatten {
  import opened Sorting

  /** `queue` with every element paired with `tag`, in order. */
  function Tagged<A, I>(tag: A, queue: seq<I>): (r: seq<(A, I)>)
    ensures |r| == |queue|
    ensures forall k :: 0 <= k < |queue| ==> r[k] == (tag, queue[k])
  {
    if queue == [] then []
    else Tagged(tag, queue[..|queue| - 1]) + [(tag, queue[|queue| - 1])]
  }

  /** A pair occurs in `Tagged(tag, queue)` as often as its instruction occurs in `queue`, if the tag matches. */
  lemma {:induction false} TaggedCount<A, I>(tag: A, queue: seq<I>, a: A, i: I)
    ensures multiset(Tagged(tag, queue))[(a, i)] == if a == tag then multiset(queue)[i] else 0
    decreases |queue|
  {
    if queue != [] {
      var init, last := queue[..|queue| - 1], queue[|queue| - 1];
      TaggedCount(tag, init, a, i);
      assert queue == init + [last];
      assert multiset(queue) == multiset(init) + multiset{last};
    }
  }

  /** The inner `for … in queue { push }` loops: the queue, tagged, pushed in order. */
  method AppendTagged<A, I>(prefix: seq<(A, I)>, tag: A, queue: seq<I>) returns (result: seq<(A, I)>)
    ensures result == prefix + Tagged(tag, queue)
  {
    result := prefix;
    for k := 0 to |queue|
      invariant result == prefix + Tagged(tag, queue[..k])
    {
      assert queue[..k + 1][..k] == queue[..k];
      result := result + [(tag, queue[k])];
    }
    assert queue[..|queue|] == queue;
  }

  /** `order` lists every element of `keys` exactly once: one pass of a map's iterator. */
  ghost predicate Enumerates<K(!new)>(order: seq<K>, keys: set<K>)
  {
    && (forall k :: k in keys <==> k in order)
    && (forall i, j :: 0 <= i < j < |order| ==> order[i] != order[j])
  }

  /** The comparator on pairs that looks at the instruction only (`a.1.cmp(&b.1)`). */
  function ByInstruction<A, I>(le: (I, I) -> bool): ((A, I), (A, I)) -> bool
  {
    (a: (A, I), b: (A, I)) => le(a.1, b.1)
  }

  lemma ByInstructionPreorder<A(!new), I(!new)>(le: (I, I) -> bool)
    requires TotalPreorder(le)
    ensures TotalPreorder(ByInstruction<A, I>(le))
  {
    var lifted := ByInstruction<A, I>(le);
    forall x: (A, I), y: (A, I) ensures lifted(x, y) || lifted(y, x) {
      assert lifted(x, y) == le(x.1, y.1) && lifted(y, x) == le(y.1, x.1);
    }
    forall x: (A, I), y: (A, I), z: (A, I) | lifted(x, y) && lifted(y, z) ensures lifted(x, z) {
      assert lifted(x, y) == le(x.1, y.1) && lifted(y, z) == le(y.1, z.1) && lifted(x, z) == le(x.1, z.1);
    }
  }
}
