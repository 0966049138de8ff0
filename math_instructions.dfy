/** The oldest instruction sorter: flatten the players' queues and sort (src/math/instructions.rs). */
module MathInstructions {
  import opened Common
  import opened Sorting
  import opened Flatten
  import opened LegacyTypes

  /** The queues of the players in `order`, each tagged with its player, one after the other. */
  function FlattenQueues<I>(order: seq<PlayerId>, queues: map<PlayerId, seq<I>>): seq<(PlayerId, I)>
    requires forall p :: p in order ==> p in queues
  {
    if order == [] then []
    else
      var p := order[|order| - 1];
      FlattenQueues(order[..|order| - 1], queues) + Tagged(p, queues[p])
  }

  /** Over one pass of the map, every (player, instruction) pair occurs as often as in that player's queue. */
  lemma {:induction false} FlattenQueuesCount<I>(order: seq<PlayerId>, queues: map<PlayerId, seq<I>>, p: PlayerId, i: I)
    requires forall q :: q in order ==> q in queues
    requires forall a, b :: 0 <= a < b < |order| ==> order[a] != order[b]
    ensures multiset(FlattenQueues(order, queues))[(p, i)] ==
      if p in order then multiset(queues[p])[i] else 0
    decreases |order|
  {
    if order != [] {
      var init, last := order[..|order| - 1], order[|order| - 1];
      FlattenQueuesCount(init, queues, p, i);
      TaggedCount(last, queues[last], p, i);
      assert p in order <==> p in init || p == last;
      if p == last {
        assert p !in init;
      }
    }
  }

  /** The nested loops of `sort`: one pass over the map, each queue tagged and pushed. */
  method FlattenMap<I>(instructions: map<PlayerId, seq<I>>) returns (result: seq<(PlayerId, I)>, ghost order: seq<PlayerId>)
    ensures Enumerates(order, instructions.Keys)
    ensures result == FlattenQueues(order, instructions)
  {
    result := [];
    order := [];
    var todo := instructions.Keys;
    while todo != {}
      invariant todo <= instructions.Keys
      invariant forall p :: p in instructions ==> (p in todo <==> p !in order)
      invariant forall p :: p in order ==> p in instructions
      invariant forall a, b :: 0 <= a < b < |order| ==> order[a] != order[b]
      invariant result == FlattenQueues(order, instructions)
      decreases todo
    {
      var player :| player in todo;
      result := AppendTagged(result, player, instructions[player]);
      assert (order + [player])[..|order|] == order;
      order := order + [player];
      todo := todo - {player};
    }
  }

  /** The flattened pairs, sorted, still hold every player's instructions as often as the queues do. */
  lemma SortedCounts<I(!new)>(order: seq<PlayerId>, instructions: map<PlayerId, seq<I>>, le: (I, I) -> bool, p: PlayerId, i: I)
    requires Enumerates(order, instructions.Keys)
    ensures multiset(SortBy(FlattenQueues(order, instructions), ByInstruction(le)))[(p, i)] ==
      (if p in instructions then multiset(instructions[p])[i] else 0)
  {
    FlattenQueuesCount(order, instructions, p, i);
  }

  /**
   * `sort`: every player's instructions, tagged with the player, sorted by instruction. The
   * map is visited in its iterator's order, reported as `order`; the sort is stable.
   */
  method Sort<I(!new)>(instructions: map<PlayerId, seq<I>>, le: (I, I) -> bool)
    returns (result: seq<(PlayerId, I)>, ghost order: seq<PlayerId>)
    requires TotalPreorder(le)
    ensures Enumerates(order, instructions.Keys)
    ensures result == SortBy(FlattenQueues(order, instructions), ByInstruction(le))
    ensures forall p, i :: multiset(result)[(p, i)] == (if p in instructions then multiset(instructions[p])[i] else 0)
    ensures |result| == |FlattenQueues(order, instructions)|
    ensures forall a, b :: 0 <= a < b < |result| ==> le(result[a].1, result[b].1)
  {
    var flat;
    flat, order := FlattenMap(instructions);
    result := SortBy(flat, ByInstruction(le));
    ByInstructionPreorder<PlayerId, I>(le);
    SortBySorted(flat, ByInstruction(le));
    assert SortedBy(result, ByInstruction(le));
    forall a, b | 0 <= a < b < |result|
      ensures le(result[a].1, result[b].1)
    {
      assert ByInstruction(le)(result[a], result[b]);
    }
    forall p, i ensures multiset(result)[(p, i)] ==
      (if p in instructions then multiset(instructions[p])[i] else 0)
    {
      SortedCounts(order, instructions, le, p, i);
    }
  }

  /**
   * Untargeted module use comes before targeted module use, which comes before undocking, in
   * the sorted list, whoever issued them.
   */
  lemma PinnedOrder(result: seq<(PlayerId, Instruction)>, le: (Instruction, Instruction) -> bool)
    requires RespectsPinned(le)
    requires forall a, b :: 0 <= a < b < |result| ==> le(result[a].1, result[b].1)
    ensures forall a, b :: 0 <= a < |result| && 0 <= b < |result| && PinnedBefore(result[a].1, result[b].1) ==> a < b
  {
    forall a, b | 0 <= b < a < |result|
      ensures !PinnedBefore(result[a].1, result[b].1)
    {
      assert le(result[b].1, result[a].1);
    }
  }
}
