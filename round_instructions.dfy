/**
 * The newest instruction sorter and queue cleanup (src/round/instructions.rs): players' queues
 * (after `filter_possible`) and NPC queues become one list of (actor, instruction) pairs sorted
 * by instruction only.
 */
module RoundInstructions {
  import opened Common
  import opened Sorting
  import opened Flatten
  import opened SiteTypes

  /** Each player's possible instructions, tagged with the player, for the players in `order`. */
  function PlayerPairs(t: Typings, order: seq<Player>, queues: map<Player, seq<SiteInstruction>>): seq<(Actor, SiteInstruction)>
    requires forall p :: p in order ==> p in queues
  {
    if order == [] then []
    else
      var p := order[|order| - 1];
      PlayerPairs(t, order[..|order| - 1], queues) + Tagged(ByPlayer(p), t.filterPossible(queues[p]))
  }

  /** Each NPC's instructions, tagged with its site index, in the given order. */
  function NpcPairs(npcs: seq<(nat, seq<SiteInstruction>)>): seq<(Actor, SiteInstruction)>
  {
    if npcs == [] then []
    else
      var (index, queue) := npcs[|npcs| - 1];
      NpcPairs(npcs[..|npcs| - 1]) + Tagged(ByNpc(index), queue)
  }

  /** How often `i` occurs among the queues given for NPC `index` (an index may be listed twice). */
  function NpcCount(npcs: seq<(nat, seq<SiteInstruction>)>, index: nat, i: SiteInstruction): nat
  {
    if npcs == [] then 0
    else
      var (n, queue) := npcs[|npcs| - 1];
      NpcCount(npcs[..|npcs| - 1], index, i) + (if n == index then multiset(queue)[i] else 0)
  }

  function NpcTotal(npcs: seq<(nat, seq<SiteInstruction>)>): nat
  {
    if npcs == [] then 0 else NpcTotal(npcs[..|npcs| - 1]) + |npcs[|npcs| - 1].1|
  }

  function PlayerTotal(t: Typings, order: seq<Player>, queues: map<Player, seq<SiteInstruction>>): nat
    requires forall p :: p in order ==> p in queues
  {
    if order == [] then 0
    else PlayerTotal(t, order[..|order| - 1], queues) + |t.filterPossible(queues[order[|order| - 1]])|
  }

  /** How often a pair occurs in the flattened input: the source of every count below. */
  function Expected(t: Typings, queues: map<Player, seq<SiteInstruction>>, npcs: seq<(nat, seq<SiteInstruction>)>, a: Actor, i: SiteInstruction): nat
  {
    match a
    case ByPlayer(p) => if p in queues then multiset(t.filterPossible(queues[p]))[i] else 0
    case ByNpc(index) => NpcCount(npcs, index, i)
  }

  lemma {:induction false} PlayerPairsCount(t: Typings, order: seq<Player>, queues: map<Player, seq<SiteInstruction>>, a: Actor, i: SiteInstruction)
    requires forall p :: p in order ==> p in queues
    requires forall x, y :: 0 <= x < y < |order| ==> order[x] != order[y]
    ensures multiset(PlayerPairs(t, order, queues))[(a, i)] ==
      if a.ByPlayer? && a.player in order then multiset(t.filterPossible(queues[a.player]))[i] else 0
    ensures |PlayerPairs(t, order, queues)| == PlayerTotal(t, order, queues)
    decreases |order|
  {
    if order != [] {
      var init, last := order[..|order| - 1], order[|order| - 1];
      PlayerPairsCount(t, init, queues, a, i);
      TaggedCount(ByPlayer(last), t.filterPossible(queues[last]), a, i);
      assert a.ByPlayer? ==> (a.player in order <==> a.player in init || a.player == last);
      if a.ByPlayer? && a.player == last {
        assert a.player !in init;
      }
    }
  }

  lemma {:induction false} NpcPairsCount(npcs: seq<(nat, seq<SiteInstruction>)>, a: Actor, i: SiteInstruction)
    ensures multiset(NpcPairs(npcs))[(a, i)] == if a.ByNpc? then NpcCount(npcs, a.index, i) else 0
    ensures |NpcPairs(npcs)| == NpcTotal(npcs)
    decreases |npcs|
  {
    if npcs != [] {
      NpcPairsCount(npcs[..|npcs| - 1], a, i);
      TaggedCount(ByNpc(npcs[|npcs| - 1].0), npcs[|npcs| - 1].1, a, i);
    }
  }

  /** The first loop of `sort`: every player's possible instructions, tagged, in iterator order. */
  method CollectPlayers(t: Typings, playerInstructions: map<Player, seq<SiteInstruction>>)
    returns (result: seq<(Actor, SiteInstruction)>, ghost order: seq<Player>)
    ensures Enumerates(order, playerInstructions.Keys)
    ensures result == PlayerPairs(t, order, playerInstructions)
  {
    result := [];
    order := [];
    var todo := playerInstructions.Keys;
    while todo != {}
      invariant todo <= playerInstructions.Keys
      invariant forall p :: p in playerInstructions ==> (p in todo <==> p !in order)
      invariant forall p :: p in order ==> p in playerInstructions
      invariant forall x, y :: 0 <= x < y < |order| ==> order[x] != order[y]
      invariant result == PlayerPairs(t, order, playerInstructions)
      decreases todo
    {
      var player :| player in todo;
      var possible := t.filterPossible(playerInstructions[player]);
      result := AppendTagged(result, ByPlayer(player), possible);
      assert (order + [player])[..|order|] == order;
      order := order + [player];
      todo := todo - {player};
    }
  }

  /** The second loop of `sort`: every NPC queue, tagged with its site index, appended in order. */
  method AppendNpcs(prefix: seq<(Actor, SiteInstruction)>, npcInstructions: seq<(nat, seq<SiteInstruction>)>)
    returns (result: seq<(Actor, SiteInstruction)>)
    ensures result == prefix + NpcPairs(npcInstructions)
  {
    result := prefix;
    for n := 0 to |npcInstructions|
      invariant result == prefix + NpcPairs(npcInstructions[..n])
    {
      assert npcInstructions[..n + 1][..n] == npcInstructions[..n];
      var (npc, queue) := npcInstructions[n];
      for k := 0 to |queue|
        invariant result == prefix + NpcPairs(npcInstructions[..n]) + Tagged(ByNpc(npc), queue[..k])
      {
        assert queue[..k + 1][..k] == queue[..k];
        result := result + [(ByNpc(npc), queue[k])];
      }
      assert queue[..|queue|] == queue;
    }
    assert npcInstructions[..|npcInstructions|] == npcInstructions;
  }

  /**
   * `sort`: the players' queues, each passed through `filter_possible` and tagged with its
   * player (map visited in the iterator's order, reported as `order`), then every NPC queue
   * tagged with its site index, all sorted stably by instruction. Every (actor, instruction)
   * pair occurs exactly as often as in the input, the length is the sum of the queue lengths and
   * the result is ordered by instruction alone.
   */
  method Sort(t: Typings, playerInstructions: map<Player, seq<SiteInstruction>>, npcInstructions: seq<(nat, seq<SiteInstruction>)>)
    returns (result: seq<(Actor, SiteInstruction)>, ghost order: seq<Player>)
    requires TotalPreorder(t.instructionLe)
    ensures Enumerates(order, playerInstructions.Keys)
    ensures result == SortBy(PlayerPairs(t, order, playerInstructions) + NpcPairs(npcInstructions), ByInstruction(t.instructionLe))
    ensures forall a, i :: multiset(result)[(a, i)] == Expected(t, playerInstructions, npcInstructions, a, i)
    ensures |result| == PlayerTotal(t, order, playerInstructions) + NpcTotal(npcInstructions)
    ensures forall x, y :: 0 <= x < y < |result| ==> t.instructionLe(result[x].1, result[y].1)
  {
    var players;
    players, order := CollectPlayers(t, playerInstructions);
    var flat := AppendNpcs(players, npcInstructions);
    result := SortBy(flat, ByInstruction(t.instructionLe));
    ByInstructionPreorder<Actor, SiteInstruction>(t.instructionLe);
    SortBySorted(flat, ByInstruction(t.instructionLe));
    FlatCounts(t, order, playerInstructions, npcInstructions);
  }

  /** The flattened, unsorted list already has the counts and length that the sort keeps. */
  lemma FlatCounts(t: Typings, order: seq<Player>, queues: map<Player, seq<SiteInstruction>>, npcs: seq<(nat, seq<SiteInstruction>)>)
    requires Enumerates(order, queues.Keys)
    ensures forall a, i :: multiset(PlayerPairs(t, order, queues) + NpcPairs(npcs))[(a, i)] == Expected(t, queues, npcs, a, i)
    ensures |PlayerPairs(t, order, queues) + NpcPairs(npcs)| == PlayerTotal(t, order, queues) + NpcTotal(npcs)
  {
    PlayerPairsCount(t, order, queues, ByNpc(0), SelfDestruct);
    NpcPairsCount(npcs, ByNpc(0), SelfDestruct);
    forall a, i ensures multiset(PlayerPairs(t, order, queues) + NpcPairs(npcs))[(a, i)] == Expected(t, queues, npcs, a, i)
    {
      PlayerPairsCount(t, order, queues, a, i);
      NpcPairsCount(npcs, a, i);
    }
  }

  /**
   * Untargeted module use comes before targeted module use, which comes before warping, in the
   * sorted list, whoever issued them.
   */
  lemma PinnedOrder(result: seq<(Actor, SiteInstruction)>, le: (SiteInstruction, SiteInstruction) -> bool)
    requires RespectsPinned(le)
    requires forall x, y :: 0 <= x < y < |result| ==> le(result[x].1, result[y].1)
    ensures forall x, y :: 0 <= x < |result| && 0 <= y < |result| && PinnedBefore(result[x].1, result[y].1) ==> x < y
  {
    forall x, y | 0 <= y < x < |result|
      ensures !PinnedBefore(result[x].1, result[y].1)
    {
      assert le(result[y].1, result[x].1);
    }
  }

  /**
   * `player_sorted_works`: player 2 queues a targeted then an untargeted module use, player 1 a
   * warp, no NPC has instructions and `filter_possible` keeps both queues. Whatever the map's
   * iteration order, the sorted list is player 2's untargeted use, player 2's targeted use, then
   * player 1's warp.
   */
  lemma SortedExample(t: Typings, result: seq<(Actor, SiteInstruction)>)
    requires RespectsPinned(t.instructionLe)
    requires t.filterPossible([Warp(Station(42))]) == [Warp(Station(42))]
    requires t.filterPossible([ModuleTargeted(0, 0), ModuleUntargeted(0)]) == [ModuleTargeted(0, 0), ModuleUntargeted(0)]
    requires forall a, i :: (multiset(result)[(a, i)] ==
      Expected(t, map[Telegram(1) := [Warp(Station(42))], Telegram(2) := [ModuleTargeted(0, 0), ModuleUntargeted(0)]], [], a, i))
    requires forall x, y :: 0 <= x < y < |result| ==> t.instructionLe(result[x].1, result[y].1)
    ensures result == [
      (ByPlayer(Telegram(2)), ModuleUntargeted(0)),
      (ByPlayer(Telegram(2)), ModuleTargeted(0, 0)),
      (ByPlayer(Telegram(1)), Warp(Station(42)))]
  {
    ExampleCounts(t, result);
    ExampleOrder(result, t.instructionLe);
  }

  /** Sorted by a comparison that respects the pinned order, the example's three pairs come out in one order only. */
  lemma ExampleOrder(result: seq<(Actor, SiteInstruction)>, le: (SiteInstruction, SiteInstruction) -> bool)
    requires RespectsPinned(le)
    requires forall x, y :: 0 <= x < y < |result| ==> le(result[x].1, result[y].1)
    requires multiset(result) == multiset{
      (ByPlayer(Telegram(2)), ModuleUntargeted(0)),
      (ByPlayer(Telegram(2)), ModuleTargeted(0, 0)),
      (ByPlayer(Telegram(1)), Warp(Station(42)))}
    ensures result == [
      (ByPlayer(Telegram(2)), ModuleUntargeted(0)),
      (ByPlayer(Telegram(2)), ModuleTargeted(0, 0)),
      (ByPlayer(Telegram(1)), Warp(Station(42)))]
  {
    var u, g, w := (ByPlayer(Telegram(2)), ModuleUntargeted(0)), (ByPlayer(Telegram(2)), ModuleTargeted(0, 0)), (ByPlayer(Telegram(1)), Warp(Station(42)));
    assert |result| == 3 by {
      assert |multiset(result)| == |result|;
    }
    PinnedOrder(result, le);
    assert u in multiset(result) && g in multiset(result) && w in multiset(result);
    var iu :| 0 <= iu < 3 && result[iu] == u;
    var ig :| 0 <= ig < 3 && result[ig] == g;
    var iw :| 0 <= iw < 3 && result[iw] == w;
    assert PinnedBefore(u.1, g.1) && PinnedBefore(g.1, w.1) && PinnedBefore(u.1, w.1);
    assert iu < ig < iw;
  }

  /** The example's queues yield exactly its three tagged instructions, once each. */
  lemma ExampleCounts(t: Typings, result: seq<(Actor, SiteInstruction)>)
    requires t.filterPossible([Warp(Station(42))]) == [Warp(Station(42))]
    requires t.filterPossible([ModuleTargeted(0, 0), ModuleUntargeted(0)]) == [ModuleTargeted(0, 0), ModuleUntargeted(0)]
    requires forall a, i :: (multiset(result)[(a, i)] ==
      Expected(t, map[Telegram(1) := [Warp(Station(42))], Telegram(2) := [ModuleTargeted(0, 0), ModuleUntargeted(0)]], [], a, i))
    ensures multiset(result) == multiset{
      (ByPlayer(Telegram(2)), ModuleUntargeted(0)),
      (ByPlayer(Telegram(2)), ModuleTargeted(0, 0)),
      (ByPlayer(Telegram(1)), Warp(Station(42)))}
  {
    var queues := map[Telegram(1) := [Warp(Station(42))], Telegram(2) := [ModuleTargeted(0, 0), ModuleUntargeted(0)]];
    assert multiset([ModuleTargeted(0, 0), ModuleUntargeted(0)]) == multiset{ModuleTargeted(0, 0), ModuleUntargeted(0)};
    assert multiset([Warp(Station(42))]) == multiset{Warp(Station(42))};
    var expected := multiset{
      (ByPlayer(Telegram(2)), ModuleUntargeted(0)),
      (ByPlayer(Telegram(2)), ModuleTargeted(0, 0)),
      (ByPlayer(Telegram(1)), Warp(Station(42)))};
    forall x ensures multiset(result)[x] == expected[x] {
      assert multiset(result)[(x.0, x.1)] == Expected(t, queues, [], x.0, x.1);
    }
  }

  /** `cleanup`: every queue in the map is emptied; no key is added or removed. */
  method Cleanup<K, I>(queues: map<K, seq<I>>) returns (cleared: map<K, seq<I>>)
    ensures cleared.Keys == queues.Keys
    ensures forall k :: k in cleared ==> cleared[k] == []
  {
    cleared := queues;
    var todo := queues.Keys;
    while todo != {}
      invariant todo <= queues.Keys
      invariant cleared.Keys == queues.Keys
      invariant forall k :: k in cleared && k !in todo ==> cleared[k] == []
      decreases todo
    {
      var k :| k in todo;
      cleared := cleared[k := []];
      todo := todo - {k};
    }
  }
}
