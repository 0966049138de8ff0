/**
 * Instructions of the NPCs of one site (src/gameloop/site_round/npc_instructions.rs): guards
 * stay idle, every pirate fires each of its targeted modules at the first player of the site.
 */
module NpcInstructions {
  import opened Common
  import opened LatestTypes
  import SiteTypes

  /** `get_players`: every (index, player) of a player entity, in ascending index order. */
  function GetPlayers(entities: seq<Entity>): (r: seq<(nat, SiteTypes.Player)>)
    ensures forall k :: 0 <= k < |r| ==>
      r[k].0 < |entities| && entities[r[k].0].PlayerEntity? && entities[r[k].0].player == r[k].1
    ensures forall j :: 0 <= j < |entities| && entities[j].PlayerEntity? ==> (j, entities[j].player) in r
    ensures forall k, l :: 0 <= k < l < |r| ==> r[k].0 < r[l].0
  {
    if entities == [] then []
    else
      var n := |entities| - 1;
      var init := GetPlayers(entities[..n]);
      if entities[n].PlayerEntity? then init + [(n, entities[n].player)] else init
  }

  /** The first listed player is the player entity with the smallest index; none is listed only when there is none. */
  lemma FirstPlayer(entities: seq<Entity>)
    ensures GetPlayers(entities) == [] <==> forall j :: 0 <= j < |entities| ==> !entities[j].PlayerEntity?
    ensures GetPlayers(entities) != [] ==>
      var first := GetPlayers(entities)[0].0;
      && entities[first].PlayerEntity?
      && forall j :: 0 <= j < first ==> !entities[j].PlayerEntity?
  {
    var r := GetPlayers(entities);
    forall j | 0 <= j < |entities| && entities[j].PlayerEntity?
      ensures r != [] && r[0].0 <= j
    {
      assert (j, entities[j].player) in r;
    }
  }

  predicate IsPirate(entities: seq<Entity>, index: nat)
  {
    index < |entities| && entities[index].NpcEntity? && entities[index].faction == Pirates
  }

  /**
   * What a pirate flying `ship` orders: nothing when the site has no player, otherwise one
   * targeted module use per targeted slot, slot by slot, all at the first player. Both indices
   * pass through the source's `as u8` casts, which keep the low eight bits.
   */
  predicate Attacks(entities: seq<Entity>, ship: Ship, orders: seq<SiteTypes.SiteInstruction>)
  {
    var players := GetPlayers(entities);
    if players == [] then orders == []
    else
      && |orders| == |ship.fitting.slotsTargeted|
      && forall m :: 0 <= m < |orders| ==>
        orders[m] == SiteTypes.ModuleTargeted(m % 256, players[0].0 % 256)
  }

  /** The orders of one pirate: the inner loop of `generate`. */
  method PirateOrders(entities: seq<Entity>, ship: Ship) returns (orders: seq<SiteTypes.SiteInstruction>)
    ensures Attacks(entities, ship, orders)
  {
    orders := [];
    var players := GetPlayers(entities);
    if players != [] {
      var target := players[0].0;
      var slots := |ship.fitting.slotsTargeted|;
      for m := 0 to slots
        invariant |orders| == m
        invariant forall k :: 0 <= k < m ==> orders[k] == SiteTypes.ModuleTargeted(k % 256, target % 256)
      {
        orders := orders + [SiteTypes.ModuleTargeted(m % 256, target % 256)];
      }
    }
  }

  /** The site indices of the pirates among the first `n` entities, in ascending order. */
  function PirateIndices(entities: seq<Entity>, n: nat): (r: seq<nat>)
    requires n <= |entities|
    ensures forall k :: 0 <= k < |r| ==> r[k] < n && IsPirate(entities, r[k])
    ensures forall j :: 0 <= j < n && IsPirate(entities, j) ==> j in r
    ensures forall k, l :: 0 <= k < l < |r| ==> r[k] < r[l]
  {
    if n == 0 then []
    else
      var init := PirateIndices(entities, n - 1);
      if IsPirate(entities, n - 1) then init + [n - 1] else init
  }

  /** Entry `k` of `result` holds the `k`-th listed pirate and that pirate's attack orders. */
  predicate PirateEntries(entities: seq<Entity>, pirates: seq<nat>, result: seq<(nat, seq<SiteTypes.SiteInstruction>)>)
  {
    && |result| == |pirates|
    && forall k :: 0 <= k < |result| ==>
      && result[k].0 == pirates[k]
      && IsPirate(entities, result[k].0)
      && Attacks(entities, entities[result[k].0].ship, result[k].1)
  }

  /**
   * `generate`: one entry per pirate, keyed by its site index, in ascending index order; guards
   * and every other entity contribute nothing.
   */
  method Generate(site: SiteTypes.Site, entities: seq<Entity>) returns (result: seq<(nat, seq<SiteTypes.SiteInstruction>)>)
    ensures PirateEntries(entities, PirateIndices(entities, |entities|), result)
  {
    result := [];
    for i := 0 to |entities|
      invariant PirateEntries(entities, PirateIndices(entities, i), result)
    {
      var entity := entities[i];
      if entity.NpcEntity? {
        match entity.faction {
          case Guards =>
          case Pirates =>
            var orders := PirateOrders(entities, entity.ship);
            AppendEntry(entities, PirateIndices(entities, i), result, i, orders);
            result := result + [(i, orders)];
        }
      }
    }
  }

  /** One more pirate's entry at the end of the list. */
  lemma AppendEntry(entities: seq<Entity>, pirates: seq<nat>, result: seq<(nat, seq<SiteTypes.SiteInstruction>)>,
                    i: nat, orders: seq<SiteTypes.SiteInstruction>)
    requires PirateEntries(entities, pirates, result)
    requires IsPirate(entities, i) && Attacks(entities, entities[i].ship, orders)
    ensures PirateEntries(entities, pirates + [i], result + [(i, orders)])
  {
  }

  /** Every entry of `generate` is a pirate, every pirate has exactly one entry, and the entries ascend. */
  lemma GenerateListsPirates(entities: seq<Entity>, result: seq<(nat, seq<SiteTypes.SiteInstruction>)>)
    requires PirateEntries(entities, PirateIndices(entities, |entities|), result)
    ensures forall k :: 0 <= k < |result| ==> IsPirate(entities, result[k].0)
    ensures forall j :: 0 <= j < |entities| && IsPirate(entities, j) ==>
      exists k :: 0 <= k < |result| && result[k].0 == j
    ensures forall k, l :: 0 <= k < l < |result| ==> result[k].0 < result[l].0
  {
    var pirates := PirateIndices(entities, |entities|);
    forall j | 0 <= j < |entities| && IsPirate(entities, j)
      ensures exists k :: 0 <= k < |result| && result[k].0 == j
    {
      var k :| 0 <= k < |pirates| && pirates[k] == j;
      assert result[k].0 == j;
    }
  }

  /** A site with no player: every pirate's entry is empty. */
  lemma NoPlayersNoOrders(entities: seq<Entity>, ship: Ship, orders: seq<SiteTypes.SiteInstruction>)
    requires forall j :: 0 <= j < |entities| ==> !entities[j].PlayerEntity?
    requires Attacks(entities, ship, orders)
    ensures orders == []
  {
    FirstPlayer(entities);
  }

  /** With a player present, every order of a pirate aims at the player entity with the smallest index. */
  lemma OrdersAimAtFirstPlayer(entities: seq<Entity>, ship: Ship, orders: seq<SiteTypes.SiteInstruction>, m: nat)
    requires |entities| <= 256
    requires Attacks(entities, ship, orders)
    requires m < |orders|
    ensures orders[m].ModuleTargeted?
    ensures orders[m].targetIndexInSite < |entities| && entities[orders[m].targetIndexInSite].PlayerEntity?
    ensures forall j :: 0 <= j < orders[m].targetIndexInSite ==> !entities[j].PlayerEntity?
  {
    FirstPlayer(entities);
  }
}
