/** The entity directory of the newest round engine (src/round/entities.rs). */
module RoundEntities {
  import opened Common
  import opened SiteTypes

  /** `player_pos`: the first index holding the player's entity, if any. */
  function PlayerPos(entities: seq<SiteEntity>, player: Player): (r: Option<nat>)
    ensures r.Some? ==> r.value < |entities| && entities[r.value] == PlayerEntity(player)
    ensures r.Some? ==> forall j :: 0 <= j < r.value ==> entities[j] != PlayerEntity(player)
    ensures r.None? <==> forall j :: 0 <= j < |entities| ==> entities[j] != PlayerEntity(player)
  {
    if entities == [] then None
    else if entities[0] == PlayerEntity(player) then Some(0)
    else
      match PlayerPos(entities[1..], player)
      case Some(i) => Some(i + 1)
      case None => None
  }

  /** The entities with the player's first entity taken out; unchanged when the player is absent. */
  function WithoutPlayer(entities: seq<SiteEntity>, player: Player): (r: seq<SiteEntity>)
    ensures PlayerPos(entities, player).None? ==> r == entities
    ensures PlayerPos(entities, player).Some? ==> |r| == |entities| - 1
    ensures PlayerPos(entities, player).Some? ==>
      multiset(r) + multiset{PlayerEntity(player)} == multiset(entities)
  {
    match PlayerPos(entities, player)
    case None => entities
    case Some(i) =>
      assert entities == entities[..i] + [entities[i]] + entities[i + 1..];
      entities[..i] + entities[i + 1..]
  }

  /**
   * `remove_player`: `Vec::remove` at `player_pos`. When the player is there, exactly that
   * index goes and the others keep their order; when it is not, nothing changes.
   */
  method RemovePlayer(entities: seq<SiteEntity>, player: Player) returns (entities': seq<SiteEntity>)
    ensures entities' == WithoutPlayer(entities, player)
    ensures PlayerPos(entities, player).None? ==> entities' == entities
    ensures PlayerPos(entities, player).Some? ==>
      var i := PlayerPos(entities, player).value;
      && |entities'| == |entities| - 1
      && (forall j :: 0 <= j < i ==> entities'[j] == entities[j])
      && (forall j :: i <= j < |entities'| ==> entities'[j] == entities[j + 1])
  {
    entities' := entities;
    var index := PlayerPos(entities, player);
    if index.Some? {
      entities' := entities'[..index.value] + entities'[index.value + 1..];
    }
  }

  /** Every player entity of the site has a ship (what every `expect` on a player entity relies on). */
  predicate PlayersHaveShips(entities: seq<SiteEntity>, ships: map<Player, Ship>)
  {
    forall j :: 0 <= j < |entities| && entities[j].PlayerEntity? ==> entities[j].player in ships
  }

  /** Taking out the player's entity, when it occurs at most once, leaves none of it behind. */
  lemma WithoutPlayerGone(entities: seq<SiteEntity>, player: Player)
    requires multiset(entities)[PlayerEntity(player)] <= 1
    ensures PlayerPos(WithoutPlayer(entities, player), player).None?
  {
    var r := WithoutPlayer(entities, player);
    if PlayerPos(entities, player).Some? {
      assert multiset(r)[PlayerEntity(player)] == 0;
    }
    assert PlayerEntity(player) !in r;
  }

  /** Taking out one player's entity keeps every other entity. */
  lemma WithoutPlayerKeepsOthers(entities: seq<SiteEntity>, player: Player, x: SiteEntity)
    requires x != PlayerEntity(player)
    ensures x in WithoutPlayer(entities, player) <==> x in entities
  {
    var r := WithoutPlayer(entities, player);
    if PlayerPos(entities, player).Some? {
      assert multiset(r)[x] == multiset(entities)[x];
    }
  }

  /** Taking out a player's entity keeps every remaining player entity's ship. */
  lemma WithoutPlayerKeepsShips(entities: seq<SiteEntity>, ships: map<Player, Ship>, player: Player)
    requires PlayersHaveShips(entities, ships)
    ensures PlayersHaveShips(WithoutPlayer(entities, player), ships)
  {
    var r := WithoutPlayer(entities, player);
    forall j | 0 <= j < |r| && r[j].PlayerEntity?
      ensures r[j].player in ships
    {
      if PlayerPos(entities, player).Some? {
        assert multiset(r)[r[j]] <= multiset(entities)[r[j]];
      }
      assert r[j] in entities;
    }
  }

  /** What `get_mut_npc` demands: the index exists and holds an NPC (it panics otherwise). */
  predicate IsNpcAt(entities: seq<SiteEntity>, index: nat)
  {
    index < |entities| && entities[index].Npc?
  }

  /** The NPC's ship as `get_mut_npc` exposes it: fitting, status and cargo. */
  function NpcShip(entities: seq<SiteEntity>, index: nat): (r: Ship)
    requires IsNpcAt(entities, index)
    ensures Npc(entities[index].faction, r.fitting, r.status, r.cargo) == entities[index]
  {
    var npc := entities[index];
    Ship(npc.fitting, npc.status, npc.cargo)
  }

  /**
   * A write through the borrow `get_mut_npc` returns: reading back gives what was written,
   * writing back what was read is no change, the NPC keeps its faction and nothing else changes.
   */
  function WithNpcShip(entities: seq<SiteEntity>, index: nat, ship: Ship): (r: seq<SiteEntity>)
    requires IsNpcAt(entities, index)
    ensures |r| == |entities| && IsNpcAt(r, index)
    ensures r[index].faction == entities[index].faction
    ensures forall j :: 0 <= j < |r| && j != index ==> r[j] == entities[j]
    ensures NpcShip(r, index) == ship
    ensures ship == NpcShip(entities, index) ==> r == entities
  {
    entities[index := Npc(entities[index].faction, ship.fitting, ship.status, ship.cargo)]
  }

  /** `get_players`: every (index, player) of a player entity, in ascending index order. */
  function GetPlayers(entities: seq<SiteEntity>): (r: seq<(nat, Player)>)
    ensures forall k :: 0 <= k < |r| ==> r[k].0 < |entities| && entities[r[k].0] == PlayerEntity(r[k].1)
    ensures forall j :: 0 <= j < |entities| && entities[j].PlayerEntity? ==> (j, entities[j].player) in r
    ensures forall k, l :: 0 <= k < l < |r| ==> r[k].0 < r[l].0
  {
    if entities == [] then []
    else
      var n := |entities| - 1;
      var init := GetPlayers(entities[..n]);
      if entities[n].PlayerEntity? then init + [(n, entities[n].player)] else init
  }
}
