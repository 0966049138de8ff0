/**
 * Station and stargate services of the newest round engine (src/round/facility.rs): a living
 * ship leaves the site, its player gets a new location and the site log records it; a dead ship
 * stays where it is.
 */
module RoundFacility {
  import opened Common
  import opened SiteTypes
  import opened RoundEntities

  /**
   * `jump`, only possible from a stargate (the source panics elsewhere). With a living ship the
   * player leaves the site and warps in the target system towards the stargate back to the
   * origin system, and one `Jump` entry is logged; with a dead ship nothing changes. The player
   * ships are only read.
   */
  method Jump(t: Typings, originSolarsystem: Solarsystem, originSite: Site, entities: seq<SiteEntity>,
              locations: map<Player, PlayerLocation>, ships: map<Player, Ship>, player: Player, log: seq<SiteLog>)
    returns (entities': seq<SiteEntity>, locations': map<Player, PlayerLocation>, log': seq<SiteLog>)
    requires originSite.Stargate?
    requires player in ships
    ensures t.isAlive(ships[player].status) ==>
      && entities' == WithoutPlayer(entities, player)
      && locations' == locations[player := InWarp(originSite.towards, Stargate(originSolarsystem))]
      && log' == log + [JumpLog(LogPlayer(player, ships[player].fitting.layout))]
    ensures !t.isAlive(ships[player].status) ==> entities' == entities && locations' == locations && log' == log
    ensures t.isAlive(ships[player].status) && multiset(entities)[PlayerEntity(player)] <= 1 ==>
      PlayerPos(entities', player).None?
    ensures PlayersHaveShips(entities, ships) ==> PlayersHaveShips(entities', ships)
  {
    entities', locations', log' := entities, locations, log;
    var ship := ships[player];
    if t.isAlive(ship.status) {
      entities' := RemovePlayer(entities, player);
      if multiset(entities)[PlayerEntity(player)] <= 1 {
        WithoutPlayerGone(entities, player);
      }
      if PlayersHaveShips(entities, ships) {
        WithoutPlayerKeepsShips(entities, ships, player);
      }
      locations' := locations[player := InWarp(originSite.towards, Stargate(originSolarsystem))];
      log' := log + [JumpLog(LogPlayer(player, ship.fitting.layout))];
    }
  }

  /**
   * `dock`: with a living ship the player leaves the site and is docked at station 0 of the
   * system, and one `Dock` entry is logged; with a dead ship nothing changes. The player ships
   * are only read.
   */
  method Dock(t: Typings, solarsystem: Solarsystem, site: Site, entities: seq<SiteEntity>,
              locations: map<Player, PlayerLocation>, ships: map<Player, Ship>, player: Player, log: seq<SiteLog>)
    returns (entities': seq<SiteEntity>, locations': map<Player, PlayerLocation>, log': seq<SiteLog>)
    requires player in ships
    ensures t.isAlive(ships[player].status) ==>
      && entities' == WithoutPlayer(entities, player)
      && locations' == locations[player := Docked(solarsystem, 0)]
      && log' == log + [DockLog(LogPlayer(player, ships[player].fitting.layout))]
    ensures !t.isAlive(ships[player].status) ==> entities' == entities && locations' == locations && log' == log
    ensures t.isAlive(ships[player].status) && multiset(entities)[PlayerEntity(player)] <= 1 ==>
      PlayerPos(entities', player).None?
    ensures PlayersHaveShips(entities, ships) ==> PlayersHaveShips(entities', ships)
  {
    entities', locations', log' := entities, locations, log;
    var ship := ships[player];
    if t.isAlive(ship.status) {
      entities' := RemovePlayer(entities, player);
      if multiset(entities)[PlayerEntity(player)] <= 1 {
        WithoutPlayerGone(entities, player);
      }
      if PlayersHaveShips(entities, ships) {
        WithoutPlayerKeepsShips(entities, ships, player);
      }
      locations' := locations[player := Docked(solarsystem, 0)];
      log' := log + [DockLog(LogPlayer(player, ship.fitting.layout))];
    }
  }
}
