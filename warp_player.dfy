/** Warping out of and into a site in the newest round engine (src/round/warp_player.rs). */
module RoundWarpPlayer {
  import opened Common
  import opened SiteTypes
  import opened RoundEntities

  /**
   * `out`: with a living ship the player leaves the site and is in warp within the system
   * towards `towards`, and one `WarpOut` entry is logged; with a dead ship nothing changes.
   */
  method Out(t: Typings, solarsystem: Solarsystem, entities: seq<SiteEntity>, locations: map<Player, PlayerLocation>,
             ships: map<Player, Ship>, player: Player, towards: Site, log: seq<SiteLog>)
    returns (entities': seq<SiteEntity>, locations': map<Player, PlayerLocation>, log': seq<SiteLog>)
    requires player in ships
    ensures t.isAlive(ships[player].status) ==>
      && entities' == WithoutPlayer(entities, player)
      && locations' == locations[player := InWarp(solarsystem, towards)]
      && log' == log + [WarpOut(LogPlayer(player, ships[player].fitting.layout))]
    ensures !t.isAlive(ships[player].status) ==> entities' == entities && locations' == locations && log' == log
    ensures t.isAlive(ships[player].status) && multiset(entities)[PlayerEntity(player)] <= 1 ==>
      PlayerPos(entities', player).None?
    ensures PlayersHaveShips(entities, ships) ==> PlayersHaveShips(entities', ships)
  {
    entities', locations', log' := entities, locations, log;
    var ship := ships[player];
    if t.isAlive(ship.status) {
      entities' := RemovePlayer(entities, player);
      if multiset(entities)[PlayerEntity(player)] <= 1 {
        WithoutPlayerGone(entities, player);
      }
      if PlayersHaveShips(entities, ships) {
        WithoutPlayerKeepsShips(entities, ships, player);
      }
      locations' := locations[player := InWarp(solarsystem, towards)];
      log' := log + [WarpOut(LogPlayer(player, ship.fitting.layout))];
    }
  }

  /**
   * `in_site`: every arriving player, in order, gets one player entity after the existing ones,
   * the location "in this site" and one `WarpIn` log entry; every arriving player must have a
   * ship. Nobody else's location changes, and every player entity of the site still has a ship.
   */
  method InSite(solarsystem: Solarsystem, site: Site, entities: seq<SiteEntity>, locations: map<Player, PlayerLocation>,
                ships: map<Player, Ship>, warpingIn: seq<Player>, log: seq<SiteLog>)
    returns (entities': seq<SiteEntity>, locations': map<Player, PlayerLocation>, log': seq<SiteLog>)
    requires forall k :: 0 <= k < |warpingIn| ==> warpingIn[k] in ships
    ensures |entities'| == |entities| + |warpingIn| && entities'[..|entities|] == entities
    ensures forall k :: 0 <= k < |warpingIn| ==> entities'[|entities| + k] == PlayerEntity(warpingIn[k])
    ensures |log'| == |log| + |warpingIn| && log'[..|log|] == log
    ensures forall k :: 0 <= k < |warpingIn| ==>
      log'[|log| + k] == WarpIn(LogPlayer(warpingIn[k], ships[warpingIn[k]].fitting.layout))
    ensures forall p :: p in locations' <==> p in locations || p in warpingIn
    ensures forall p :: p in warpingIn ==> p in locations' && locations'[p] == PlayerLocation.InSite(solarsystem, site)
    ensures forall p :: p in locations && p !in warpingIn ==> locations'[p] == locations[p]
    ensures forall p :: p in warpingIn ==> PlayerPos(entities', p).Some?
    ensures PlayersHaveShips(entities, ships) ==> PlayersHaveShips(entities', ships)
  {
    entities', locations', log' := entities, locations, log;
    for n := 0 to |warpingIn|
      invariant |entities'| == |entities| + n && entities'[..|entities|] == entities
      invariant forall k :: 0 <= k < n ==> entities'[|entities| + k] == PlayerEntity(warpingIn[k])
      invariant |log'| == |log| + n && log'[..|log|] == log
      invariant forall k :: 0 <= k < n ==>
        log'[|log| + k] == WarpIn(LogPlayer(warpingIn[k], ships[warpingIn[k]].fitting.layout))
      invariant forall p :: p in locations' <==> p in locations || p in warpingIn[..n]
      invariant forall p :: p in warpingIn[..n] ==> p in locations' && locations'[p] == PlayerLocation.InSite(solarsystem, site)
      invariant forall p :: p in locations && p !in warpingIn[..n] ==> locations'[p] == locations[p]
    {
      var player := warpingIn[n];
      var ship := ships[player];
      assert warpingIn[..n + 1] == warpingIn[..n] + [player];
      entities' := entities' + [PlayerEntity(player)];
      locations' := locations'[player := PlayerLocation.InSite(solarsystem, site)];
      log' := log' + [WarpIn(LogPlayer(player, ship.fitting.layout))];
    }
    assert warpingIn[..|warpingIn|] == warpingIn;
    forall p | p in warpingIn
      ensures PlayerPos(entities', p).Some?
    {
      var k :| 0 <= k < |warpingIn| && warpingIn[k] == p;
      assert entities'[|entities| + k] == PlayerEntity(p);
    }
    forall j | 0 <= j < |entities'| && entities'[j].PlayerEntity? && PlayersHaveShips(entities, ships)
      ensures entities'[j].player in ships
    {
      if j < |entities| {
        assert entities'[j] == entities'[..|entities|][j];
      } else {
        assert entities'[|entities| + (j - |entities|)] == PlayerEntity(warpingIn[j - |entities|]);
      }
    }
  }
}
