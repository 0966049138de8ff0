/**
 * The middle round engine (src/round/mod.rs): instructions are resolved one by one in sorted
 * order (module use, docking, jumping and warping alike), then passives are applied, statuses
 * are clamped to the layout and the dead are dropped, players warping in are admitted and the
 * instruction queues are cleared. Players are named by string identifiers and entities of
 * players carry only that identifier.
 */
module RoundMod {
  import opened Common
  import Legacy = LegacyTypes
  import SiteTypes
  import RoundInstructions

  type PlayerId = string
  type Ship = Legacy.Ship
  type PlayerLocation = Legacy.PlayerLocation

  datatype Instruction =
    | ModuleUntargeted(moduleIndex: u8)
    | ModuleTargeted(moduleIndex: u8, targetIndexInSite: u8)
    | Facility(service: Service)
    | Warp(siteUnique: string)

  datatype SiteEntity =
    | FacilityEntity(facility: string)
    | Lifeless(lifeless: string, status: Status)
    | Npc(faction: NpcFaction, fitting: Fitting, status: Status)
    | PlayerEntity(id: PlayerId)

  /**
   * What this engine calls but this model does not contain: `site_instructions::sort`, the
   * static module and layout tables (lookups that cannot miss), `apply_to_origin` (all or
   * nothing), `apply_to_target`, `Status::min_layout`, `Status::is_alive`, the stargate
   * site-name parse and `Info::generate_stargate`.
   */
  datatype Typings = Typings(
    sort: map<PlayerId, seq<Instruction>> -> seq<(PlayerId, Instruction)>,
    modulesUntargeted: ModuleId -> seq<SiteTypes.RoundEffect>,
    modulesTargeted: ModuleId -> SiteTypes.TargetedDetails,
    layoutRoundEffects: LayoutId -> seq<SiteTypes.RoundEffect>,
    applyToOrigin: (Status, seq<SiteTypes.RoundEffect>) -> Option<Status>,
    applyToTarget: (Status, seq<SiteTypes.RoundEffect>) -> Status,
    minLayout: (Status, Fitting) -> Status,
    isAlive: Status -> bool,
    parseStargate: string -> Option<Solarsystem>,
    stargateSiteUnique: Solarsystem -> string)

  /** Every player entity's ship is in the ship map (the source `expect`s this). */
  predicate PlayersHaveShips(entities: seq<SiteEntity>, ships: map<PlayerId, Ship>)
  {
    forall k :: 0 <= k < |entities| && entities[k].PlayerEntity? ==> entities[k].id in ships
  }

  // ---------------------------------------------------------------- entity directory

  /** `player_pos`: the first index holding the player's entity, if any. */
  function PlayerPos(entities: seq<SiteEntity>, player: PlayerId): (r: Option<nat>)
    ensures r.Some? ==> r.value < |entities| && entities[r.value] == PlayerEntity(player)
    ensures r.Some? ==> forall j :: 0 <= j < r.value ==> entities[j] != PlayerEntity(player)
    ensures r.None? <==> forall j :: 0 <= j < |entities| ==> entities[j] != PlayerEntity(player)
  {
    if entities == [] then None
    else if entities[0] == PlayerEntity(player) then Some(0)
    else
      match PlayerPos(entities[1..], player)
      case Some(i) => Some(i + 1)
      case None => None
  }

  /** The entities without the player's first entity; every other entity stays, in order. */
  function WithoutPlayer(entities: seq<SiteEntity>, player: PlayerId): (r: seq<SiteEntity>)
    ensures PlayerPos(entities, player).None? ==> r == entities
    ensures PlayerPos(entities, player).Some? ==>
      && |r| == |entities| - 1
      && multiset(r) + multiset{PlayerEntity(player)} == multiset(entities)
  {
    match PlayerPos(entities, player)
    case None => entities
    case Some(i) =>
      assert entities == entities[..i] + [entities[i]] + entities[i + 1..];
      entities[..i] + entities[i + 1..]
  }

  /** Taking out the player's entity, when it occurs at most once, leaves none of it behind. */
  lemma WithoutPlayerGone(entities: seq<SiteEntity>, player: PlayerId)
    ensures multiset(entities)[PlayerEntity(player)] <= 1 ==> PlayerPos(WithoutPlayer(entities, player), player).None?
  {
    var r := WithoutPlayer(entities, player);
    if multiset(entities)[PlayerEntity(player)] <= 1 {
      if PlayerPos(entities, player).Some? {
        assert multiset(r)[PlayerEntity(player)] == 0;
      }
      assert PlayerEntity(player) !in r;
    }
  }

  /** Taking out a player's entity keeps every remaining player entity's ship. */
  lemma WithoutPlayerKeepsShips(entities: seq<SiteEntity>, ships: map<PlayerId, Ship>, player: PlayerId)
    requires PlayersHaveShips(entities, ships)
    ensures PlayersHaveShips(WithoutPlayer(entities, player), ships)
  {
    var r := WithoutPlayer(entities, player);
    forall j | 0 <= j < |r| && r[j].PlayerEntity?
      ensures r[j].id in ships
    {
      if PlayerPos(entities, player).Some? {
        assert multiset(r)[r[j]] <= multiset(entities)[r[j]];
      }
      assert r[j] in entities;
    }
  }

  /** `remove_player_from_entities`: `Vec::remove` at `player_pos`, if there is one. */
  method RemovePlayerFromEntities(entities: seq<SiteEntity>, player: PlayerId) returns (entities': seq<SiteEntity>)
    ensures entities' == WithoutPlayer(entities, player)
    ensures PlayerPos(entities, player).Some? ==>
      var i := PlayerPos(entities, player).value;
      && (forall j :: 0 <= j < i ==> entities'[j] == entities[j])
      && (forall j :: i <= j < |entities'| ==> entities'[j] == entities[j + 1])
  {
    entities' := entities;
    var index := PlayerPos(entities, player);
    if index.Some? {
      entities' := entities'[..index.value] + entities'[index.value + 1..];
    }
  }

  // ---------------------------------------------------------------- module use

  /**
   * `apply_untargeted_module`: all or nothing on the user's ship. The status becomes what
   * `apply_to_origin` returns when the slot exists and that is `Some`; otherwise the ship stays.
   */
  function ApplyUntargetedModule(t: Typings, ship: Ship, moduleIndex: u8): (r: Ship)
    ensures r.fitting == ship.fitting
    ensures r.status != ship.status ==> moduleIndex < |ship.fitting.slotsUntargeted|
    ensures moduleIndex < |ship.fitting.slotsUntargeted| ==>
      var applied := t.applyToOrigin(ship.status, t.modulesUntargeted(ship.fitting.slotsUntargeted[moduleIndex]));
      r.status == if applied.Some? then applied.value else ship.status
  {
    if moduleIndex < |ship.fitting.slotsUntargeted| then
      var applied := t.applyToOrigin(ship.status, t.modulesUntargeted(ship.fitting.slotsUntargeted[moduleIndex]));
      if applied.Some? then ship.(status := applied.value) else ship
    else ship
  }

  /** The targeted module in slot `moduleIndex` exists and its effects on the user apply. */
  predicate OriginFires(t: Typings, ship: Ship, moduleIndex: u8)
  {
    && moduleIndex < |ship.fitting.slotsTargeted|
    && t.applyToOrigin(ship.status, t.modulesTargeted(ship.fitting.slotsTargeted[moduleIndex]).effectsOrigin).Some?
  }

  /**
   * `apply_targeted_module_to_origin`: when the module fires the user's status is updated and the
   * module's details are handed back; otherwise the ship is untouched and nothing is handed back.
   */
  function ApplyTargetedModuleToOrigin(t: Typings, ship: Ship, moduleIndex: u8): (r: (Ship, Option<SiteTypes.TargetedDetails>))
    ensures r.1.Some? <==> OriginFires(t, ship, moduleIndex)
    ensures r.1.None? ==> r.0 == ship
    ensures r.1.Some? ==>
      && r.1.value == t.modulesTargeted(ship.fitting.slotsTargeted[moduleIndex])
      && r.0.fitting == ship.fitting
      && Some(r.0.status) == t.applyToOrigin(ship.status, r.1.value.effectsOrigin)
  {
    if moduleIndex < |ship.fitting.slotsTargeted| then
      var details := t.modulesTargeted(ship.fitting.slotsTargeted[moduleIndex]);
      var applied := t.applyToOrigin(ship.status, details.effectsOrigin);
      if applied.Some? then (ship.(status := applied.value), Some(details)) else (ship, None)
    else (ship, None)
  }

  /**
   * `apply_targeted_module_to_target`: a facility is immune; a lifeless thing, an NPC or a
   * player's ship takes the target effects on its status and nothing else.
   */
  function ApplyTargetedModuleToTarget(t: Typings, ships: map<PlayerId, Ship>, target: SiteEntity, details: SiteTypes.TargetedDetails)
    : (r: (SiteEntity, map<PlayerId, Ship>))
    requires target.PlayerEntity? ==> target.id in ships
    ensures target.FacilityEntity? ==> r == (target, ships)
    ensures target.Lifeless? ==>
      r == (Lifeless(target.lifeless, t.applyToTarget(target.status, details.effectsTarget)), ships)
    ensures target.Npc? ==>
      r == (Npc(target.faction, target.fitting, t.applyToTarget(target.status, details.effectsTarget)), ships)
    ensures target.PlayerEntity? ==>
      var ship := ships[target.id];
      r == (target, ships[target.id := ship.(status := t.applyToTarget(ship.status, details.effectsTarget))])
  {
    match target
    case FacilityEntity(_) => (target, ships)
    case Lifeless(name, status) => (Lifeless(name, t.applyToTarget(status, details.effectsTarget)), ships)
    case Npc(faction, fitting, status) => (Npc(faction, fitting, t.applyToTarget(status, details.effectsTarget)), ships)
    case PlayerEntity(id) =>
      var ship := ships[id];
      (target, ships[id := ship.(status := t.applyToTarget(ship.status, details.effectsTarget))])
  }

  // ---------------------------------------------------------------- leaving the site

  /**
   * `facility_jump`: the site's name must parse as a stargate (the source panics otherwise). The
   * player leaves the site, whether alive or not, and warps in the target system towards its
   * stargate back to this system.
   */
  function FacilityJump(t: Typings, solarsystem: Solarsystem, info: Legacy.SiteInfo, entities: seq<SiteEntity>,
                        locations: map<PlayerId, PlayerLocation>, player: PlayerId)
    : (r: (seq<SiteEntity>, map<PlayerId, PlayerLocation>))
    requires t.parseStargate(info.siteUnique).Some?
    ensures r.0 == WithoutPlayer(entities, player)
    ensures r.1 == locations[player := Legacy.PlayerLocation.Warp(t.parseStargate(info.siteUnique).value, t.stargateSiteUnique(solarsystem))]
    ensures multiset(entities)[PlayerEntity(player)] <= 1 ==> PlayerPos(r.0, player).None?
  {
    WithoutPlayerGone(entities, player);
    (WithoutPlayer(entities, player),
     locations[player := Legacy.PlayerLocation.Warp(t.parseStargate(info.siteUnique).value, t.stargateSiteUnique(solarsystem))])
  }

  /** `facility_dock`: the player leaves the site, alive or not, and is docked at station 0. */
  function FacilityDock(solarsystem: Solarsystem, entities: seq<SiteEntity>, locations: map<PlayerId, PlayerLocation>, player: PlayerId)
    : (r: (seq<SiteEntity>, map<PlayerId, PlayerLocation>))
    ensures r.0 == WithoutPlayer(entities, player)
    ensures r.1 == locations[player := Legacy.Station(solarsystem, 0)]
    ensures multiset(entities)[PlayerEntity(player)] <= 1 ==> PlayerPos(r.0, player).None?
  {
    WithoutPlayerGone(entities, player);
    (WithoutPlayer(entities, player), locations[player := Legacy.Station(solarsystem, 0)])
  }

  /**
   * `warp_player_out`: the player leaves the site, alive or not, and is in warp within the system
   * towards the named site, even when that is this very site.
   */
  function WarpPlayerOut(solarsystem: Solarsystem, entities: seq<SiteEntity>, locations: map<PlayerId, PlayerLocation>,
                         player: PlayerId, target: string)
    : (r: (seq<SiteEntity>, map<PlayerId, PlayerLocation>))
    ensures r.0 == WithoutPlayer(entities, player)
    ensures r.1 == locations[player := Legacy.PlayerLocation.Warp(solarsystem, target)]
    ensures multiset(entities)[PlayerEntity(player)] <= 1 ==> PlayerPos(r.0, player).None?
  {
    WithoutPlayerGone(entities, player);
    (WithoutPlayer(entities, player), locations[player := Legacy.PlayerLocation.Warp(solarsystem, target)])
  }

  // ---------------------------------------------------------------- the instruction loop

  /** What one step of the instruction loop works on. */
  datatype State = State(entities: seq<SiteEntity>, locations: map<PlayerId, PlayerLocation>, ships: map<PlayerId, Ship>)

  /** The ships are the same players with the same fittings. */
  ghost predicate SameFleet(a: map<PlayerId, Ship>, b: map<PlayerId, Ship>)
  {
    a.Keys == b.Keys && forall p :: p in a ==> b[p].fitting == a[p].fitting
  }

  /**
   * The `ModuleTargeted` arm: the target index is checked first, so an index off the site
   * leaves even the user's ship untouched; then the module must fire on its user before its
   * target takes the target effects.
   */
  function TargetedStep(t: Typings, s: State, player: PlayerId, moduleIndex: u8, targetIndex: u8): (r: State)
    requires player in s.ships && PlayersHaveShips(s.entities, s.ships)
    ensures SameFleet(s.ships, r.ships) && PlayersHaveShips(r.entities, r.ships)
    ensures r.locations == s.locations && |r.entities| == |s.entities|
    ensures targetIndex >= |s.entities| ==> r == s
    ensures !OriginFires(t, s.ships[player], moduleIndex) ==> (
      && r.entities == s.entities
      && forall q :: q in s.ships && q != player ==> r.ships[q] == s.ships[q])
    ensures forall j :: 0 <= j < |s.entities| && j != targetIndex as int ==> r.entities[j] == s.entities[j]
    ensures targetIndex < |s.entities| && s.entities[targetIndex].FacilityEntity? ==> r.entities == s.entities
  {
    if targetIndex < |s.entities| then
      var used := ApplyTargetedModuleToOrigin(t, s.ships[player], moduleIndex);
      var ships := s.ships[player := used.0];
      if used.1.Some? then
        var hit := ApplyTargetedModuleToTarget(t, ships, s.entities[targetIndex], used.1.value);
        State(s.entities[targetIndex := hit.0], s.locations, hit.1)
      else
        s.(ships := ships)
    else s
  }

  /** Every player with an instruction has a ship, and a jump needs a parsable stargate site name. */
  ghost predicate StepsPossible(t: Typings, info: Legacy.SiteInfo, ships: map<PlayerId, Ship>, sorted: seq<(PlayerId, Instruction)>)
  {
    forall k :: 0 <= k < |sorted| ==>
      && sorted[k].0 in ships
      && (sorted[k].1 == Facility(Jump) ==> t.parseStargate(info.siteUnique).Some?)
  }

  /** One pass of the loop body of `advance` (src/round/mod.rs:46-92). */
  function Step(t: Typings, solarsystem: Solarsystem, info: Legacy.SiteInfo, s: State, pi: (PlayerId, Instruction)): (r: State)
    requires pi.0 in s.ships && PlayersHaveShips(s.entities, s.ships)
    requires pi.1 == Facility(Jump) ==> t.parseStargate(info.siteUnique).Some?
    ensures SameFleet(s.ships, r.ships) && PlayersHaveShips(r.entities, r.ships)
    ensures pi.1.ModuleUntargeted? ==>
      r == s.(ships := s.ships[pi.0 := ApplyUntargetedModule(t, s.ships[pi.0], pi.1.moduleIndex)])
    ensures pi.1.ModuleTargeted? ==> r == TargetedStep(t, s, pi.0, pi.1.moduleIndex, pi.1.targetIndexInSite)
    ensures pi.1.Facility? || pi.1.Warp? ==> r.ships == s.ships && r.entities == WithoutPlayer(s.entities, pi.0)
    ensures pi.1 == Facility(Dock) ==> r.locations == s.locations[pi.0 := Legacy.Station(solarsystem, 0)]
    ensures pi.1.Warp? ==> r.locations == s.locations[pi.0 := Legacy.PlayerLocation.Warp(solarsystem, pi.1.siteUnique)]
    ensures pi.1 == Facility(Jump) ==>
      r.locations == s.locations[pi.0 := Legacy.PlayerLocation.Warp(t.parseStargate(info.siteUnique).value, t.stargateSiteUnique(solarsystem))]
    ensures s.locations.Keys <= r.locations.Keys
    ensures pi.1.Facility? || pi.1.Warp? ==> pi.0 in r.locations
  {
    match pi.1
    case ModuleUntargeted(moduleIndex) =>
      s.(ships := s.ships[pi.0 := ApplyUntargetedModule(t, s.ships[pi.0], moduleIndex)])
    case ModuleTargeted(moduleIndex, targetIndex) =>
      TargetedStep(t, s, pi.0, moduleIndex, targetIndex)
    case Facility(Dock) =>
      var moved := FacilityDock(solarsystem, s.entities, s.locations, pi.0);
      State(moved.0, moved.1, s.ships)
    case Facility(Jump) =>
      var moved := FacilityJump(t, solarsystem, info, s.entities, s.locations, pi.0);
      State(moved.0, moved.1, s.ships)
    case Warp(target) =>
      var moved := WarpPlayerOut(solarsystem, s.entities, s.locations, pi.0, target);
      State(moved.0, moved.1, s.ships)
  }

  /** The instruction loop over a prefix of the sorted list. */
  function Steps(t: Typings, solarsystem: Solarsystem, info: Legacy.SiteInfo, s: State, sorted: seq<(PlayerId, Instruction)>): (r: State)
    requires StepsPossible(t, info, s.ships, sorted) && PlayersHaveShips(s.entities, s.ships)
    ensures SameFleet(s.ships, r.ships) && PlayersHaveShips(r.entities, r.ships)
  {
    if sorted == [] then s
    else
      var init := sorted[..|sorted| - 1];
      assert StepsPossible(t, info, s.ships, init);
      var prev := Steps(t, solarsystem, info, s, init);
      Step(t, solarsystem, info, prev, sorted[|sorted| - 1])
  }

  /** Every player who leaves the site, once, by docking, jumping or warping has a new location. */
  /** A player who neither uses a facility nor warps keeps their location, or their lack of one. */
  lemma {:induction false} StepsKeepStill(t: Typings, solarsystem: Solarsystem, info: Legacy.SiteInfo, s: State,
                                          sorted: seq<(PlayerId, Instruction)>, p: PlayerId)
    requires StepsPossible(t, info, s.ships, sorted) && PlayersHaveShips(s.entities, s.ships)
    requires forall k :: 0 <= k < |sorted| && sorted[k].0 == p ==> !(sorted[k].1.Facility? || sorted[k].1.Warp?)
    ensures p in Steps(t, solarsystem, info, s, sorted).locations <==> p in s.locations
    ensures p in s.locations ==> Steps(t, solarsystem, info, s, sorted).locations[p] == s.locations[p]
    decreases |sorted|
  {
    if sorted != [] {
      var init, last := sorted[..|sorted| - 1], sorted[|sorted| - 1];
      assert StepsPossible(t, info, s.ships, init);
      forall k | 0 <= k < |init| && init[k].0 == p
        ensures !(init[k].1.Facility? || init[k].1.Warp?)
      {
        assert init[k] == sorted[k];
      }
      StepsKeepStill(t, solarsystem, info, s, init, p);
      var prev := Steps(t, solarsystem, info, s, init);
      var r := Step(t, solarsystem, info, prev, last);
      assert r == Steps(t, solarsystem, info, s, sorted);
      if last.0 == p {
        assert !(last.1.Facility? || last.1.Warp?);
      }
    }
  }

  lemma {:induction false} StepsLocateMovers(t: Typings, solarsystem: Solarsystem, info: Legacy.SiteInfo, s: State, sorted: seq<(PlayerId, Instruction)>)
    requires StepsPossible(t, info, s.ships, sorted) && PlayersHaveShips(s.entities, s.ships)
    ensures forall p :: p in s.locations ==> p in Steps(t, solarsystem, info, s, sorted).locations
    ensures forall k :: 0 <= k < |sorted| && (sorted[k].1.Facility? || sorted[k].1.Warp?) ==>
      sorted[k].0 in Steps(t, solarsystem, info, s, sorted).locations
    decreases |sorted|
  {
    if sorted != [] {
      var init, last := sorted[..|sorted| - 1], sorted[|sorted| - 1];
      assert StepsPossible(t, info, s.ships, init);
      StepsLocateMovers(t, solarsystem, info, s, init);
      var prev := Steps(t, solarsystem, info, s, init);
      var r := Step(t, solarsystem, info, prev, last);
      assert r == Steps(t, solarsystem, info, s, sorted);
      assert prev.locations.Keys <= r.locations.Keys;
      forall k | 0 <= k < |sorted| && (sorted[k].1.Facility? || sorted[k].1.Warp?)
        ensures sorted[k].0 in r.locations
      {
        if k < |init| {
          assert init[k] == sorted[k];
        }
      }
    }
  }

  /** One pass of the loop of `advance`: the player's instruction applied to the site's state. */
  method ResolveOne(t: Typings, solarsystem: Solarsystem, info: Legacy.SiteInfo,
                    entities: seq<SiteEntity>, locations: map<PlayerId, PlayerLocation>, ships: map<PlayerId, Ship>,
                    player: PlayerId, instruction: Instruction)
    returns (entities': seq<SiteEntity>, locations': map<PlayerId, PlayerLocation>, ships': map<PlayerId, Ship>)
    requires player in ships && PlayersHaveShips(entities, ships)
    requires instruction == Facility(Jump) ==> t.parseStargate(info.siteUnique).Some?
    ensures State(entities', locations', ships') == Step(t, solarsystem, info, State(entities, locations, ships), (player, instruction))
  {
    entities', locations', ships' := entities, locations, ships;
    var originShip := ships[player];
    match instruction {
      case ModuleUntargeted(moduleIndex) =>
        ships' := ships[player := ApplyUntargetedModule(t, originShip, moduleIndex)];
      case ModuleTargeted(moduleIndex, targetIndex) =>
        if targetIndex < |entities| {
          var used := ApplyTargetedModuleToOrigin(t, originShip, moduleIndex);
          ships' := ships[player := used.0];
          if used.1.Some? {
            var hit := ApplyTargetedModuleToTarget(t, ships', entities[targetIndex], used.1.value);
            entities' := entities[targetIndex := hit.0];
            ships' := hit.1;
          }
        }
      case Facility(service) =>
        match service {
          case Dock =>
            entities' := RemovePlayerFromEntities(entities, player);
            locations' := locations[player := Legacy.Station(solarsystem, 0)];
          case Jump =>
            var targetSolarsystem := t.parseStargate(info.siteUnique).value;
            var targetSite := t.stargateSiteUnique(solarsystem);
            entities' := RemovePlayerFromEntities(entities, player);
            locations' := locations[player := Legacy.PlayerLocation.Warp(targetSolarsystem, targetSite)];
        }
      case Warp(target) =>
        entities' := RemovePlayerFromEntities(entities, player);
        locations' := locations[player := Legacy.PlayerLocation.Warp(solarsystem, target)];
    }
  }

  /** The loop of `advance` over the sorted instructions. */
  method ResolveInstructions(t: Typings, solarsystem: Solarsystem, info: Legacy.SiteInfo, s: State, sorted: seq<(PlayerId, Instruction)>)
    returns (entities': seq<SiteEntity>, locations': map<PlayerId, PlayerLocation>, ships': map<PlayerId, Ship>)
    requires StepsPossible(t, info, s.ships, sorted) && PlayersHaveShips(s.entities, s.ships)
    ensures State(entities', locations', ships') == Steps(t, solarsystem, info, s, sorted)
  {
    entities', locations', ships' := s.entities, s.locations, s.ships;
    for n := 0 to |sorted|
      invariant StepsPossible(t, info, s.ships, sorted[..n])
      invariant State(entities', locations', ships') == Steps(t, solarsystem, info, s, sorted[..n])
    {
      assert sorted[..n + 1][..n] == sorted[..n];
      assert StepsPossible(t, info, s.ships, sorted[..n + 1]);
      entities', locations', ships' := ResolveOne(t, solarsystem, info, entities', locations', ships', sorted[n].0, sorted[n].1);
    }
    assert sorted[..|sorted|] == sorted;
  }

  // ---------------------------------------------------------------- finishup

  /** A ship's status after its layout's passives (all or nothing) and the clamp to its layout. */
  function Settled(t: Typings, status: Status, fitting: Fitting): Status
  {
    var passive := t.applyToOrigin(status, t.layoutRoundEffects(fitting.layout));
    t.minLayout(if passive.Some? then passive.value else status, fitting)
  }

  /**
   * One entity of `finishup_entities`: facilities stay; a lifeless thing stays iff alive; an NPC
   * or a player stays iff its settled status is alive. A player's settled status is written to
   * its ship whether or not the player stays.
   */
  function FinishupOne(t: Typings, e: SiteEntity, ships: map<PlayerId, Ship>): (r: (Option<SiteEntity>, map<PlayerId, Ship>))
    requires e.PlayerEntity? ==> e.id in ships
    ensures e.FacilityEntity? ==> r == (Some(e), ships)
    ensures e.Lifeless? ==> r.1 == ships && (r.0.Some? <==> t.isAlive(e.status)) && (r.0.Some? ==> r.0.value == e)
    ensures e.Npc? ==> (
      && r.1 == ships
      && (r.0.Some? <==> t.isAlive(Settled(t, e.status, e.fitting)))
      && (r.0.Some? ==> r.0.value == Npc(e.faction, e.fitting, Settled(t, e.status, e.fitting))))
    ensures e.PlayerEntity? ==>
      var ship := ships[e.id];
      var settled := Settled(t, ship.status, ship.fitting);
      && r.1 == ships[e.id := ship.(status := settled)]
      && (r.0.Some? <==> t.isAlive(settled))
      && (r.0.Some? ==> r.0.value == e)
  {
    match e
    case FacilityEntity(_) => (Some(e), ships)
    case Lifeless(_, status) => (if t.isAlive(status) then Some(e) else None, ships)
    case Npc(faction, fitting, status) =>
      var settled := Settled(t, status, fitting);
      (if t.isAlive(settled) then Some(Npc(faction, fitting, settled)) else None, ships)
    case PlayerEntity(id) =>
      var ship := ships[id];
      var settled := Settled(t, ship.status, ship.fitting);
      (if t.isAlive(settled) then Some(e) else None, ships[id := ship.(status := settled)])
  }

  /** `finishup_entities` over the whole list, one entity after the other. */
  function Finishup(t: Typings, before: seq<SiteEntity>, ships: map<PlayerId, Ship>): (r: (seq<SiteEntity>, map<PlayerId, Ship>))
    requires PlayersHaveShips(before, ships)
    ensures SameFleet(ships, r.1)
  {
    if before == [] then ([], ships)
    else
      var init := before[..|before| - 1];
      assert PlayersHaveShips(init, ships);
      var prev := Finishup(t, init, ships);
      var one := FinishupOne(t, before[|before| - 1], prev.1);
      (if one.0.Some? then prev.0 + [one.0.value] else prev.0, one.1)
  }

  /** NPC statuses set aside: the only entities finishup rewrites are NPCs, and only their status. */
  function Identity(e: SiteEntity): SiteEntity
  {
    if e.Npc? then Npc(e.faction, e.fitting, Status(0, 0, 0)) else e
  }

  function Identities(s: seq<SiteEntity>): (r: seq<SiteEntity>)
    ensures |r| == |s|
  {
    if s == [] then [] else Identities(s[..|s| - 1]) + [Identity(s[|s| - 1])]
  }

  lemma IdentitiesSnoc(s: seq<SiteEntity>, e: SiteEntity)
    ensures Identities(s + [e]) == Identities(s) + [Identity(e)]
  {
    assert (s + [e])[..|s|] == s;
  }

  /** Finishup drops entities and keeps the order of the rest: a subsequence, NPC statuses set aside. */
  lemma {:induction false} FinishupKeepsOrder(t: Typings, before: seq<SiteEntity>, ships: map<PlayerId, Ship>)
    requires PlayersHaveShips(before, ships)
    ensures Subsequence(Identities(Finishup(t, before, ships).0), Identities(before))
    decreases |before|
  {
    if before != [] {
      var init := before[..|before| - 1];
      var last := before[|before| - 1];
      assert PlayersHaveShips(init, ships);
      FinishupKeepsOrder(t, init, ships);
      var prev := Finishup(t, init, ships);
      var kept := FinishupOne(t, last, prev.1).0;
      IdentitiesSnoc(init, last);
      assert before == init + [last];
      if kept.Some? {
        IdentitiesSnoc(prev.0, kept.value);
        assert Identity(kept.value) == Identity(last);
      }
      SubsequenceSnoc(Identities(prev.0), Identities(init), Identity(last), kept.Some?);
    }
  }

  /** How many facilities a list holds. */
  function FacilityCount(s: seq<SiteEntity>): nat
  {
    if s == [] then 0 else FacilityCount(s[..|s| - 1]) + (if s[|s| - 1].FacilityEntity? then 1 else 0)
  }

  /**
   * Finishup keeps every facility: as a subsequence that drops no facility, the facilities of the
   * result are those of the input, in their order.
   */
  lemma {:induction false} FinishupKeepsFacilities(t: Typings, before: seq<SiteEntity>, ships: map<PlayerId, Ship>)
    requires PlayersHaveShips(before, ships)
    ensures FacilityCount(Finishup(t, before, ships).0) == FacilityCount(before)
    ensures forall k :: 0 <= k < |before| && before[k].FacilityEntity? ==> before[k] in Finishup(t, before, ships).0
    decreases |before|
  {
    if before != [] {
      var init := before[..|before| - 1];
      var last := before[|before| - 1];
      assert PlayersHaveShips(init, ships);
      FinishupKeepsFacilities(t, init, ships);
      var prev := Finishup(t, init, ships);
      var kept := FinishupOne(t, last, prev.1).0;
      var r := Finishup(t, before, ships).0;
      if kept.Some? {
        assert r == prev.0 + [kept.value];
        assert r[..|r| - 1] == prev.0;
      }
      forall k | 0 <= k < |before| && before[k].FacilityEntity?
        ensures before[k] in r
      {
        if k < |init| {
          assert init[k] == before[k];
          assert before[k] in prev.0;
        }
      }
    }
  }

  /** Every lifeless thing and NPC in the list is alive. */
  ghost predicate LivingOnly(t: Typings, entities: seq<SiteEntity>)
  {
    forall k :: 0 <= k < |entities| && (entities[k].Lifeless? || entities[k].Npc?) ==> t.isAlive(entities[k].status)
  }

  /** Every lifeless thing and NPC that survives finishup is alive, and so is every surviving player's ship. */
  lemma {:induction false} FinishupSurvivorsAlive(t: Typings, before: seq<SiteEntity>, ships: map<PlayerId, Ship>)
    requires PlayersHaveShips(before, ships)
    ensures LivingOnly(t, Finishup(t, before, ships).0)
    ensures PlayersHaveShips(Finishup(t, before, ships).0, ships)
    decreases |before|
  {
    if before != [] {
      var init := before[..|before| - 1];
      var last := before[|before| - 1];
      assert PlayersHaveShips(init, ships);
      FinishupSurvivorsAlive(t, init, ships);
      var prev := Finishup(t, init, ships);
      var kept := FinishupOne(t, last, prev.1).0;
      var r := Finishup(t, before, ships).0;
      if kept.Some? {
        assert r == prev.0 + [kept.value];
        forall k | 0 <= k < |r| && (r[k].Lifeless? || r[k].Npc?)
          ensures t.isAlive(r[k].status)
        {
          if k < |prev.0| {
            assert r[k] == prev.0[k];
          } else {
            assert r[k] == kept.value;

          }
        }
      }
    }
  }

  /**
   * A player's ship is settled by finishup whether or not the player survives: with no entity
   * the ship is untouched; with exactly one entity its status becomes the settled status.
   */
  lemma {:induction false} FinishupWritesBack(t: Typings, before: seq<SiteEntity>, ships: map<PlayerId, Ship>, p: PlayerId)
    requires PlayersHaveShips(before, ships)
    requires p in ships
    ensures multiset(before)[PlayerEntity(p)] == 0 ==> Finishup(t, before, ships).1[p] == ships[p]
    ensures multiset(before)[PlayerEntity(p)] == 1 ==>
      Finishup(t, before, ships).1[p] == ships[p].(status := Settled(t, ships[p].status, ships[p].fitting))
    decreases |before|
  {
    if before != [] {
      var init, last := before[..|before| - 1], before[|before| - 1];
      assert PlayersHaveShips(init, ships);
      CountSnoc(before, PlayerEntity(p));
      FinishupWritesBack(t, init, ships, p);
      FinishupOneShip(t, last, Finishup(t, init, ships).1, p);
    }
  }

  /** The last element adds one to its own count in the multiset and nothing to any other. */
  lemma CountSnoc<T>(s: seq<T>, x: T)
    requires s != []
    ensures multiset(s)[x] == multiset(s[..|s| - 1])[x] + (if s[|s| - 1] == x then 1 else 0)
  {
    assert s == s[..|s| - 1] + [s[|s| - 1]];
  }

  /** Finishup of one entity changes player `p`'s ship only when the entity is `p`'s. */
  lemma FinishupOneShip(t: Typings, e: SiteEntity, ships: map<PlayerId, Ship>, p: PlayerId)
    requires e.PlayerEntity? ==> e.id in ships
    requires p in ships
    ensures FinishupOne(t, e, ships).1[p] ==
      if e == PlayerEntity(p) then ships[p].(status := Settled(t, ships[p].status, ships[p].fitting)) else ships[p]
  {
  }

  /** `finishup_entities`: builds the surviving list in a loop while settling player ships in place. */
  method FinishupEntities(t: Typings, before: seq<SiteEntity>, ships: map<PlayerId, Ship>)
    returns (remaining: seq<SiteEntity>, ships': map<PlayerId, Ship>)
    requires PlayersHaveShips(before, ships)
    ensures (remaining, ships') == Finishup(t, before, ships)
  {
    remaining := [];
    ships' := ships;
    for n := 0 to |before|
      invariant PlayersHaveShips(before[..n], ships)
      invariant (remaining, ships') == Finishup(t, before[..n], ships)
    {
      assert before[..n + 1][..n] == before[..n];
      var entity := before[n];
      match entity {
        case FacilityEntity(_) =>
          remaining := remaining + [entity];
        case Lifeless(_, status) =>
          if t.isAlive(status) {
            remaining := remaining + [entity];
          }
        case Npc(faction, fitting, status) =>
          var layoutEffects := t.layoutRoundEffects(fitting.layout);
          var passive := t.applyToOrigin(status, layoutEffects);
          var current := if passive.Some? then passive.value else status;
          var clamped := t.minLayout(current, fitting);
          if t.isAlive(clamped) {
            remaining := remaining + [Npc(faction, fitting, clamped)];
          }
        case PlayerEntity(id) =>
          var ship := ships'[id];
          var passive := t.applyToOrigin(ship.status, t.layoutRoundEffects(ship.fitting.layout));
          if passive.Some? {
            ship := ship.(status := passive.value);
          }
          ship := ship.(status := t.minLayout(ship.status, ship.fitting));
          ships' := ships'[id := ship];
          if t.isAlive(ship.status) {
            remaining := remaining + [entity];
          }
      }
    }
    assert before[..|before|] == before;
  }

  // ---------------------------------------------------------------- the round

  /** The player entities of the players warping in, in order. */
  function Arrivals(warpIn: seq<PlayerId>): (r: seq<SiteEntity>)
    ensures |r| == |warpIn|
    ensures forall k :: 0 <= k < |warpIn| ==> r[k] == PlayerEntity(warpIn[k])
  {
    if warpIn == [] then [] else Arrivals(warpIn[..|warpIn| - 1]) + [PlayerEntity(warpIn[|warpIn| - 1])]
  }

  /**
   * The warp-in loop of `advance`: each player is appended after everything already in the site,
   * in order, and located at this site; nobody else's location changes.
   */
  method WarpIn(solarsystem: Solarsystem, info: Legacy.SiteInfo, entities: seq<SiteEntity>,
                locations: map<PlayerId, PlayerLocation>, warpIn: seq<PlayerId>)
    returns (entities': seq<SiteEntity>, locations': map<PlayerId, PlayerLocation>)
    ensures entities' == entities + Arrivals(warpIn)
    ensures locations' == locations + LocatedAt(warpIn, Legacy.Site(solarsystem, info.siteUnique))
  {
    entities', locations' := entities, locations;
    for n := 0 to |warpIn|
      invariant entities' == entities + Arrivals(warpIn[..n])
      invariant locations' == locations + LocatedAt(warpIn[..n], Legacy.Site(solarsystem, info.siteUnique))
    {
      assert warpIn[..n + 1] == warpIn[..n] + [warpIn[n]];
      var player := warpIn[n];
      LocatedAtSnoc(locations, warpIn[..n], player, Legacy.Site(solarsystem, info.siteUnique));
      entities' := entities' + [PlayerEntity(player)];
      locations' := locations'[player := Legacy.Site(solarsystem, info.siteUnique)];
    }
    assert warpIn[..|warpIn|] == warpIn;
  }

  /**
   * `advance`: resolve the sorted instructions one by one, settle and drop the dead, admit the
   * players warping in and clear the queues. The entities are the survivors of finishup followed
   * by the arrivals, and the ships are as finishup leaves them: no ship is added, removed or
   * refitted; every surviving lifeless thing and NPC is alive; every queue is empty afterwards;
   * the locations are those the resolved instructions leave, with every arrival located here,
   * and every player who docked, jumped or warped has a location.
   */
  method Advance(t: Typings, solarsystem: Solarsystem, info: Legacy.SiteInfo, entities: seq<SiteEntity>,
                 instructions: map<PlayerId, seq<Instruction>>, locations: map<PlayerId, PlayerLocation>,
                 ships: map<PlayerId, Ship>, warpIn: seq<PlayerId>)
    returns (entities': seq<SiteEntity>, instructions': map<PlayerId, seq<Instruction>>,
             locations': map<PlayerId, PlayerLocation>, ships': map<PlayerId, Ship>)
    requires StepsPossible(t, info, ships, t.sort(instructions))
    requires PlayersHaveShips(entities, ships)
    ensures |entities'| >= |warpIn| && entities'[|entities'| - |warpIn|..] == Arrivals(warpIn)
    ensures var resolved := Steps(t, solarsystem, info, State(entities, locations, ships), t.sort(instructions));
      (entities'[..|entities'| - |warpIn|], ships') == Finishup(t, resolved.entities, resolved.ships)
    ensures locations' == Steps(t, solarsystem, info, State(entities, locations, ships), t.sort(instructions)).locations
                          + LocatedAt(warpIn, Legacy.Site(solarsystem, info.siteUnique))
    ensures SameFleet(ships, ships')
    ensures LivingOnly(t, entities'[..|entities'| - |warpIn|])
    ensures instructions'.Keys == instructions.Keys
    ensures forall p :: p in instructions' ==> instructions'[p] == []
    ensures forall p :: p in warpIn ==> p in locations' && locations'[p] == Legacy.Site(solarsystem, info.siteUnique)
    ensures forall k :: 0 <= k < |t.sort(instructions)| && (t.sort(instructions)[k].1.Facility? || t.sort(instructions)[k].1.Warp?) ==>
      t.sort(instructions)[k].0 in locations'
  {
    var sorted := t.sort(instructions);
    var start := State(entities, locations, ships);
    var resolvedEntities, resolvedLocations, resolvedShips := ResolveInstructions(t, solarsystem, info, start, sorted);
    StepsLocateMovers(t, solarsystem, info, start, sorted);

    var remaining;
    remaining, ships' := FinishupEntities(t, resolvedEntities, resolvedShips);
    FinishupSurvivorsAlive(t, resolvedEntities, resolvedShips);

    entities', locations' := WarpIn(solarsystem, info, remaining, resolvedLocations, warpIn);
    LocatedAtOverrides(resolvedLocations, warpIn, Legacy.Site(solarsystem, info.siteUnique));
    assert entities'[..|entities'| - |warpIn|] == remaining;

    instructions' := RoundInstructions.Cleanup(instructions);
  }
}
