/**
 * Module use in the newest round engine (src/round/module.rs): untargeted modules act on their
 * user only, targeted modules act on their user first and on the target only when that
 * succeeded, mining moves ore from a lifeless thing into the user's cargo, and self-destruct
 * kills the user.
 */
module RoundModule {
  import opened Common
  import opened SiteTypes
  import opened RoundEntities

  /** The `expect`s on the actor: a player with a ship, or an NPC at its index. */
  predicate ActorPresent(entities: seq<SiteEntity>, ships: map<Player, Ship>, actor: Actor)
  {
    match actor
    case ByPlayer(p) => p in ships
    case ByNpc(i) => IsNpcAt(entities, i)
  }

  /** The fitting, status and cargo the actor uses. */
  function ActorShip(entities: seq<SiteEntity>, ships: map<Player, Ship>, actor: Actor): Ship
    requires ActorPresent(entities, ships, actor)
  {
    match actor
    case ByPlayer(p) => ships[p]
    case ByNpc(i) => NpcShip(entities, i)
  }

  /** How the log names the actor: the player or the NPC's faction, with the ship's layout. */
  function ActorLog(entities: seq<SiteEntity>, ships: map<Player, Ship>, actor: Actor): SiteLogActor
    requires ActorPresent(entities, ships, actor)
  {
    match actor
    case ByPlayer(p) => LogPlayer(p, ships[p].fitting.layout)
    case ByNpc(i) => LogNpc(entities[i].faction, entities[i].fitting.layout)
  }

  /** Nothing but the actor's own ship differs between the two states; an NPC keeps its faction. */
  ghost predicate OnlyActorChanged(entities: seq<SiteEntity>, ships: map<Player, Ship>,
                                   entities': seq<SiteEntity>, ships': map<Player, Ship>, actor: Actor)
  {
    && |entities'| == |entities|
    && ships'.Keys == ships.Keys
    && (forall j :: 0 <= j < |entities| && actor != ByNpc(j) ==> entities'[j] == entities[j])
    && (forall p :: p in ships && actor != ByPlayer(p) ==> ships'[p] == ships[p])
    && (actor.ByNpc? && actor.index < |entities| && entities[actor.index].Npc? ==>
          entities'[actor.index].Npc? && entities'[actor.index].faction == entities[actor.index].faction)
  }

  /** Writing the actor's ship back where it came from. */
  function WithActorShip(entities: seq<SiteEntity>, ships: map<Player, Ship>, actor: Actor, ship: Ship)
    : (r: (seq<SiteEntity>, map<Player, Ship>))
    requires ActorPresent(entities, ships, actor)
    ensures ActorPresent(r.0, r.1, actor) && ActorShip(r.0, r.1, actor) == ship
    ensures OnlyActorChanged(entities, ships, r.0, r.1, actor)
    ensures ship == ActorShip(entities, ships, actor) ==> r == (entities, ships)
  {
    match actor
    case ByPlayer(p) =>
      assert ship == ships[p] ==> ships[p := ship] == ships;
      (entities, ships[p := ship])
    case ByNpc(i) => (WithNpcShip(entities, i, ship), ships)
  }

  /** Rewriting the actor keeps every player entity's ship in place. */
  lemma OnlyActorChangedKeepsShips(entities: seq<SiteEntity>, ships: map<Player, Ship>,
                                   entities': seq<SiteEntity>, ships': map<Player, Ship>, actor: Actor)
    requires PlayersHaveShips(entities, ships)
    requires ActorPresent(entities, ships, actor)
    requires OnlyActorChanged(entities, ships, entities', ships', actor)
    ensures PlayersHaveShips(entities', ships')
  {
  }

  /**
   * `apply_untargeted`: the module in the actor's untargeted slot `moduleIndex` acts on the
   * actor's status all or nothing. The status becomes what `apply_to_origin` returns when the
   * slot exists and that is `Some`, and stays as it was otherwise; fitting, cargo and everything
   * else stay as they were.
   */
  method ApplyUntargeted(t: Typings, entities: seq<SiteEntity>, ships: map<Player, Ship>, actor: Actor, moduleIndex: u8)
    returns (entities': seq<SiteEntity>, ships': map<Player, Ship>)
    requires ActorPresent(entities, ships, actor)
    ensures ActorPresent(entities', ships', actor)
    ensures OnlyActorChanged(entities, ships, entities', ships', actor)
    ensures var before, after := ActorShip(entities, ships, actor), ActorShip(entities', ships', actor);
      && after.fitting == before.fitting
      && after.cargo == before.cargo
      && (after.status != before.status ==> moduleIndex < |before.fitting.slotsUntargeted|)
      && (moduleIndex < |before.fitting.slotsUntargeted| ==>
            var applied := t.applyToOrigin(before.status, t.modulesUntargeted(before.fitting.slotsUntargeted[moduleIndex]));
            after.status == if applied.Some? then applied.value else before.status)
  {
    entities', ships' := entities, ships;
    var ship := ActorShip(entities, ships, actor);
    if moduleIndex < |ship.fitting.slotsUntargeted| {
      var effects := t.modulesUntargeted(ship.fitting.slotsUntargeted[moduleIndex]);
      var applied := t.applyToOrigin(ship.status, effects);
      if applied.Some? {
        var written := WithActorShip(entities, ships, actor, ship.(status := applied.value));
        entities', ships' := written.0, written.1;
      }
    }
  }

  /** The targeted module in slot `moduleIndex` exists and its effects on the user apply. */
  predicate OriginFires(t: Typings, fitting: Fitting, status: Status, moduleIndex: u8)
  {
    && moduleIndex < |fitting.slotsTargeted|
    && t.applyToOrigin(status, t.modulesTargeted(fitting.slotsTargeted[moduleIndex]).effectsOrigin).Some?
  }

  /**
   * `apply_targeted_to_origin`: when the slot exists and its origin effects apply, the status is
   * updated and the module with its details is handed back; otherwise the status is untouched
   * and nothing is handed back.
   */
  method ApplyTargetedToOrigin(t: Typings, fitting: Fitting, status: Status, moduleIndex: u8)
    returns (status': Status, used: Option<(ModuleId, TargetedDetails)>)
    ensures used.Some? <==> OriginFires(t, fitting, status, moduleIndex)
    ensures used.None? ==> status' == status
    ensures used.Some? ==>
      && used.value.0 == fitting.slotsTargeted[moduleIndex]
      && used.value.1 == t.modulesTargeted(used.value.0)
      && Some(status') == t.applyToOrigin(status, used.value.1.effectsOrigin)
  {
    status', used := status, None;
    if moduleIndex < |fitting.slotsTargeted| {
      var targeted := fitting.slotsTargeted[moduleIndex];
      var details := t.modulesTargeted(targeted);
      var applied := t.applyToOrigin(status, details.effectsOrigin);
      if applied.Some? {
        status', used := applied.value, Some((targeted, details));
      }
    }
  }

  /** The strength of the first mining effect, if there is one (`find_map`). */
  function FirstMine(effects: seq<RoundEffect>): (r: Option<u32>)
    ensures r.None? <==> forall k :: 0 <= k < |effects| ==> !effects[k].Mine?
    ensures r.Some? ==> exists k :: (0 <= k < |effects| && effects[k] == Mine(r.value) &&
      forall j :: 0 <= j < k ==> !effects[j].Mine?)
  {
    if effects == [] then None
    else if effects[0].Mine? then
      assert effects[0] == Mine(effects[0].strength);
      Some(effects[0].strength)
    else
      var rest := FirstMine(effects[1..]);
      if rest.Some? then
        ghost var k :| 0 <= k < |effects[1..]| && effects[1..][k] == Mine(rest.value) &&
          forall j :: 0 <= j < k ==> !effects[1..][j].Mine?;
        assert effects[k + 1] == Mine(rest.value);
        rest
      else rest
  }

  /** The ore one mining shot takes: no more than the strength, the ore left, or the free cargo. */
  function MinedOre(strength: Option<u32>, remaining: u32, free: u32): (r: u32)
    ensures strength.None? ==> r == 0
    ensures strength.Some? ==> r <= strength.value && r <= remaining && r <= free
    ensures strength.Some? ==> r == strength.value || r == remaining || r == free
  {
    if strength.None? then 0 else Min(Min(strength.value, remaining), free)
  }

  /**
   * `apply_targeted_to_target`, returning the loot. A facility is immune and yields nothing; a
   * lifeless thing takes the target effects and gives up `MinedOre` of its ore, which is the loot;
   * an NPC or a player's ship takes the target effects and yields nothing.
   */
  method ApplyTargetedToTarget(t: Typings, ships: map<Player, Ship>, target: SiteEntity, details: TargetedDetails, free: CargoAmounts)
    returns (ships': map<Player, Ship>, target': SiteEntity, loot: Cargo)
    requires target.PlayerEntity? ==> target.player in ships
    ensures target.FacilityEntity? ==> target' == target && ships' == ships && loot == EmptyCargo
    ensures target.Lifeless? ==>
      && loot.ore == MinedOre(FirstMine(details.effectsTarget), target.remainingOre, free.ore)
      && target' == Lifeless(target.id, t.applyToTarget(target.status, details.effectsTarget), target.remainingOre - loot.ore)
      && ships' == ships
    ensures target.Npc? ==>
      && target' == Npc(target.faction, target.fitting, t.applyToTarget(target.status, details.effectsTarget), target.cargo)
      && ships' == ships && loot == EmptyCargo
    ensures target.PlayerEntity? ==>
      && target' == target
      && ships' == ships[target.player := ships[target.player].(status := t.applyToTarget(ships[target.player].status, details.effectsTarget))]
      && loot == EmptyCargo
  {
    ships', target', loot := ships, target, EmptyCargo;
    match target
    case FacilityEntity(_) =>
    case Lifeless(id, status, remainingOre) =>
      var ore := MinedOre(FirstMine(details.effectsTarget), remainingOre, free.ore);
      target' := Lifeless(id, t.applyToTarget(status, details.effectsTarget), remainingOre - ore);
      loot := Cargo(ore);
    case Npc(faction, fitting, status, cargo) =>
      target' := Npc(faction, fitting, t.applyToTarget(status, details.effectsTarget), cargo);
    case PlayerEntity(player) =>
      var ship := ships[player];
      ships' := ships[player := ship.(status := t.applyToTarget(ship.status, details.effectsTarget))];
  }

  /** The targeted module fires and its target index is on the site: the case with a log entry. */
  predicate Hits(t: Typings, entities: seq<SiteEntity>, ships: map<Player, Ship>, actor: Actor, moduleIndex: u8, targetIndex: u8)
    requires ActorPresent(entities, ships, actor)
  {
    var ship := ActorShip(entities, ships, actor);
    OriginFires(t, ship.fitting, ship.status, moduleIndex) && targetIndex < |entities|
  }

  /** The user's status once `apply_to_origin` has had its say: its value when the module fires, the old status otherwise. */
  function OriginStatus(t: Typings, ship: Ship, moduleIndex: u8): Status
  {
    if OriginFires(t, ship.fitting, ship.status, moduleIndex)
    then t.applyToOrigin(ship.status, t.modulesTargeted(ship.fitting.slotsTargeted[moduleIndex]).effectsOrigin).value
    else ship.status
  }

  /** The effects the targeted module in slot `moduleIndex` has on its target. */
  function TargetEffects(t: Typings, ship: Ship, moduleIndex: u8): seq<RoundEffect>
    requires moduleIndex < |ship.fitting.slotsTargeted|
  {
    t.modulesTargeted(ship.fitting.slotsTargeted[moduleIndex]).effectsTarget
  }

  /** The entity at `targetIndex` is the user itself: the NPC's own index, or the player's own entity. */
  predicate TargetIsActor(entities: seq<SiteEntity>, actor: Actor, targetIndex: u8)
  {
    && targetIndex < |entities|
    && match actor
       case ByNpc(i) => i == targetIndex as int
       case ByPlayer(p) => entities[targetIndex] == PlayerEntity(p)
  }

  /** Writing the actor's ship twice is writing it once, with the second ship. */
  lemma WithActorShipTwice(entities: seq<SiteEntity>, ships: map<Player, Ship>, actor: Actor, first: Ship, second: Ship)
    requires ActorPresent(entities, ships, actor)
    ensures var once := WithActorShip(entities, ships, actor, first);
      WithActorShip(once.0, once.1, actor, second) == WithActorShip(entities, ships, actor, second)
  {
    match actor
    case ByPlayer(p) =>
      assert ships[p := first][p := second] == ships[p := second];
    case ByNpc(i) =>
      var once := WithNpcShip(entities, i, first);
      assert WithNpcShip(once, i, second) == WithNpcShip(entities, i, second);
  }

  /**
   * The start of `apply_targeted`: `apply_targeted_to_origin` on the user's own ship, written back
   * through the borrow. The module is handed back exactly when it fires.
   */
  method FireOrigin(t: Typings, entities: seq<SiteEntity>, ships: map<Player, Ship>, actor: Actor, moduleIndex: u8)
    returns (entities': seq<SiteEntity>, ships': map<Player, Ship>, used: Option<(ModuleId, TargetedDetails)>)
    requires ActorPresent(entities, ships, actor)
    requires PlayersHaveShips(entities, ships)
    ensures ActorPresent(entities', ships', actor) && PlayersHaveShips(entities', ships')
    ensures var before := ActorShip(entities, ships, actor);
      && ActorShip(entities', ships', actor) == before.(status := OriginStatus(t, before, moduleIndex))
      && (used.Some? <==> OriginFires(t, before.fitting, before.status, moduleIndex))
      && (used.Some? ==> used.value == (before.fitting.slotsTargeted[moduleIndex], t.modulesTargeted(before.fitting.slotsTargeted[moduleIndex])))
    ensures OnlyActorChanged(entities, ships, entities', ships', actor)
  {
    var ship := ActorShip(entities, ships, actor);
    var status', fired := ApplyTargetedToOrigin(t, ship.fitting, ship.status, moduleIndex);
    used := fired;
    var written := WithActorShip(entities, ships, actor, ship.(status := status'));
    entities', ships' := written.0, written.1;
    OnlyActorChangedKeepsShips(entities, ships, entities', ships', actor);
  }

  /**
   * `apply_targeted`. The user's status becomes what `apply_to_origin` gives when the module
   * fires, and stays as it was otherwise; only when the user also is the target do the target
   * effects come on top. When the module does not fire or the index is off the site, nothing but
   * the user's ship changes and no log entry is written. Otherwise exactly one `ModuleTargeted`
   * entry is appended, naming the user, the module and the target as it stands before the loot is
   * paid out. A facility target never changes; a lifeless thing, another NPC or a player's ship
   * takes the target effects; a lifeless target loses exactly the ore that is added to the user's
   * cargo; every other entity and every other player's ship stays as it was.
   */
  method ApplyTargeted(t: Typings, entities: seq<SiteEntity>, ships: map<Player, Ship>, actor: Actor,
                       moduleIndex: u8, targetIndex: u8, log: seq<SiteLog>)
    returns (entities': seq<SiteEntity>, ships': map<Player, Ship>, log': seq<SiteLog>, ghost loot: Cargo)
    requires ActorPresent(entities, ships, actor)
    requires PlayersHaveShips(entities, ships)
    ensures ActorPresent(entities', ships', actor) && PlayersHaveShips(entities', ships')
    ensures |entities'| == |entities| && ships'.Keys == ships.Keys
    ensures var before, after := ActorShip(entities, ships, actor), ActorShip(entities', ships', actor);
      && after.fitting == before.fitting
      && after.cargo == t.cargoAdd(before.cargo, loot)
      && after.status == if Hits(t, entities, ships, actor, moduleIndex, targetIndex) && TargetIsActor(entities, actor, targetIndex)
                         then t.applyToTarget(OriginStatus(t, before, moduleIndex), TargetEffects(t, before, moduleIndex))
                         else OriginStatus(t, before, moduleIndex)
    ensures actor.ByNpc? ==> entities'[actor.index].faction == entities[actor.index].faction
    ensures !Hits(t, entities, ships, actor, moduleIndex, targetIndex) ==>
      && log' == log
      && loot == EmptyCargo
      && OnlyActorChanged(entities, ships, entities', ships', actor)
    ensures Hits(t, entities, ships, actor, moduleIndex, targetIndex) ==>
      var ship := ActorShip(entities, ships, actor);
      var unpaid := WithActorShip(entities', ships', actor, ActorShip(entities', ships', actor).(cargo := ship.cargo));
      && |log'| == |log| + 1 && log'[..|log|] == log
      && log'[|log|] == ModuleTargetedLog(ActorLog(entities, ships, actor), ship.fitting.slotsTargeted[moduleIndex],
                                          t.logActorOf(unpaid.1, unpaid.0[targetIndex]))
    ensures forall j :: 0 <= j < |entities| && j != targetIndex as int && actor != ByNpc(j) ==> entities'[j] == entities[j]
    ensures forall p :: (p in ships && actor != ByPlayer(p) &&
      !(Hits(t, entities, ships, actor, moduleIndex, targetIndex) && entities[targetIndex] == PlayerEntity(p))) ==> ships'[p] == ships[p]
    ensures targetIndex < |entities| && entities[targetIndex].FacilityEntity? ==> entities'[targetIndex] == entities[targetIndex]
    ensures loot != EmptyCargo ==> Hits(t, entities, ships, actor, moduleIndex, targetIndex) && entities[targetIndex].Lifeless?
    ensures Hits(t, entities, ships, actor, moduleIndex, targetIndex) && entities[targetIndex].Lifeless? ==>
      var ship := ActorShip(entities, ships, actor);
      var target := entities[targetIndex];
      && loot.ore == MinedOre(FirstMine(TargetEffects(t, ship, moduleIndex)), target.remainingOre, t.cargoFree(ship.cargo, ship.fitting).ore)
      && entities'[targetIndex] == Lifeless(target.id, t.applyToTarget(target.status, TargetEffects(t, ship, moduleIndex)), target.remainingOre - loot.ore)
    ensures Hits(t, entities, ships, actor, moduleIndex, targetIndex) && entities[targetIndex].Npc? && actor != ByNpc(targetIndex as int) ==>
      var npc := entities[targetIndex];
      entities'[targetIndex] == Npc(npc.faction, npc.fitting, t.applyToTarget(npc.status, TargetEffects(t, ActorShip(entities, ships, actor), moduleIndex)), npc.cargo)
    ensures Hits(t, entities, ships, actor, moduleIndex, targetIndex) && entities[targetIndex].PlayerEntity? ==>
      var q := entities[targetIndex].player;
      && entities'[targetIndex] == entities[targetIndex]
      && (actor != ByPlayer(q) ==>
            ships'[q] == ships[q].(status := t.applyToTarget(ships[q].status, TargetEffects(t, ActorShip(entities, ships, actor), moduleIndex))))
  {
    var ship := ActorShip(entities, ships, actor);
    var origin := ActorLog(entities, ships, actor);
    var free := t.cargoFree(ship.cargo, ship.fitting);
    var used;
    entities', ships', used := FireOrigin(t, entities, ships, actor, moduleIndex);
    log' := log;
    var gained := EmptyCargo;
    if used.Some? && targetIndex < |entities'| {
      var target := entities'[targetIndex];
      var ships2, target', mined := ApplyTargetedToTarget(t, ships', target, used.value.1, free);
      entities' := entities'[targetIndex := target'];
      ships' := ships2;
      log' := log' + [ModuleTargetedLog(origin, used.value.0, t.logActorOf(ships', target'))];
      gained := mined;
    }
    loot := gained;
    assert ActorShip(entities', ships', actor).cargo == ship.cargo;
    entities', ships' := PayLoot(t, entities', ships', actor, gained);
  }

  /**
   * The end of `apply_targeted`: the loot is added to the user's cargo with `Cargo::add`, and
   * nothing else changes; putting the old cargo back restores the state as it was.
   */
  method PayLoot(t: Typings, entities: seq<SiteEntity>, ships: map<Player, Ship>, actor: Actor, loot: Cargo)
    returns (entities': seq<SiteEntity>, ships': map<Player, Ship>)
    requires ActorPresent(entities, ships, actor)
    requires PlayersHaveShips(entities, ships)
    ensures ActorPresent(entities', ships', actor) && PlayersHaveShips(entities', ships')
    ensures var before := ActorShip(entities, ships, actor);
      ActorShip(entities', ships', actor) == before.(cargo := t.cargoAdd(before.cargo, loot))
    ensures OnlyActorChanged(entities, ships, entities', ships', actor)
    ensures WithActorShip(entities', ships', actor, ActorShip(entities', ships', actor).(cargo := ActorShip(entities, ships, actor).cargo))
            == (entities, ships)
  {
    var current := ActorShip(entities, ships, actor);
    var paid := WithActorShip(entities, ships, actor, current.(cargo := t.cargoAdd(current.cargo, loot)));
    entities', ships' := paid.0, paid.1;
    OnlyActorChangedKeepsShips(entities, ships, entities', ships', actor);
    WithActorShipTwice(entities, ships, actor, current.(cargo := t.cargoAdd(current.cargo, loot)), current);
    assert ActorShip(entities', ships', actor).(cargo := current.cargo) == current;
  }

  /** `self_destruct`: the actor's status becomes `Status::DEAD`; nothing else changes and nothing is logged. */
  method SelfDestruct(t: Typings, entities: seq<SiteEntity>, ships: map<Player, Ship>, actor: Actor)
    returns (entities': seq<SiteEntity>, ships': map<Player, Ship>)
    requires ActorPresent(entities, ships, actor)
    ensures ActorPresent(entities', ships', actor)
    ensures ActorShip(entities', ships', actor) == ActorShip(entities, ships, actor).(status := t.dead)
    ensures OnlyActorChanged(entities, ships, entities', ships', actor)
  {
    var ship := ActorShip(entities, ships, actor);
    var written := WithActorShip(entities, ships, actor, ship.(status := t.dead));
    entities', ships' := written.0, written.1;
  }
}
