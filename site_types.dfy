/**
 * Records of the newest round engine (src/round/{instructions,entities,module,facility,
 * warp_player}.rs): a player is a copyable identifier, NPCs and players carry cargo, lifeless
 * things hold ore, and every transition appends to the site log.
 */
module SiteTypes {
  import opened Common

  /** A player identifier (`Player::Telegram(id)`). */
  datatype Player = Telegram(telegramId: int)

  /** A site of a solarsystem; only `Station` and `Stargate` are inspected by the round. */
  datatype Site = Station(station: u8) | Stargate(towards: Solarsystem) | AsteroidField(field: u8)

  datatype PlayerLocation =
    | Docked(solarsystem: Solarsystem, station: u8)
    | InSite(solarsystem: Solarsystem, site: Site)
    | InWarp(solarsystem: Solarsystem, towards: Site)

  /** A site instruction; its kind decides the order in which a round resolves it. */
  datatype SiteInstruction =
    | ModuleUntargeted(moduleIndex: u8)
    | ModuleTargeted(moduleIndex: u8, targetIndexInSite: u8)
    | SelfDestruct
    | Facility(service: Service)
    | Warp(target: Site)

  /**
   * The part of the derived `Ord` on site instructions that the source's unit test pins down:
   * untargeted module use, then targeted module use, then warping.
   */
  predicate PinnedBefore(a: SiteInstruction, b: SiteInstruction)
  {
    || (a.ModuleUntargeted? && (b.ModuleTargeted? || b.Warp?))
    || (a.ModuleTargeted? && b.Warp?)
  }

  /** Assumption about the comparator that stands for the derived `Ord`. */
  ghost predicate RespectsPinned(le: (SiteInstruction, SiteInstruction) -> bool)
  {
    forall a, b :: PinnedBefore(a, b) ==> !le(b, a)
  }

  /** Who issued an instruction: a player, or the NPC at a site index. */
  datatype Actor = ByPlayer(player: Player) | ByNpc(index: nat)

  /** A module effect; only the mining strength is read by the round itself. */
  datatype RoundEffect =
    | CapacitorDrain(drain: u32)
    | CapacitorRecharge(recharge: u32)
    | ArmorRepair(armorRepair: u32)
    | StructureRepair(structureRepair: u32)
    | Damage(damage: u32)
    | Mine(strength: u32)
    | WarpDisruption

  /** A targeted module's effects on its user and on its target. */
  datatype TargetedDetails = TargetedDetails(effectsOrigin: seq<RoundEffect>, effectsTarget: seq<RoundEffect>)

  /** Cargo held (`Cargo`) and free cargo space (`CargoAmounts`); ore is the only kind mined. */
  datatype Cargo = Cargo(ore: u32)
  datatype CargoAmounts = CargoAmounts(ore: u32)

  /** `Cargo::default()` */
  const EmptyCargo := Cargo(0)

  datatype Ship = Ship(fitting: Fitting, status: Status, cargo: Cargo)

  datatype SiteEntity =
    | FacilityEntity(facility: string)
    | Lifeless(id: string, status: Status, remainingOre: u32)
    | Npc(faction: NpcFaction, fitting: Fitting, status: Status, cargo: Cargo)
    | PlayerEntity(player: Player)

  /** How the site log names an entity. */
  datatype SiteLogActor =
    | LogPlayer(player: Player, layout: LayoutId)
    | LogNpc(faction: NpcFaction, layout: LayoutId)
    | LogFacility(facility: string)
    | LogLifeless(id: string)

  datatype SiteLog =
    | ModuleTargetedLog(origin: SiteLogActor, targeted: ModuleId, target: SiteLogActor)
    | WarpIn(actor: SiteLogActor)
    | WarpOut(actor: SiteLogActor)
    | DockLog(actor: SiteLogActor)
    | JumpLog(actor: SiteLogActor)

  /**
   * What this engine calls but this model does not contain: static module tables (a lookup
   * that cannot miss), `apply_to_origin` (all or nothing), `apply_to_target` (always applies),
   * `Status::is_alive`, `Status::DEAD`, `Cargo::free`, `Cargo::add`, `SiteLogActor::from`,
   * `filter_possible` and the derived `Ord` on site instructions.
   */
  datatype Typings = Typings(
    modulesUntargeted: ModuleId -> seq<RoundEffect>,
    modulesTargeted: ModuleId -> TargetedDetails,
    applyToOrigin: (Status, seq<RoundEffect>) -> Option<Status>,
    applyToTarget: (Status, seq<RoundEffect>) -> Status,
    isAlive: Status -> bool,
    dead: Status,
    cargoFree: (Cargo, Fitting) -> CargoAmounts,
    cargoAdd: (Cargo, Cargo) -> Cargo,
    logActorOf: (map<Player, Ship>, SiteEntity) -> SiteLogActor,
    filterPossible: seq<SiteInstruction> -> seq<SiteInstruction>,
    instructionLe: (SiteInstruction, SiteInstruction) -> bool)
}
