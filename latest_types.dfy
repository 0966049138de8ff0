/**
 * Records of the newest typings, used by NPC instruction generation
 * (src/gameloop/site_round/npc_instructions.rs) and by the station handler (src/station/mod.rs):
 * site entities carry their ship inline, a ship carries collateral and a cargo storage, and a
 * player's station assets hold a current ship and an item storage.
 */
module LatestTypes {
  import opened Common
  import SiteTypes

  /** A module as an item of trade or storage, by the slot kind it fits. */
  datatype Module = PassiveModule(id: ModuleId) | TargetedModule(id: ModuleId) | UntargetedModule(id: ModuleId)

  /** Anything a storage can hold. */
  datatype Item = ModuleItem(fitted: Module) | Mineral(mineral: string) | Ore(ore: string)

  /** Item amounts; an item that is not a key is held zero times. */
  type Storage = map<Item, u32>

  function Amount(storage: Storage, item: Item): u32
  {
    if item in storage then storage[item] else 0
  }

  /** What a ship can still lose before it is destroyed; shaped like a status. */
  type Collateral = Status

  datatype Ship = Ship(fitting: Fitting, collateral: Collateral, cargo: Storage)

  datatype Entity =
    | FacilityEntity(facility: string)
    | LifelessEntity(lifeless: string)
    | NpcEntity(faction: NpcFaction, ship: Ship)
    | PlayerEntity(player: SiteTypes.Player, ship: Ship)

  /** A player's belongings at one station. */
  datatype StationAssets = StationAssets(currentShip: Option<Ship>, storage: Storage, hangar: seq<Ship>)

  /** The player's station-independent record; paperclips are the currency. */
  datatype General = General(paperclips: u64)
}
