/**
 * Records of the oldest round engine (src/math/round.rs, src/math/instructions.rs), where a
 * player is identified by a string and the player's location names sites by string.
 */
module LegacyTypes {
  import opened Common
  import Effect

  type PlayerId = string

  /** A player's instruction for one round (`typings::frontrw::instruction::Instruction`). */
  datatype Instruction =
    | ModuleUntargeted(moduleIndex: u8)
    | ModuleTargeted(moduleIndex: u8, targetIndexInSite: u8)
    | Undock
    | Facility(service: Service)
    | Warp(siteUnique: string)

  /**
   * The part of the derived `Ord` on instructions that the source's unit tests pin down:
   * untargeted module use, then targeted module use, then undocking.
   */
  predicate PinnedBefore(a: Instruction, b: Instruction)
  {
    || (a.ModuleUntargeted? && (b.ModuleTargeted? || b.Undock?))
    || (a.ModuleTargeted? && b.Undock?)
  }

  /** Assumption about the comparator that stands for the derived `Ord`. */
  ghost predicate RespectsPinned(le: (Instruction, Instruction) -> bool)
  {
    forall a, b :: PinnedBefore(a, b) ==> !le(b, a)
  }

  datatype PlayerLocation =
    | Station(solarsystem: Solarsystem, station: u8)
    | Site(solarsystem: Solarsystem, siteUnique: string)
    | Warp(solarsystem: Solarsystem, towardsSiteUnique: string)

  datatype Ship = Ship(fitting: Fitting, status: Status)

  datatype SiteEntity =
    | Facility(facility: string)
    | Lifeless(lifeless: string, status: Status)
    | Npc(faction: NpcFaction, fitting: Fitting, status: Status)
    | Player(id: PlayerId, shiplayout: LayoutId)

  datatype UntargetedModule = UntargetedModule(effects: seq<Effect.Effect>)
  datatype TargetedModule = TargetedModule(effectsOrigin: seq<Effect.Effect>, effectsTarget: seq<Effect.Effect>)

  /** Site information: only its unique name is read. */
  datatype SiteInfo = SiteInfo(siteUnique: string)
}
