/** Status arithmetic of single module effects (src/math/effect.rs). */
module Effect {
  import opened Common

  /** A module effect as the oldest round engine knows it (`typings::fixed::module::Effect`). */
  datatype Effect =
    | Capacitor(capacitorDelta: i16)
    | ArmorRepair(repair: u16)
    | Damage(damage: u16)
    | Mine(strength: u16)
    | WarpDisruption

  /**
   * The status after a hit, in closed form: armor drops by the damage but not below 0, and
   * whatever the armor could not absorb comes off the structure, again not below 0.
   */
  function Damaged(s: Status, damage: u16): Status
  {
    Status(s.capacitor, Max(s.armor - damage, 0), Max(s.structure - Max(damage - s.armor, 0), 0))
  }

  /** `apply_damage`: armor absorbs first; the rest is saturating-subtracted from structure. */
  method ApplyDamage(status: Status, damage: u16) returns (after: Status)
    ensures after == Damaged(status, damage)
    ensures after.capacitor == status.capacitor
    ensures damage <= status.armor ==> after.structure == status.structure
  {
    after := status;
    var dmgRemaining := damage;

    var armorDmg := Min(after.armor, dmgRemaining);
    dmgRemaining := dmgRemaining - armorDmg;
    after := after.(armor := after.armor - armorDmg);

    after := after.(structure := SatSubU16(after.structure, dmgRemaining));
  }

  /**
   * The four damage tests of the source, each a hit for 10: `damage_against_armor` (42/42 becomes
   * 32/42), `damage_against_structure` (0/42 becomes 0/32), `damage_against_armor_and_structure`
   * (3/42 becomes 0/35) and `damage_against_structure_min_zero` (0/2 becomes 0/0).
   */
  method DamageExamples() returns (armor: Status, structure: Status, both: Status, floored: Status)
    ensures armor == Status(0, 32, 42)
    ensures structure == Status(0, 0, 32)
    ensures both == Status(0, 0, 35)
    ensures floored == Status(0, 0, 0)
  {
    armor := ApplyDamage(Status(0, 42, 42), 10);
    structure := ApplyDamage(Status(0, 0, 42), 10);
    both := ApplyDamage(Status(0, 3, 42), 10);
    floored := ApplyDamage(Status(0, 0, 2), 10);
  }

  /** Damage never raises anything, and the armor loss plus the structure loss is at most the damage. */
  lemma DamageOnlyLowers(s: Status, damage: u16)
    ensures Damaged(s, damage).armor <= s.armor
    ensures Damaged(s, damage).structure <= s.structure
    ensures (s.armor - Damaged(s, damage).armor) + (s.structure - Damaged(s, damage).structure) <= damage
  {
  }

  /**
   * `apply_to_status`: one effect on a copy of `before`. A capacitor change is clamped into
   * `[0, max.capacitor]`, an armor repair saturates and is capped at `max.hitpoints_armor`,
   * damage goes through `apply_damage`, and mining or warp disruption change nothing here.
   */
  function ApplyToStatus(before: Status, max: Status, effect: Effect): (r: Status)
    ensures effect.Capacitor? ==>
      && r.armor == before.armor && r.structure == before.structure
      && 0 <= r.capacitor <= max.capacitor
      && (0 <= before.capacitor + effect.capacitorDelta <= max.capacitor ==>
            r.capacitor == before.capacitor + effect.capacitorDelta)
      && (before.capacitor + effect.capacitorDelta < 0 ==> r.capacitor == 0)
      && (before.capacitor + effect.capacitorDelta > max.capacitor ==> r.capacitor == max.capacitor)
    ensures effect.ArmorRepair? ==>
      && r.capacitor == before.capacitor && r.structure == before.structure
      && r.armor <= max.armor
      && (before.armor + effect.repair <= max.armor ==> r.armor == before.armor + effect.repair)
      && (before.armor + effect.repair >= max.armor ==> r.armor == max.armor)
    ensures effect.Damage? ==> r == Damaged(before, effect.damage)
    ensures effect.Mine? || effect.WarpDisruption? ==> r == before
  {
    match effect
    case Capacitor(amount) =>
      // i16 + u16 always fits an i32, so `saturating_add` never saturates here.
      var sum := before.capacitor + amount;
      var after := Min(Max(sum, 0), max.capacitor);
      before.(capacitor := after)
    case ArmorRepair(amount) =>
      before.(armor := Min(SatAddU16(before.armor, amount), max.armor))
    case Damage(damage) => Damaged(before, damage)
    case Mine(_) => before
    case WarpDisruption => before
  }
}
