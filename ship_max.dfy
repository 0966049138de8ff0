/** The maximum status a fitting supports: layout base plus passive bonuses (src/math/ship.rs). */
module ShipMax {
  import opened Common

  datatype ShipLayout = ShipLayout(capacitor: u16, armor: u16, structure: u16)

  /** A passive module's optional bonuses (`hitpoints_armor`, `capacitor`). */
  datatype PassiveModule = PassiveModule(armor: Option<u16>, capacitor: Option<u16>)

  /** The part of the static game data that `calc_max` reads. */
  datatype Statics = Statics(
    shipLayouts: map<LayoutId, ShipLayout>,
    modulesPassive: map<ModuleId, PassiveModule>)

  datatype CalcResult = Ok(status: Status) | Err(missingLayout: LayoutId)

  /** One passive slot's contribution; identifiers unknown to the statics contribute nothing. */
  function WithPassive(s: Status, passive: ModuleId, modules: map<ModuleId, PassiveModule>): Status
  {
    if passive !in modules then s
    else
      var m := modules[passive];
      var s := if m.armor.Some? then s.(armor := SatAddU16(s.armor, m.armor.value)) else s;
      if m.capacitor.Some? then s.(capacitor := SatAddU16(s.capacitor, m.capacitor.value)) else s
  }

  /** The passive slots applied in order to `base`. */
  function WithPassives(base: Status, slots: seq<ModuleId>, modules: map<ModuleId, PassiveModule>): Status
  {
    if slots == [] then base
    else WithPassive(WithPassives(base, slots[..|slots| - 1], modules), slots[|slots| - 1], modules)
  }

  /** Total armor bonus of the slots that the statics know, without any cap. */
  function ArmorBonus(slots: seq<ModuleId>, modules: map<ModuleId, PassiveModule>): nat
  {
    if slots == [] then 0
    else
      var p := slots[|slots| - 1];
      ArmorBonus(slots[..|slots| - 1], modules)
        + (if p in modules && modules[p].armor.Some? then modules[p].armor.value else 0)
  }

  /** Total capacitor bonus of the slots that the statics know, without any cap. */
  function CapacitorBonus(slots: seq<ModuleId>, modules: map<ModuleId, PassiveModule>): nat
  {
    if slots == [] then 0
    else
      var p := slots[|slots| - 1];
      CapacitorBonus(slots[..|slots| - 1], modules)
        + (if p in modules && modules[p].capacitor.Some? then modules[p].capacitor.value else 0)
  }

  /**
   * Saturating additions in sequence equal one sum capped once: armor and capacitor maxima are
   * the base plus all bonuses, cut at `u16::MAX`; structure is never touched by passives.
   */
  lemma {:induction false} WithPassivesClosedForm(base: Status, slots: seq<ModuleId>, modules: map<ModuleId, PassiveModule>)
    ensures WithPassives(base, slots, modules).structure == base.structure
    ensures WithPassives(base, slots, modules).armor == Min(base.armor + ArmorBonus(slots, modules), U16_MAX)
    ensures WithPassives(base, slots, modules).capacitor == Min(base.capacitor + CapacitorBonus(slots, modules), U16_MAX)
  {
    if slots != [] {
      WithPassivesClosedForm(base, slots[..|slots| - 1], modules);
    }
  }

  /** Passive slots that the statics do not know leave the maximum as it was. */
  lemma UnknownPassiveSkipped(base: Status, slots: seq<ModuleId>, unknown: ModuleId, modules: map<ModuleId, PassiveModule>)
    requires unknown !in modules
    ensures WithPassives(base, slots + [unknown], modules) == WithPassives(base, slots, modules)
  {
    assert (slots + [unknown])[..|slots|] == slots;
  }

  function BaseStatus(layout: ShipLayout): Status
  {
    Status(layout.capacitor, layout.armor, layout.structure)
  }

  /**
   * `calc_max`: an error exactly when the layout is missing from the statics; otherwise the
   * layout's base status with every known passive's bonuses saturating-added in slot order.
   */
  method CalcMax(statics: Statics, fitting: Fitting) returns (r: CalcResult)
    ensures r.Err? <==> fitting.layout !in statics.shipLayouts
    ensures r.Err? ==> r.missingLayout == fitting.layout
    ensures r.Ok? ==>
      var layout := statics.shipLayouts[fitting.layout];
      && r.status == WithPassives(BaseStatus(layout), fitting.slotsPassive, statics.modulesPassive)
      && r.status.structure == layout.structure
      && r.status.armor == Min(layout.armor + ArmorBonus(fitting.slotsPassive, statics.modulesPassive), U16_MAX)
      && r.status.capacitor == Min(layout.capacitor + CapacitorBonus(fitting.slotsPassive, statics.modulesPassive), U16_MAX)
  {
    if fitting.layout !in statics.shipLayouts {
      return Err(fitting.layout);
    }
    var layout := statics.shipLayouts[fitting.layout];
    var status := BaseStatus(layout);

    var slots := fitting.slotsPassive;
    for i := 0 to |slots|
      invariant status == WithPassives(BaseStatus(layout), slots[..i], statics.modulesPassive)
    {
      var passive := slots[i];
      if passive in statics.modulesPassive {
        var passiveModule := statics.modulesPassive[passive];
        if passiveModule.armor.Some? {
          status := status.(armor := SatAddU16(status.armor, passiveModule.armor.value));
        }
        if passiveModule.capacitor.Some? {
          status := status.(capacitor := SatAddU16(status.capacitor, passiveModule.capacitor.value));
        }
      }
      assert slots[..i + 1][..i] == slots[..i];
    }
    assert slots[..|slots|] == slots;
    WithPassivesClosedForm(BaseStatus(layout), slots, statics.modulesPassive);
    r := Ok(status);
  }

  /** `without_modules_works`: with no passive slots the maximum is the layout's own values. */
  lemma WithoutModules(layout: ShipLayout, modules: map<ModuleId, PassiveModule>)
    ensures WithPassives(BaseStatus(layout), [], modules) == Status(layout.capacitor, layout.armor, layout.structure)
  {
  }

  /**
   * `default_fitting_works`: one passive with an armor bonus and no capacitor bonus raises the
   * armor maximum by that bonus (when it stays within `u16`) and leaves the rest.
   */
  lemma OneArmorPassive(layout: ShipLayout, plate: ModuleId, modules: map<ModuleId, PassiveModule>)
    requires plate in modules && modules[plate].armor.Some? && modules[plate].capacitor.None?
    requires layout.armor + modules[plate].armor.value <= U16_MAX
    ensures WithPassives(BaseStatus(layout), [plate], modules) ==
      Status(layout.capacitor, layout.armor + modules[plate].armor.value, layout.structure)
  {
    assert [plate][..0] == [];
  }
}
