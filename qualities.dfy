/** Per-round ship qualities: capacitor recharge (src/math/qualities.rs). */
module Qualities {
  import opened Common

  datatype ShipQuality = HitpointsArmor | HitpointsStructure | Capacitor | CapacitorRecharge

  /** `i16::saturating_abs`: the absolute value, except that `-32768` gives `32767`. */
  function SatAbsI16(x: i16): (r: i16)
    ensures r >= 0
    ensures x > I16_MIN ==> r == (if x < 0 then -x else x)
    ensures x == I16_MIN ==> r == I16_MAX
  {
    if x >= 0 then x else if x == I16_MIN then I16_MAX else -x
  }

  /** `add`: a signed change on an unsigned `u16`, saturating at both ends. */
  function Add(base: u16, add: i16): (r: u16)
    ensures add >= 0 ==> base <= r && (r == base + add || r == U16_MAX)
    ensures add >= 0 && base + add <= U16_MAX ==> r == base + add
    ensures add < 0 ==> r <= base && (r == 0 || r == base - SatAbsI16(add))
    ensures add < 0 && SatAbsI16(add) <= base ==> r == base - SatAbsI16(add)
  {
    if add >= 0 then SatAddU16(base, add)
    else SatSubU16(base, SatAbsI16(add))
  }

  /** Adding 0 changes nothing. */
  lemma AddZero(base: u16)
    ensures Add(base, 0) == base
  {
  }

  /**
   * The most negative change removes one less than its magnitude, because the source takes a
   * saturating absolute value first: `add(32768, -32768)` is 1.
   */
  lemma AddMostNegative(base: u16)
    ensures Add(base, I16_MIN as i16) == Max(base - I16_MAX, 0)
    ensures Add(32768, I16_MIN as i16) == 1
  {
  }

  /**
   * `apply_round`: applies every per-round quality to the status. Only capacitor recharge
   * changes anything; the hitpoint and capacitor qualities are maxima and are skipped here.
   * The map is visited in whatever order its iterator yields; each quality occurs once.
   */
  method ApplyRound(status: Status, qualities: map<ShipQuality, i16>) returns (r: Status)
    ensures r.armor == status.armor && r.structure == status.structure
    ensures CapacitorRecharge in qualities ==>
      r.capacitor == Add(status.capacitor, qualities[CapacitorRecharge])
    ensures CapacitorRecharge !in qualities ==> r.capacitor == status.capacitor
  {
    r := status;
    var todo := qualities.Keys;
    while todo != {}
      invariant todo <= qualities.Keys
      invariant r.armor == status.armor && r.structure == status.structure
      invariant r.capacitor ==
        if CapacitorRecharge in qualities && CapacitorRecharge !in todo
        then Add(status.capacitor, qualities[CapacitorRecharge])
        else status.capacitor
      decreases todo
    {
      var q :| q in todo;
      match q {
        case HitpointsArmor =>
        case HitpointsStructure =>
        case Capacitor =>
        case CapacitorRecharge =>
          r := r.(capacitor := Add(r.capacitor, qualities[q]));
      }
      todo := todo - {q};
    }
  }

  /** `refills_cap`: capacitor 10 with recharge 2 becomes 12; `passive_is_ignored` too. */
  method RefillsCap() returns (refilled: Status, ignored: Status)
    ensures refilled == Status(12, 10, 10)
    ensures ignored == Status(10, 10, 10)
  {
    refilled := ApplyRound(Status(10, 10, 10), map[CapacitorRecharge := 2]);
    ignored := ApplyRound(Status(10, 10, 10), map[Capacitor := 666]);
  }
}
