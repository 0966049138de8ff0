/**
 * Instructions a docked player gives at a station (src/station/mod.rs): switching, repairing,
 * refitting and undocking the current ship, moving items between storage and cargo, recycling,
 * and placing market orders. The persisted records the handler reads and writes are one value,
 * `Persist`; a read of a record that does not exist yields its default, as the source's
 * persistence does, except for site entities, whose read fails.
 */
module Station {
  import opened Common
  import opened LatestTypes
  import SiteTypes

  datatype SlotKind = PassiveSlots | TargetedSlots | UntargetedSlots

  /** A trade request as the player sends it, and the market order it becomes. */
  datatype TradeRequest = TradeRequest(item: Item, amount: u32, paperclips: u32)
  datatype Order = Order(player: SiteTypes.Player, solarsystem: Solarsystem, station: u8, amount: u32, paperclips: u32)

  /** The market as this handler sees it: the orders it has placed, in order. */
  datatype MarketOrder = BuyOrder(bought: Item, buy: Order) | SellOrder(sold: Item, sell: Order)

  datatype ItemAmount = ItemAmount(item: Item, amount: u32)

  datatype StationInstruction =
    | SwitchShip(shipIndex: u8)
    | Repair
    | Undock
    | ModuleAdd(adding: Module)
    | ModulePassiveRemove(passiveIndex: u8)
    | ModuleTargetedRemove(targetedIndex: u8)
    | ModuleUntargetedRemove(untargetedIndex: u8)
    | ShipCargoLoad(load: ItemAmount)
    | ShipCargoUnload(unload: ItemAmount)
    | Buy(buyRequest: TradeRequest)
    | Sell(sellRequest: TradeRequest)
    | Recycle(recycled: Item, recycleAmount: u32)

  /** Which station's assets of which player. */
  datatype AssetsKey = AssetsKey(player: SiteTypes.Player, solarsystem: Solarsystem, station: u8)

  datatype Persist = Persist(
    locations: map<SiteTypes.Player, SiteTypes.PlayerLocation>,
    stationAssets: map<AssetsKey, StationAssets>,
    generals: map<SiteTypes.Player, General>,
    siteEntities: map<(Solarsystem, SiteTypes.Site), seq<Entity>>,
    market: seq<MarketOrder>)

  /** What `anyhow::Result<()>` carries back. */
  datatype Outcome = Ok | Err(reason: string)

  /**
   * What the handler calls but this model does not contain: the storage operations
   * `take_max`, `take_exact` and `saturating_add`, the static recycling table,
   * `maximum_collateral`, the order on collateral, `Fitting::is_valid`, `Ship::free_cargo`,
   * `Ship::default`, `StationAssets::switch_ship`, `to_order`, `total_paperclips` and the
   * defaults of the persisted records.
   */
  datatype Typings = Typings(
    takeMax: (Storage, Item, u32) -> (Storage, u32),
    takeExact: (Storage, Item, u32) -> (bool, Storage),
    saturatingAdd: (Storage, Item, u32) -> Storage,
    recycleYield: Item -> seq<(Item, u32)>,
    maximumCollateral: Fitting -> Collateral,
    collateralLe: (Collateral, Collateral) -> bool,
    fittingValid: Fitting -> bool,
    freeCargo: Ship -> u32,
    defaultShip: Ship,
    switchShip: (StationAssets, u8) -> StationAssets,
    toOrder: (TradeRequest, SiteTypes.Player, Solarsystem, u8) -> (Item, Order),
    totalPaperclips: Order -> u64,
    defaultAssets: StationAssets,
    defaultGeneral: General,
    defaultLocation: SiteTypes.PlayerLocation)

  /** Every amount of `after` equals that of `before`, except `item`, which holds `amount`. */
  ghost predicate OnlyItemSetTo(before: Storage, after: Storage, item: Item, amount: int)
  {
    && Amount(after, item) == amount
    && forall other :: other != item ==> Amount(after, other) == Amount(before, other)
  }

  /** `take_max`: takes as much as is held, up to `max`, and says how much. */
  ghost predicate TakesMax(before: Storage, item: Item, max: u32, out: (Storage, u32))
  {
    && out.1 == Min(max, Amount(before, item))
    && OnlyItemSetTo(before, out.0, item, Amount(before, item) - out.1)
  }

  /** `take_exact`: takes exactly `amount` and says so, or takes nothing and says so. */
  ghost predicate TakesExact(before: Storage, item: Item, amount: u32, out: (bool, Storage))
  {
    && (out.0 <==> amount <= Amount(before, item))
    && (out.0 ==> OnlyItemSetTo(before, out.1, item, Amount(before, item) - amount))
    && (!out.0 ==> out.1 == before)
  }

  /** `saturating_add`: adds `amount`, stopping at the largest `u32`. */
  ghost predicate SaturatingAdds(before: Storage, item: Item, amount: u32, after: Storage)
  {
    OnlyItemSetTo(before, after, item, SatAddU32(Amount(before, item), amount))
  }

  /** Assumptions about the storage operations of the typings crate. */
  ghost predicate StorageLaws(t: Typings)
  {
    && (forall s, item, max :: TakesMax(s, item, max, t.takeMax(s, item, max)))
    && (forall s, item, amount :: TakesExact(s, item, amount, t.takeExact(s, item, amount)))
    && (forall s, item, amount :: SaturatingAdds(s, item, amount, t.saturatingAdd(s, item, amount)))
  }

  /** Assumption about the derived order on collateral: any two values compare. */
  ghost predicate CollateralTotal(t: Typings)
  {
    forall a, b :: t.collateralLe(a, b) || t.collateralLe(b, a)
  }

  function Slots(fitting: Fitting, kind: SlotKind): seq<ModuleId>
  {
    match kind
    case PassiveSlots => fitting.slotsPassive
    case TargetedSlots => fitting.slotsTargeted
    case UntargetedSlots => fitting.slotsUntargeted
  }

  function WithSlots(fitting: Fitting, kind: SlotKind, slots: seq<ModuleId>): (r: Fitting)
    ensures Slots(r, kind) == slots && r.layout == fitting.layout
    ensures forall other :: other != kind ==> Slots(r, other) == Slots(fitting, other)
  {
    match kind
    case PassiveSlots => fitting.(slotsPassive := slots)
    case TargetedSlots => fitting.(slotsTargeted := slots)
    case UntargetedSlots => fitting.(slotsUntargeted := slots)
  }

  function KindOf(m: Module): SlotKind
  {
    match m
    case PassiveModule(_) => PassiveSlots
    case TargetedModule(_) => TargetedSlots
    case UntargetedModule(_) => UntargetedSlots
  }

  /** The item a slot of `kind` holding `id` becomes in storage (`Into<Item>`). */
  function AsItem(kind: SlotKind, id: ModuleId): (r: Item)
    ensures r.ModuleItem? && KindOf(r.fitted) == kind && r.fitted.id == id
  {
    match kind
    case PassiveSlots => ModuleItem(PassiveModule(id))
    case TargetedSlots => ModuleItem(TargetedModule(id))
    case UntargetedSlots => ModuleItem(UntargetedModule(id))
  }

  function AssetsAt(t: Typings, persist: Persist, key: AssetsKey): StationAssets
  {
    if key in persist.stationAssets then persist.stationAssets[key] else t.defaultAssets
  }

  function GeneralOf(t: Typings, persist: Persist, player: SiteTypes.Player): General
  {
    if player in persist.generals then persist.generals[player] else t.defaultGeneral
  }

  function LocationOf(t: Typings, persist: Persist, player: SiteTypes.Player): SiteTypes.PlayerLocation
  {
    if player in persist.locations then persist.locations[player] else t.defaultLocation
  }

  /** `current_ship.unwrap_or_default()` */
  function CurrentOrDefault(t: Typings, assets: StationAssets): Ship
  {
    if assets.currentShip.Some? then assets.currentShip.value else t.defaultShip
  }

  /** The current ship, if any, keeps collateral within what its fitting allows. */
  predicate ClampedAssets(t: Typings, assets: StationAssets)
  {
    assets.currentShip.Some? ==>
      var ship := assets.currentShip.value;
      t.collateralLe(ship.collateral, t.maximumCollateral(ship.fitting))
  }

  /**
   * The clamp after every instruction: the current ship's collateral becomes the smaller of
   * itself and the fitting's maximum (`Ord::min`, which keeps the first of two equal values).
   */
  function ClampCollateral(t: Typings, assets: StationAssets): (r: StationAssets)
    requires CollateralTotal(t)
    ensures ClampedAssets(t, r)
    ensures r.storage == assets.storage && r.hangar == assets.hangar
    ensures r.currentShip.Some? <==> assets.currentShip.Some?
    ensures r.currentShip.Some? ==>
      var before, after := assets.currentShip.value, r.currentShip.value;
      after.fitting == before.fitting && after.cargo == before.cargo
    ensures ClampedAssets(t, assets) ==> r == assets
  {
    match assets.currentShip
    case None => assets
    case Some(ship) =>
      var maximum := t.maximumCollateral(ship.fitting);
      var collateral := if t.collateralLe(ship.collateral, maximum) then ship.collateral else maximum;
      assets.(currentShip := Some(ship.(collateral := collateral)))
  }

  /**
   * `ship_module_remove`: an index inside the slot list takes that slot out, keeping the order
   * of the others, and puts one of the module into storage; any other index changes nothing.
   */
  method ShipModuleRemove(t: Typings, storage: Storage, slots: seq<ModuleId>, kind: SlotKind, index: u8)
    returns (storage': Storage, slots': seq<ModuleId>)
    requires StorageLaws(t)
    ensures index < |slots| ==>
      && slots' == Without(slots, index)
      && SaturatingAdds(storage, AsItem(kind, slots[index]), 1, storage')
    ensures index >= |slots| ==> storage' == storage && slots' == slots
  {
    storage', slots' := storage, slots;
    if index < |slots'| {
      var removed := slots'[index];
      slots' := slots'[..index] + slots'[index + 1..];
      storage' := t.saturatingAdd(storage', AsItem(kind, removed), 1);
    }
  }

  /** The sum over the recycling table's rows for `mineral` of what `amount` items yield. */
  function Credited(table: seq<(Item, u32)>, mineral: Item, amount: u32): nat
  {
    if table == [] then 0
    else
      var n := |table| - 1;
      var row := table[n];
      Credited(table[..n], mineral, amount) + if row.0 == mineral then SatMulU32(amount, row.1) else 0
  }

  /**
   * What recycling up to `amount` of `item` leaves of `x` in storage: the recycled items are
   * gone and every yield is added with saturation, so the total stops at the largest `u32`.
   */
  function RecycledAmount(t: Typings, storage: Storage, item: Item, amount: u32, x: Item): (r: u32)
  {
    var taken := Min(amount, Amount(storage, item));
    var kept := Amount(storage, x) - if x == item then taken else 0;
    Min(kept + Credited(t.recycleYield(item), x, taken), U32_MAX)
  }

  /** `recycle`: take what there is of the item, up to `amount`, and add each of its yields. */
  method RecycleItems(t: Typings, storage: Storage, item: Item, amount: u32) returns (storage': Storage)
    requires StorageLaws(t)
    ensures forall x :: Amount(storage', x) == RecycledAmount(t, storage, item, amount, x)
  {
    var taken := t.takeMax(storage, item, amount);
    assert TakesMax(storage, item, amount, taken);
    storage' := taken.0;
    var n := taken.1;
    ghost var base := storage';
    var table := t.recycleYield(item);
    for k := 0 to |table|
      invariant forall x :: Amount(storage', x) == Min(Amount(base, x) + Credited(table[..k], x, n), U32_MAX)
    {
      var mineral, factor := table[k].0, table[k].1;
      var before := storage';
      storage' := t.saturatingAdd(storage', mineral, SatMulU32(n, factor));
      assert SaturatingAdds(before, mineral, SatMulU32(n, factor), storage');
      assert table[..k + 1][..k] == table[..k];
    }
    assert table[..|table|] == table;
  }

  /** No row of a recycling table credits anything for zero items. */
  lemma {:induction false} CreditedNothing(table: seq<(Item, u32)>, mineral: Item)
    ensures Credited(table, mineral, 0) == 0
  {
    if table != [] {
      CreditedNothing(table[..|table| - 1], mineral);
    }
  }

  /** Recycling an item the storage does not hold changes no amount. */
  lemma RecycleNothing(t: Typings, storage: Storage, item: Item, amount: u32, x: Item)
    requires Amount(storage, item) == 0
    ensures RecycledAmount(t, storage, item, amount, x) == Amount(storage, x)
  {
    CreditedNothing(t.recycleYield(item), x);
  }

  /**
   * Recycling all of an item whose single row yields one `mineral` per item: the items are
   * gone and as many of the mineral arrive.
   */
  lemma RecycleOneForOne(t: Typings, storage: Storage, item: Item, mineral: Item)
    requires t.recycleYield(item) == [(mineral, 1)] && mineral != item
    requires Amount(storage, mineral) == 0
    ensures RecycledAmount(t, storage, item, Amount(storage, item), item) == 0
    ensures RecycledAmount(t, storage, item, Amount(storage, item), mineral) == Amount(storage, item)
  {
    var table, n := t.recycleYield(item), Amount(storage, item);
    assert table[..0] == [];
    assert Credited(table, mineral, n) == SatMulU32(n, 1) == n;
    assert Credited(table, item, n) == 0;
  }

  /** `Repair`: the current ship, if any, gets the fitting's maximum collateral. */
  predicate Repaired(t: Typings, assets: StationAssets, after: StationAssets)
  {
    match assets.currentShip
    case None => after == assets
    case Some(ship) =>
      after == assets.(currentShip := Some(ship.(collateral := t.maximumCollateral(ship.fitting))))
  }

  /**
   * `ModuleAdd` that passed the fitting check: with one of the module in storage it is taken
   * from there and fitted at the end of its slot list; without it nothing changes.
   */
  ghost predicate ModuleAdded(t: Typings, assets: StationAssets, m: Module, after: StationAssets)
  {
    var item := ModuleItem(m);
    var ship := CurrentOrDefault(t, assets);
    var kind := KindOf(m);
    if Amount(assets.storage, item) < 1 then after == assets
    else
      && OnlyItemSetTo(assets.storage, after.storage, item, Amount(assets.storage, item) - 1)
      && after.currentShip == Some(ship.(fitting := WithSlots(ship.fitting, kind, Slots(ship.fitting, kind) + [m.id])))
      && after.hangar == assets.hangar
  }

  /** The ship a `ModuleAdd` would produce; the source validates it before taking the module. */
  function Refitted(t: Typings, assets: StationAssets, m: Module): Fitting
  {
    var fitting := CurrentOrDefault(t, assets).fitting;
    WithSlots(fitting, KindOf(m), Slots(fitting, KindOf(m)) + [m.id])
  }

  /**
   * A `Module…Remove`: the current ship (the default one when there is none) loses the slot, if
   * it exists, to storage, and becomes the current ship.
   */
  ghost predicate ModuleRemoved(t: Typings, assets: StationAssets, kind: SlotKind, index: u8, after: StationAssets)
  {
    var ship := CurrentOrDefault(t, assets);
    var slots := Slots(ship.fitting, kind);
    && after.hangar == assets.hangar
    && after.currentShip.Some?
    && var ship' := after.currentShip.value;
    && ship'.collateral == ship.collateral && ship'.cargo == ship.cargo
    && if index < |slots| then
         && ship'.fitting == WithSlots(ship.fitting, kind, Without(slots, index))
         && SaturatingAdds(assets.storage, AsItem(kind, slots[index]), 1, after.storage)
       else
         ship'.fitting == ship.fitting && after.storage == assets.storage
  }

  /**
   * `ShipCargoLoad`: moves as much of the item as storage holds, up to the smaller of the
   * request and the free cargo, into the current ship (a default one when there is none).
   */
  ghost predicate CargoLoaded(t: Typings, assets: StationAssets, load: ItemAmount, after: StationAssets)
  {
    var ship := CurrentOrDefault(t, assets);
    var moved := Min(Min(t.freeCargo(ship), load.amount), Amount(assets.storage, load.item));
    && after.hangar == assets.hangar
    && after.currentShip.Some?
    && var ship' := after.currentShip.value;
    && ship'.fitting == ship.fitting && ship'.collateral == ship.collateral
    && OnlyItemSetTo(assets.storage, after.storage, load.item, Amount(assets.storage, load.item) - moved)
    && SaturatingAdds(ship.cargo, load.item, moved, ship'.cargo)
  }

  /**
   * `ShipCargoUnload`: moves as much of the item as the cargo holds, up to the request, into
   * storage; without a current ship nothing changes.
   */
  ghost predicate CargoUnloaded(assets: StationAssets, unload: ItemAmount, after: StationAssets)
  {
    match assets.currentShip
    case None => after == assets
    case Some(ship) =>
      var moved := Min(unload.amount, Amount(ship.cargo, unload.item));
      && after.hangar == assets.hangar
      && after.currentShip.Some?
      && var ship' := after.currentShip.value;
      && ship'.fitting == ship.fitting && ship'.collateral == ship.collateral
      && OnlyItemSetTo(ship.cargo, ship'.cargo, unload.item, Amount(ship.cargo, unload.item) - moved)
      && SaturatingAdds(assets.storage, unload.item, moved, after.storage)
  }

  /**
   * A load moves no more than the request and the free cargo allow, and, unless the cargo
   * amount saturates, what leaves storage is exactly what enters the cargo.
   */
  lemma LoadConserves(t: Typings, assets: StationAssets, load: ItemAmount, after: StationAssets)
    requires CargoLoaded(t, assets, load, after)
    ensures var ship := CurrentOrDefault(t, assets);
      var moved := Amount(assets.storage, load.item) - Amount(after.storage, load.item);
      && 0 <= moved <= load.amount && moved <= t.freeCargo(ship)
      && (Amount(ship.cargo, load.item) + moved <= U32_MAX ==>
            Amount(after.storage, load.item) + Amount(after.currentShip.value.cargo, load.item)
            == Amount(assets.storage, load.item) + Amount(ship.cargo, load.item))
  {
  }

  /** An unload moves no more than requested and, unless storage saturates, loses nothing. */
  lemma UnloadConserves(assets: StationAssets, unload: ItemAmount, after: StationAssets)
    requires CargoUnloaded(assets, unload, after)
    requires assets.currentShip.Some?
    ensures var cargo := assets.currentShip.value.cargo;
      var moved := Amount(cargo, unload.item) - Amount(after.currentShip.value.cargo, unload.item);
      && 0 <= moved <= unload.amount
      && (Amount(assets.storage, unload.item) + moved <= U32_MAX ==>
            Amount(after.storage, unload.item) + Amount(after.currentShip.value.cargo, unload.item)
            == Amount(assets.storage, unload.item) + Amount(cargo, unload.item))
  {
  }

  /** The instructions that return an error, each for the reason the source gives. */
  predicate Fails(t: Typings, persist: Persist, player: SiteTypes.Player, instruction: StationInstruction,
                  solarsystem: Solarsystem, station: u8)
  {
    var assets := AssetsAt(t, persist, AssetsKey(player, solarsystem, station));
    match instruction
    case Undock => (solarsystem, SiteTypes.Station(station)) !in persist.siteEntities
    case ModuleAdd(m) => !t.fittingValid(Refitted(t, assets, m))
    case Buy(request) =>
      var order := t.toOrder(request, player, solarsystem, station).1;
      GeneralOf(t, persist, player).paperclips < t.totalPaperclips(order)
    case Sell(request) =>
      var (item, order) := t.toOrder(request, player, solarsystem, station);
      Amount(assets.storage, item) < order.amount
    case _ => false
  }

  method ModuleRemove(t: Typings, assets: StationAssets, kind: SlotKind, index: u8) returns (assets': StationAssets)
    requires StorageLaws(t)
    ensures ModuleRemoved(t, assets, kind, index, assets')
  {
    var ship := CurrentOrDefault(t, assets);
    var storage, slots := ShipModuleRemove(t, assets.storage, Slots(ship.fitting, kind), kind, index);
    ship := ship.(fitting := WithSlots(ship.fitting, kind, slots));
    assets' := assets.(storage := storage, currentShip := Some(ship));
  }

  method LoadCargo(t: Typings, assets: StationAssets, load: ItemAmount) returns (assets': StationAssets)
    requires StorageLaws(t)
    ensures CargoLoaded(t, assets, load, assets')
  {
    var ship := CurrentOrDefault(t, assets);
    var free := t.freeCargo(ship);
    var amount := Min(free, load.amount);
    var taken := t.takeMax(assets.storage, load.item, amount);
    assert TakesMax(assets.storage, load.item, amount, taken);
    var cargo := t.saturatingAdd(ship.cargo, load.item, taken.1);
    assert SaturatingAdds(ship.cargo, load.item, taken.1, cargo);
    assets' := assets.(storage := taken.0, currentShip := Some(ship.(cargo := cargo)));
  }

  method UnloadCargo(t: Typings, assets: StationAssets, unload: ItemAmount) returns (assets': StationAssets)
    requires StorageLaws(t)
    ensures CargoUnloaded(assets, unload, assets')
  {
    assets' := assets;
    if assets.currentShip.Some? {
      var ship := assets.currentShip.value;
      var taken := t.takeMax(ship.cargo, unload.item, unload.amount);
      assert TakesMax(ship.cargo, unload.item, unload.amount, taken);
      var storage := t.saturatingAdd(assets.storage, unload.item, taken.1);
      assert SaturatingAdds(assets.storage, unload.item, taken.1, storage);
      assets' := assets.(storage := storage, currentShip := Some(ship.(cargo := taken.0)));
    }
  }

  /** The `Repair` arm of `do_instruction`. */
  method RepairShip(t: Typings, assets: StationAssets) returns (assets': StationAssets)
    ensures Repaired(t, assets, assets')
  {
    assets' := assets;
    if assets.currentShip.Some? {
      var ship := assets.currentShip.value;
      var collateral := t.maximumCollateral(ship.fitting);
      if ship.collateral != collateral {
        assets' := assets.(currentShip := Some(ship.(collateral := collateral)));
      }
    }
  }

  /** The `ModuleAdd` arm of `do_instruction`: `ok` is false exactly when the refitted ship is invalid. */
  method AddModule(t: Typings, assets: StationAssets, m: Module) returns (assets': StationAssets, ok: bool)
    requires StorageLaws(t)
    ensures ok <==> t.fittingValid(Refitted(t, assets, m))
    ensures ok ==> ModuleAdded(t, assets, m, assets')
    ensures !ok ==> assets' == assets
  {
    assets' := assets;
    var ship := CurrentOrDefault(t, assets);
    var kind := KindOf(m);
    ship := ship.(fitting := WithSlots(ship.fitting, kind, Slots(ship.fitting, kind) + [m.id]));
    ok := t.fittingValid(ship.fitting);
    if ok {
      var taken := t.takeExact(assets.storage, ModuleItem(m), 1);
      assert TakesExact(assets.storage, ModuleItem(m), 1, taken);
      if taken.0 {
        assets' := assets.(storage := taken.1, currentShip := Some(ship));
      }
    }
  }

  /** The storage side of the `Sell` arm: `ok` is false exactly when too few items are stored. */
  method TakeSold(t: Typings, assets: StationAssets, item: Item, amount: u32) returns (assets': StationAssets, ok: bool)
    requires StorageLaws(t)
    ensures ok <==> amount <= Amount(assets.storage, item)
    ensures ok ==>
      && assets'.currentShip == assets.currentShip && assets'.hangar == assets.hangar
      && OnlyItemSetTo(assets.storage, assets'.storage, item, Amount(assets.storage, item) - amount)
    ensures !ok ==> assets' == assets
  {
    assets' := assets;
    var taken := t.takeExact(assets.storage, item, amount);
    assert TakesExact(assets.storage, item, amount, taken);
    ok := taken.0;
    if ok {
      assets' := assets.(storage := taken.1);
    }
  }

  /** The site side of the `Undock` arm: the ship enters the station's site and the player is located there. */
  method EnterSite(persist: Persist, player: SiteTypes.Player, ship: Ship, solarsystem: Solarsystem, station: u8)
    returns (persist': Persist, ok: bool)
    ensures ok <==> (solarsystem, SiteTypes.Station(station)) in persist.siteEntities
    ensures !ok ==> persist' == persist
    ensures ok ==>
      var site := SiteTypes.Station(station);
      persist' == persist.(
        siteEntities := persist.siteEntities[(solarsystem, site) := persist.siteEntities[(solarsystem, site)] + [PlayerEntity(player, ship)]],
        locations := persist.locations[player := SiteTypes.InSite(solarsystem, site)])
  {
    persist' := persist;
    var site := SiteTypes.Station(station);
    ok := (solarsystem, site) in persist'.siteEntities;
    if ok {
      var entities := persist'.siteEntities[(solarsystem, site)];
      entities := entities + [PlayerEntity(player, ship)];
      persist' := persist'.(siteEntities := persist'.siteEntities[(solarsystem, site) := entities]);
      persist' := persist'.(locations := persist'.locations[player := SiteTypes.InSite(solarsystem, site)]);
    }
  }

  /** The `Buy` arm: with enough paperclips they are paid and the order is placed. */
  method PlaceBuy(t: Typings, persist: Persist, player: SiteTypes.Player, item: Item, order: Order)
    returns (persist': Persist, ok: bool)
    ensures ok <==> t.totalPaperclips(order) <= GeneralOf(t, persist, player).paperclips
    ensures !ok ==> persist' == persist
    ensures ok ==> persist' == persist.(
      market := persist.market + [BuyOrder(item, order)],
      generals := persist.generals[player := General(GeneralOf(t, persist, player).paperclips - t.totalPaperclips(order))])
  {
    persist' := persist;
    var general := GeneralOf(t, persist', player);
    var total := t.totalPaperclips(order);
    ok := total <= general.paperclips;
    if ok {
      general := General(general.paperclips - total);
      persist' := persist'.(market := persist'.market + [BuyOrder(item, order)]);
      persist' := persist'.(generals := persist'.generals[player := general]);
    }
  }

  /**
   * What a successful `do_instruction` leaves behind, for a player docked at `station` of
   * `solarsystem`: the station assets are written back with the current ship's collateral
   * clamped, and only an undock, a buy or a sell touches anything beyond them. `unclamped` is
   * the assets value just before the clamp.
   */
  ghost predicate Performed(t: Typings, persist: Persist, player: SiteTypes.Player, instruction: StationInstruction,
                            solarsystem: Solarsystem, station: u8, persist': Persist, unclamped: StationAssets)
    requires CollateralTotal(t)
    requires !Fails(t, persist, player, instruction, solarsystem, station)
  {
    && (var key := AssetsKey(player, solarsystem, station);
        && persist'.stationAssets == persist.stationAssets[key := ClampCollateral(t, unclamped)]
        && ClampedAssets(t, AssetsAt(t, persist', key)))
    && (!instruction.Undock? ==>
        persist'.locations == persist.locations && persist'.siteEntities == persist.siteEntities)
    && (!instruction.Buy? ==> persist'.generals == persist.generals)
    && (!instruction.Buy? && !instruction.Sell? ==> persist'.market == persist.market)
    && (var assets := AssetsAt(t, persist, AssetsKey(player, solarsystem, station));
        match instruction
        case SwitchShip(index) => unclamped == t.switchShip(assets, index)
        case Repair => Repaired(t, assets, unclamped)
        case Undock =>
          var site := SiteTypes.Station(station);
          && unclamped == assets.(currentShip := None)
          && persist'.siteEntities == persist.siteEntities[(solarsystem, site) :=
               persist.siteEntities[(solarsystem, site)] + [PlayerEntity(player, CurrentOrDefault(t, assets))]]
          && persist'.locations == persist.locations[player := SiteTypes.InSite(solarsystem, site)]
        case ModuleAdd(m) => ModuleAdded(t, assets, m, unclamped)
        case ModulePassiveRemove(index) => ModuleRemoved(t, assets, PassiveSlots, index, unclamped)
        case ModuleTargetedRemove(index) => ModuleRemoved(t, assets, TargetedSlots, index, unclamped)
        case ModuleUntargetedRemove(index) => ModuleRemoved(t, assets, UntargetedSlots, index, unclamped)
        case ShipCargoLoad(load) => CargoLoaded(t, assets, load, unclamped)
        case ShipCargoUnload(unload) => CargoUnloaded(assets, unload, unclamped)
        case Buy(request) =>
          var (item, order) := t.toOrder(request, player, solarsystem, station);
          && unclamped == assets
          && persist'.generals == persist.generals[player :=
               General(GeneralOf(t, persist, player).paperclips - t.totalPaperclips(order))]
          && persist'.market == persist.market + [BuyOrder(item, order)]
        case Sell(request) =>
          var (item, order) := t.toOrder(request, player, solarsystem, station);
          && unclamped.currentShip == assets.currentShip && unclamped.hangar == assets.hangar
          && OnlyItemSetTo(assets.storage, unclamped.storage, item, Amount(assets.storage, item) - order.amount)
          && persist'.market == persist.market + [SellOrder(item, order)]
        case Recycle(item, amount) =>
          && unclamped.currentShip == assets.currentShip && unclamped.hangar == assets.hangar
          && forall x :: Amount(unclamped.storage, x) == RecycledAmount(t, assets.storage, item, amount, x))
  }

  /**
   * `do_instruction` for a player docked at `station` of `solarsystem`: an error exactly in the
   * `Fails` cases, and then nothing is written; otherwise the instruction is `Performed`.
   */
  method DoInstruction(t: Typings, persist: Persist, player: SiteTypes.Player, instruction: StationInstruction,
                       solarsystem: Solarsystem, station: u8)
    returns (persist': Persist, outcome: Outcome, ghost unclamped: StationAssets)
    requires StorageLaws(t) && CollateralTotal(t)
    ensures outcome.Err? <==> Fails(t, persist, player, instruction, solarsystem, station)
    ensures outcome.Err? ==> persist' == persist
    ensures outcome.Ok? ==> Performed(t, persist, player, instruction, solarsystem, station, persist', unclamped)
  {
    var key := AssetsKey(player, solarsystem, station);
    var assets := AssetsAt(t, persist, key);
    persist' := persist;
    match instruction {
      case SwitchShip(index) =>
        assets := t.switchShip(assets, index);
      case Repair =>
        assets := RepairShip(t, assets);
      case Undock =>
        var ship := CurrentOrDefault(t, assets);
        assets := assets.(currentShip := None);
        var ok;
        persist', ok := EnterSite(persist', player, ship, solarsystem, station);
        if !ok {
          outcome := Err("site entities are missing");
          unclamped := assets;
          return;
        }
      case ModuleAdd(m) =>
        var ok;
        assets, ok := AddModule(t, assets, m);
        if !ok {
          outcome := Err("fitting is not valid");
          unclamped := assets;
          return;
        }
      case ModulePassiveRemove(index) =>
        assets := ModuleRemove(t, assets, PassiveSlots, index);
      case ModuleTargetedRemove(index) =>
        assets := ModuleRemove(t, assets, TargetedSlots, index);
      case ModuleUntargetedRemove(index) =>
        assets := ModuleRemove(t, assets, UntargetedSlots, index);
      case ShipCargoLoad(load) =>
        assets := LoadCargo(t, assets, load);
      case ShipCargoUnload(unload) =>
        assets := UnloadCargo(t, assets, unload);
      case Buy(request) =>
        var (item, order) := t.toOrder(request, player, solarsystem, station);
        var ok;
        persist', ok := PlaceBuy(t, persist', player, item, order);
        if !ok {
          outcome := Err("not enough money for buy order");
          unclamped := assets;
          return;
        }
      case Sell(request) =>
        var (item, order) := t.toOrder(request, player, solarsystem, station);
        var ok;
        assets, ok := TakeSold(t, assets, item, order.amount);
        if ok {
          persist' := persist'.(market := persist'.market + [SellOrder(item, order)]);
        } else {
          outcome := Err("not enough items for sell order");
          unclamped := assets;
          return;
        }
      case Recycle(item, amount) =>
        var storage := RecycleItems(t, assets.storage, item, amount);
        assets := assets.(storage := storage);
    }
    unclamped := assets;
    persist' := persist'.(stationAssets := persist'.stationAssets[key := ClampCollateral(t, assets)]);
    outcome := Ok;
  }

  /**
   * `do_instructions`: a player who is not docked gets an error and nothing changes. A docked
   * player's instructions run in order at the station they are docked at: `trace` holds the
   * state before each instruction that ran, every instruction before the `done`-th is
   * `Performed` on the state it found, and the run stops with an error exactly at the first
   * instruction that `Fails`, leaving the state it failed on. No other player's station assets
   * change, and after a successful non-empty run the current ship's collateral at that station
   * is clamped.
   */
  method DoInstructions(t: Typings, persist: Persist, player: SiteTypes.Player, instructions: seq<StationInstruction>)
    returns (persist': Persist, outcome: Outcome, ghost done: nat, ghost trace: seq<Persist>, ghost unclamped: seq<StationAssets>)
    requires StorageLaws(t) && CollateralTotal(t)
    ensures !LocationOf(t, persist, player).Docked? ==> outcome.Err? && persist' == persist
    ensures instructions == [] ==> persist' == persist
    ensures LocationOf(t, persist, player).Docked? ==>
      var location := LocationOf(t, persist, player);
      && done <= |instructions| && |trace| == done + 1 && |unclamped| == done
      && trace[0] == persist && persist' == trace[done]
      && (forall i :: 0 <= i < done ==>
            && !Fails(t, trace[i], player, instructions[i], location.solarsystem, location.station)
            && Performed(t, trace[i], player, instructions[i], location.solarsystem, location.station, trace[i + 1], unclamped[i]))
      && (outcome.Err? <==> done < |instructions|)
      && (done < |instructions| ==> Fails(t, trace[done], player, instructions[done], location.solarsystem, location.station))
    ensures LocationOf(t, persist, player).Docked? ==>
      var location := LocationOf(t, persist, player);
      var key := AssetsKey(player, location.solarsystem, location.station);
      && (forall k :: k in persist.stationAssets && k != key ==>
            k in persist'.stationAssets && persist'.stationAssets[k] == persist.stationAssets[k])
      && (outcome.Ok? && instructions != [] ==> ClampedAssets(t, AssetsAt(t, persist', key)))
  {
    var location := LocationOf(t, persist, player);
    persist' := persist;
    done, trace, unclamped := 0, [persist], [];
    if !location.Docked? {
      outcome := Err("player is not docked");
      return;
    }
    var key := AssetsKey(player, location.solarsystem, location.station);
    outcome := Ok;
    for i := 0 to |instructions|
      invariant done == i && |trace| == i + 1 && |unclamped| == i
      invariant trace[0] == persist && persist' == trace[i]
      invariant forall k :: 0 <= k < i ==>
        && !Fails(t, trace[k], player, instructions[k], location.solarsystem, location.station)
        && Performed(t, trace[k], player, instructions[k], location.solarsystem, location.station, trace[k + 1], unclamped[k])
      invariant outcome.Ok?
      invariant forall k :: k in persist.stationAssets && k != key ==>
        k in persist'.stationAssets && persist'.stationAssets[k] == persist.stationAssets[k]
      invariant i > 0 ==> ClampedAssets(t, AssetsAt(t, persist', key))
    {
      var next: Persist;
      ghost var settled: StationAssets;
      next, outcome, settled := DoInstruction(t, persist', player, instructions[i], location.solarsystem, location.station);
      if outcome.Err? {
        return;
      }
      persist' := next;
      done, trace, unclamped := i + 1, trace + [next], unclamped + [settled];
    }
  }
}
