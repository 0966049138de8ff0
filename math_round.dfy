/**
 * The oldest round engine (src/math/round.rs): collect every module effect per site index,
 * apply each index's effects once, drop the dead, then move players (undock, dock, jump,
 * warp), admit players warping in and clear the instruction queues.
 */
module MathRound {
  import opened Common
  import opened Sorting
  import opened Flatten
  import opened LegacyTypes
  import Effect
  import MathInstructions
  import RoundInstructions

  /**
   * What this engine calls but this model does not contain: static module tables, the derived
   * orders, the two-argument `apply_to_status`, `Status::min_layout`, `Status::is_alive`,
   * `Fitting::is_valid`, the stargate site-name parse and `Info::generate_*`.
   */
  datatype Typings = Typings(
    modulesUntargeted: map<ModuleId, UntargetedModule>,
    modulesTargeted: map<ModuleId, TargetedModule>,
    instructionLe: (Instruction, Instruction) -> bool,
    effectLe: (Effect.Effect, Effect.Effect) -> bool,
    applyToStatus: (Status, seq<Effect.Effect>) -> Status,
    minLayout: (Status, Fitting) -> Option<Status>,
    isAlive: Status -> bool,
    fittingIsValid: Fitting -> bool,
    parseStargate: string -> Option<Solarsystem>,
    stargateSiteUnique: Solarsystem -> string,
    stationSiteUnique: (Solarsystem, u8) -> string)

  /** The only assumption made about the abstract parts: both derived orders are total preorders. */
  ghost predicate Assumed(t: Typings)
  {
    TotalPreorder(t.instructionLe) && TotalPreorder(t.effectLe)
  }

  predicate IsPlayer(e: SiteEntity, player: PlayerId)
  {
    e.Player? && e.id == player
  }

  predicate IsModule(i: Instruction)
  {
    i.ModuleUntargeted? || i.ModuleTargeted?
  }

  /** Every player entity's ship is in the ship map (the source `expect`s this). */
  ghost predicate PlayersHaveShips(entities: seq<SiteEntity>, ships: map<PlayerId, Ship>)
  {
    forall k :: 0 <= k < |entities| && entities[k].Player? ==> entities[k].id in ships
  }

  /** The facilities of a site, in order. */
  function Facilities(entities: seq<SiteEntity>): seq<SiteEntity>
  {
    if entities == [] then []
    else (if entities[0].Facility? then [entities[0]] else []) + Facilities(entities[1..])
  }

  lemma {:induction false} FacilitiesAppend(a: seq<SiteEntity>, b: seq<SiteEntity>)
    ensures Facilities(a + b) == Facilities(a) + Facilities(b)
    decreases |a|
  {
    if a == [] {
      assert a + b == b;
    } else {
      var ab := a + b;
      assert ab != [] && ab[0] == a[0];
      assert ab[1..] == a[1..] + b;
      FacilitiesAppend(a[1..], b);
      var head := if a[0].Facility? then [a[0]] else [];
      assert Facilities(ab) == head + Facilities(a[1..] + b);
      assert Facilities(a) == head + Facilities(a[1..]);
    }
  }

  lemma FacilitiesSnoc(a: seq<SiteEntity>, x: SiteEntity)
    ensures Facilities(a + [x]) == Facilities(a) + (if x.Facility? then [x] else [])
  {
    FacilitiesAppend(a, [x]);
    assert [x][1..] == [];
  }

  // ---------------------------------------------------------------- entity directory

  /** `player_pos`: the first index holding that player, if any. */
  function PlayerPos(entities: seq<SiteEntity>, player: PlayerId): (r: Option<nat>)
    ensures r.Some? ==> r.value < |entities| && IsPlayer(entities[r.value], player)
    ensures r.Some? ==> forall j :: 0 <= j < r.value ==> !IsPlayer(entities[j], player)
    ensures r.None? <==> forall j :: 0 <= j < |entities| ==> !IsPlayer(entities[j], player)
  {
    if entities == [] then None
    else if IsPlayer(entities[0], player) then Some(0)
    else
      match PlayerPos(entities[1..], player)
      case Some(i) => Some(i + 1)
      case None => None
  }

  /** The site without the player's first entity; unchanged when the player is not there. */
  function WithoutPlayer(entities: seq<SiteEntity>, player: PlayerId): (r: seq<SiteEntity>)
    ensures PlayerPos(entities, player).None? ==> r == entities
    ensures PlayerPos(entities, player).Some? ==> |r| == |entities| - 1
    ensures Facilities(r) == Facilities(entities)
  {
    match PlayerPos(entities, player)
    case None => entities
    case Some(i) =>
      FacilitiesWithout(entities, i);
      Without(entities, i)
  }

  lemma FacilitiesCons(x: SiteEntity, b: seq<SiteEntity>)
    ensures Facilities([x] + b) == (if x.Facility? then [x] else []) + Facilities(b)
  {
    assert ([x] + b)[1..] == b;
  }

  /** Taking out an entity that is not a facility keeps the facilities. */
  lemma FacilitiesWithout(s: seq<SiteEntity>, i: nat)
    requires i < |s| && !s[i].Facility?
    ensures Facilities(s[..i] + s[i + 1..]) == Facilities(s)
  {
    var front, back := s[..i], s[i + 1..];
    var rest := [s[i]] + back;
    assert s == front + rest;
    FacilitiesAppend(front, rest);
    FacilitiesCons(s[i], back);
    FacilitiesAppend(front, back);
  }

  /** `remove_player_from_entities`: `Vec::remove` at `player_pos`, if there is one. */
  method RemovePlayerFromEntities(entities: seq<SiteEntity>, player: PlayerId) returns (entities': seq<SiteEntity>)
    ensures entities' == WithoutPlayer(entities, player)
    ensures PlayerPos(entities, player).Some? ==>
      var i := PlayerPos(entities, player).value;
      entities' == entities[..i] + entities[i + 1..]
  {
    entities' := entities;
    var index := PlayerPos(entities, player);
    if index.Some? {
      entities' := entities'[..index.value] + entities'[index.value + 1..];
    }
  }

  // ---------------------------------------------------------------- collecting effects

  function UntargetedOf(t: Typings, ships: map<PlayerId, Ship>, player: PlayerId, moduleIndex: u8): Option<UntargetedModule>
  {
    if player in ships && moduleIndex < |ships[player].fitting.slotsUntargeted|
      && ships[player].fitting.slotsUntargeted[moduleIndex] in t.modulesUntargeted
    then Some(t.modulesUntargeted[ships[player].fitting.slotsUntargeted[moduleIndex]])
    else None
  }

  function TargetedOf(t: Typings, ships: map<PlayerId, Ship>, player: PlayerId, moduleIndex: u8): Option<TargetedModule>
  {
    if player in ships && moduleIndex < |ships[player].fitting.slotsTargeted|
      && ships[player].fitting.slotsTargeted[moduleIndex] in t.modulesTargeted
    then Some(t.modulesTargeted[ships[player].fitting.slotsTargeted[moduleIndex]])
    else None
  }

  /** Every player who uses a module is in the site (the source `expect`s this). */
  ghost predicate ModuleUsersPresent(entities: seq<SiteEntity>, sorted: seq<(PlayerId, Instruction)>)
  {
    forall k :: 0 <= k < |sorted| && IsModule(sorted[k].1) ==> PlayerPos(entities, sorted[k].0).Some?
  }

  /** The (site index, effect) pairs one instruction contributes, origin effects before target effects. */
  function Contribution(t: Typings, entities: seq<SiteEntity>, ships: map<PlayerId, Ship>, pi: (PlayerId, Instruction)): seq<(nat, Effect.Effect)>
    requires IsModule(pi.1) ==> PlayerPos(entities, pi.0).Some?
  {
    match pi.1
    case ModuleUntargeted(moduleIndex) =>
      var origin := PlayerPos(entities, pi.0).value;
      (match UntargetedOf(t, ships, pi.0, moduleIndex)
       case Some(m) => Tagged(origin, m.effects)
       case None => [])
    case ModuleTargeted(moduleIndex, target) =>
      var origin := PlayerPos(entities, pi.0).value;
      (match TargetedOf(t, ships, pi.0, moduleIndex)
       case Some(m) => Tagged(origin, m.effectsOrigin) + Tagged(target as nat, m.effectsTarget)
       case None => [])
    case _ => []
  }

  function Contributions(t: Typings, entities: seq<SiteEntity>, ships: map<PlayerId, Ship>, sorted: seq<(PlayerId, Instruction)>): seq<(nat, Effect.Effect)>
    requires ModuleUsersPresent(entities, sorted)
  {
    if sorted == [] then []
    else Contributions(t, entities, ships, sorted[..|sorted| - 1]) + Contribution(t, entities, ships, sorted[|sorted| - 1])
  }

  /** The `entry(index).or_default().push(effect)` fold over a list of contributions. */
  function Grouped<E>(cs: seq<(nat, E)>): map<nat, seq<E>>
  {
    if cs == [] then map[]
    else
      var g := Grouped(cs[..|cs| - 1]);
      var c := cs[|cs| - 1];
      g[c.0 := (if c.0 in g then g[c.0] else []) + [c.1]]
  }

  /** The effects aimed at one index, in contribution order. */
  function EffectsAt<E>(cs: seq<(nat, E)>, index: nat): seq<E>
  {
    if cs == [] then []
    else EffectsAt(cs[..|cs| - 1], index) + (if cs[|cs| - 1].0 == index then [cs[|cs| - 1].1] else [])
  }

  /** Grouping keeps, per index, exactly the effects aimed at it, in order, and has no empty groups. */
  lemma {:induction false} GroupedAt<E>(cs: seq<(nat, E)>, index: nat)
    ensures index in Grouped(cs) <==> EffectsAt(cs, index) != []
    ensures index in Grouped(cs) ==> Grouped(cs)[index] == EffectsAt(cs, index)
    decreases |cs|
  {
    if cs != [] {
      GroupedAt(cs[..|cs| - 1], index);
    }
  }

  lemma GroupedSnoc<E>(cs: seq<(nat, E)>, c: (nat, E))
    ensures Grouped(cs + [c]) ==
      Grouped(cs)[c.0 := (if c.0 in Grouped(cs) then Grouped(cs)[c.0] else []) + [c.1]]
  {
    assert (cs + [c])[..|cs|] == cs;
  }

  lemma TaggedSnoc<A, I>(tag: A, s: seq<I>, j: nat)
    requires j < |s|
    ensures Tagged(tag, s[..j + 1]) == Tagged(tag, s[..j]) + [(tag, s[j])]
  {
    assert s[..j + 1][..j] == s[..j];
  }

  /** Pushes `tag`'s effects one at a time, as the source's inner `for effect in …` loops do. */
  method PushAll(effects: map<nat, seq<Effect.Effect>>, ghost done: seq<(nat, Effect.Effect)>, tag: nat, items: seq<Effect.Effect>)
    returns (effects': map<nat, seq<Effect.Effect>>)
    requires effects == Grouped(done)
    ensures effects' == Grouped(done + Tagged(tag, items))
  {
    effects' := effects;
    assert done + Tagged(tag, items[..0]) == done;
    for j := 0 to |items|
      invariant effects' == Grouped(done + Tagged(tag, items[..j]))
    {
      GroupedSnoc(done + Tagged(tag, items[..j]), (tag, items[j]));
      TaggedSnoc(tag, items, j);
      assert done + Tagged(tag, items[..j + 1]) == (done + Tagged(tag, items[..j])) + [(tag, items[j])];
      effects' := effects'[tag := (if tag in effects' then effects'[tag] else []) + [items[j]]];
    }
    assert items[..|items|] == items;
  }

  /** The effects of one untargeted module use, pushed at the user's index. */
  method CollectUntargeted(t: Typings, entities: seq<SiteEntity>, ships: map<PlayerId, Ship>,
                           effects: map<nat, seq<Effect.Effect>>, ghost done: seq<(nat, Effect.Effect)>, pi: (PlayerId, Instruction))
    returns (effects': map<nat, seq<Effect.Effect>>)
    requires pi.1.ModuleUntargeted? && PlayerPos(entities, pi.0).Some?
    requires effects == Grouped(done)
    ensures effects' == Grouped(done + Contribution(t, entities, ships, pi))
  {
    var origin := PlayerPos(entities, pi.0).value;
    var m := UntargetedOf(t, ships, pi.0, pi.1.moduleIndex);
    if m.Some? {
      effects' := PushAll(effects, done, origin, m.value.effects);
    } else {
      effects' := effects;
      assert done + [] == done;
    }
  }

  lemma TargetedContribution(t: Typings, entities: seq<SiteEntity>, ships: map<PlayerId, Ship>, pi: (PlayerId, Instruction))
    requires pi.1.ModuleTargeted? && PlayerPos(entities, pi.0).Some?
    ensures var m := TargetedOf(t, ships, pi.0, pi.1.moduleIndex);
      && (m.None? ==> Contribution(t, entities, ships, pi) == [])
      && (m.Some? ==>
            (Contribution(t, entities, ships, pi) ==
             Tagged(PlayerPos(entities, pi.0).value, m.value.effectsOrigin)
             + Tagged(pi.1.targetIndexInSite as nat, m.value.effectsTarget)))
  {
  }

  /** The effects of one targeted module use: the user's at its index, then the target's at the target index. */
  method CollectTargeted(t: Typings, entities: seq<SiteEntity>, ships: map<PlayerId, Ship>,
                         effects: map<nat, seq<Effect.Effect>>, ghost done: seq<(nat, Effect.Effect)>, pi: (PlayerId, Instruction))
    returns (effects': map<nat, seq<Effect.Effect>>)
    requires pi.1.ModuleTargeted? && PlayerPos(entities, pi.0).Some?
    requires effects == Grouped(done)
    ensures effects' == Grouped(done + Contribution(t, entities, ships, pi))
  {
    var origin := PlayerPos(entities, pi.0).value;
    var target := pi.1.targetIndexInSite as nat;
    var m := TargetedOf(t, ships, pi.0, pi.1.moduleIndex);
    if m.Some? {
      var fromOrigin, atTarget := Tagged(origin, m.value.effectsOrigin), Tagged(target, m.value.effectsTarget);
      TargetedContribution(t, entities, ships, pi);
      ghost var mid, all := done + fromOrigin, done + (fromOrigin + atTarget);
      assert mid + atTarget == all;
      effects' := PushAll(effects, done, origin, m.value.effectsOrigin);
      effects' := PushAll(effects', mid, target, m.value.effectsTarget);
    } else {
      effects' := effects;
      TargetedContribution(t, entities, ships, pi);
      assert done + [] == done;
    }
  }

  /** One pass of the first loop of `advance`: the effects of one sorted instruction pushed. */
  method CollectOne(t: Typings, entities: seq<SiteEntity>, ships: map<PlayerId, Ship>,
                    effects: map<nat, seq<Effect.Effect>>, ghost done: seq<(nat, Effect.Effect)>, pi: (PlayerId, Instruction))
    returns (effects': map<nat, seq<Effect.Effect>>)
    requires IsModule(pi.1) ==> PlayerPos(entities, pi.0).Some?
    requires effects == Grouped(done)
    ensures effects' == Grouped(done + Contribution(t, entities, ships, pi))
  {
    if pi.1.ModuleUntargeted? {
      effects' := CollectUntargeted(t, entities, ships, effects, done, pi);
    } else if pi.1.ModuleTargeted? {
      effects' := CollectTargeted(t, entities, ships, effects, done, pi);
    } else {
      effects' := effects;
      assert done + [] == done;
    }
  }

  /**
   * First loop of `advance`: every module effect of every sorted instruction, grouped by the
   * site index it is aimed at; an index has an entry exactly when some effect is aimed at it.
   */
  method CollectEffects(t: Typings, entities: seq<SiteEntity>, ships: map<PlayerId, Ship>, sorted: seq<(PlayerId, Instruction)>)
    returns (effects: map<nat, seq<Effect.Effect>>)
    requires ModuleUsersPresent(entities, sorted)
    ensures effects == Grouped(Contributions(t, entities, ships, sorted))
    ensures forall index :: index in effects <==> EffectsAt(Contributions(t, entities, ships, sorted), index) != []
    ensures forall index :: index in effects ==> effects[index] == EffectsAt(Contributions(t, entities, ships, sorted), index)
  {
    effects := map[];
    for n := 0 to |sorted|
      invariant ModuleUsersPresent(entities, sorted[..n])
      invariant effects == Grouped(Contributions(t, entities, ships, sorted[..n]))
    {
      assert sorted[..n + 1][..n] == sorted[..n];
      assert ModuleUsersPresent(entities, sorted[..n + 1]);
      effects := CollectOne(t, entities, ships, effects, Contributions(t, entities, ships, sorted[..n]), sorted[n]);
    }
    assert sorted[..|sorted|] == sorted;
    forall index
      ensures index in effects <==> EffectsAt(Contributions(t, entities, ships, sorted), index) != []
      ensures index in effects ==> effects[index] == EffectsAt(Contributions(t, entities, ships, sorted), index)
    {
      GroupedAt(Contributions(t, entities, ships, sorted), index);
    }
  }

  // ---------------------------------------------------------------- applying effects

  /** What applying the collected effects does to the entity at `index`: only NPCs change here. */
  function HitEntity(t: Typings, e: SiteEntity, effects: map<nat, seq<Effect.Effect>>, index: nat): SiteEntity
  {
    if index in effects && e.Npc? then e.(status := t.applyToStatus(e.status, SortBy(effects[index], t.effectLe)))
    else e
  }

  /** The player ships after the indices in `order` were processed in that order. */
  function HitPlayers(t: Typings, entities: seq<SiteEntity>, ships: map<PlayerId, Ship>, effects: map<nat, seq<Effect.Effect>>, order: seq<nat>): (r: map<PlayerId, Ship>)
    requires forall i :: i in order ==> i in effects
    ensures r.Keys == ships.Keys
    ensures forall p :: p in ships ==> r[p].fitting == ships[p].fitting
  {
    if order == [] then ships
    else
      var before := HitPlayers(t, entities, ships, effects, order[..|order| - 1]);
      var index := order[|order| - 1];
      if index < |entities| && entities[index].Player? && entities[index].id in before then
        var id := entities[index].id;
        before[id := before[id].(status := t.applyToStatus(before[id].status, SortBy(effects[index], t.effectLe)))]
      else before
  }

  /** Index `i` is the one index in `order` at which player `p` stands. */
  ghost predicate OnlyHitAt(entities: seq<SiteEntity>, order: seq<nat>, p: PlayerId, i: nat)
  {
    && i in order && i < |entities| && IsPlayer(entities[i], p)
    && (forall j :: j in order && j < |entities| && IsPlayer(entities[j], p) ==> j == i)
  }

  /** A player whose entity holds no index of `order` keeps their ship. */
  lemma {:induction false} HitPlayersMiss(t: Typings, entities: seq<SiteEntity>, ships: map<PlayerId, Ship>, effects: map<nat, seq<Effect.Effect>>, order: seq<nat>, p: PlayerId)
    requires forall i :: i in order ==> i in effects
    requires p in ships
    requires forall i :: i in order && i < |entities| ==> !IsPlayer(entities[i], p)
    ensures HitPlayers(t, entities, ships, effects, order)[p] == ships[p]
    decreases |order|
  {
    if order != [] {
      var init, last := order[..|order| - 1], order[|order| - 1];
      assert forall i :: i in init ==> i in order;
      HitPlayersMiss(t, entities, ships, effects, init, p);
      assert last in order;
    }
  }

  /** Without its last index, a list of distinct indices stays distinct and no longer holds that index. */
  lemma DistinctInit(order: seq<nat>)
    requires order != []
    requires forall a, b :: 0 <= a < b < |order| ==> order[a] != order[b]
    ensures var init := order[..|order| - 1];
      && (forall a, b :: 0 <= a < b < |init| ==> init[a] != init[b])
      && order[|order| - 1] !in init
      && forall j :: j in init ==> j in order
  {
    var init := order[..|order| - 1];
    forall j | j in init
      ensures j in order && j != order[|order| - 1]
    {
      var a :| 0 <= a < |init| && init[a] == j;
      assert order[a] == j;
    }
  }

  /**
   * A player whose only entity among the indices of `order` is at `i` gets the effects at `i`,
   * sorted, applied exactly once.
   */
  lemma {:induction false} HitPlayersOnce(t: Typings, entities: seq<SiteEntity>, ships: map<PlayerId, Ship>, effects: map<nat, seq<Effect.Effect>>, order: seq<nat>, p: PlayerId, i: nat)
    requires forall j :: j in order ==> j in effects
    requires forall a, b :: 0 <= a < b < |order| ==> order[a] != order[b]
    requires p in ships
    requires OnlyHitAt(entities, order, p, i)
    ensures HitPlayers(t, entities, ships, effects, order)[p] ==
      ships[p].(status := t.applyToStatus(ships[p].status, SortBy(effects[i], t.effectLe)))
    decreases |order|
  {
    var init, last := order[..|order| - 1], order[|order| - 1];
    DistinctInit(order);
    if last == i {
      HitPlayersMiss(t, entities, ships, effects, init, p);
    } else {
      assert i in init;
      HitPlayersOnce(t, entities, ships, effects, init, p, i);
    }
  }

  lemma HitPlayersSnoc(t: Typings, entities: seq<SiteEntity>, ships: map<PlayerId, Ship>, effects: map<nat, seq<Effect.Effect>>, order: seq<nat>, index: nat)
    requires forall i :: i in order ==> i in effects
    requires index in effects
    ensures forall i :: i in order + [index] ==> i in effects
    ensures HitPlayers(t, entities, ships, effects, order + [index]) ==
      var before := HitPlayers(t, entities, ships, effects, order);
      if index < |entities| && entities[index].Player? && entities[index].id in before then
        var id := entities[index].id;
        before[id := before[id].(status := t.applyToStatus(before[id].status, SortBy(effects[index], t.effectLe)))]
      else before
  {
    assert (order + [index])[..|order|] == order;
  }

  /** One pass of the second loop of `advance`: the effects at `index`, sorted, applied to whoever stands there. */
  method ApplyAt(t: Typings, current: seq<SiteEntity>, ships: map<PlayerId, Ship>, effects: map<nat, seq<Effect.Effect>>, index: nat)
    returns (current': seq<SiteEntity>, ships': map<PlayerId, Ship>)
    requires index in effects
    requires index < |current| && current[index].Player? ==> current[index].id in ships
    ensures |current'| == |current|
    ensures forall i :: 0 <= i < |current| && i != index ==> current'[i] == current[i]
    ensures index < |current| ==> current'[index] == HitEntity(t, current[index], effects, index)
    ensures ships' ==
      if index < |current| && current[index].Player? then
        var id := current[index].id;
        ships[id := ships[id].(status := t.applyToStatus(ships[id].status, SortBy(effects[index], t.effectLe)))]
      else ships
  {
    current', ships' := current, ships;
    var sortedEffects := SortBy(effects[index], t.effectLe);
    if index < |current'| {
      match current'[index] {
        case Facility(_) =>
        case Lifeless(_, _) =>
        case Npc(faction, fitting, status) =>
          current' := current'[index := Npc(faction, fitting, t.applyToStatus(status, sortedEffects))];
        case Player(id, _) =>
          ships' := ships'[id := ships'[id].(status := t.applyToStatus(ships'[id].status, sortedEffects))];
      }
    }
  }

  /**
   * Second loop of `advance`: every index with effects, in the map's iteration order, gets its
   * effects sorted and applied once. Facilities and lifeless things are immune; NPC statuses
   * change in place and player statuses change in the ship map.
   */
  method ApplyCollected(t: Typings, entities: seq<SiteEntity>, ships: map<PlayerId, Ship>, effects: map<nat, seq<Effect.Effect>>)
    returns (entities': seq<SiteEntity>, ships': map<PlayerId, Ship>, ghost order: seq<nat>)
    requires PlayersHaveShips(entities, ships)
    ensures Enumerates(order, effects.Keys)
    ensures |entities'| == |entities|
    ensures forall i :: 0 <= i < |entities| ==> entities'[i] == HitEntity(t, entities[i], effects, i)
    ensures ships' == HitPlayers(t, entities, ships, effects, order)
    ensures ships'.Keys == ships.Keys
    ensures forall p :: p in ships ==> ships'[p].fitting == ships[p].fitting
  {
    entities', ships', order := entities, ships, [];
    var todo := effects.Keys;
    while todo != {}
      invariant todo <= effects.Keys
      invariant forall i :: i in effects ==> (i in todo <==> i !in order)
      invariant forall i :: i in order ==> i in effects
      invariant forall a, b :: 0 <= a < b < |order| ==> order[a] != order[b]
      invariant |entities'| == |entities|
      invariant forall i :: 0 <= i < |entities| ==>
        entities'[i] == (if i in todo then entities[i] else HitEntity(t, entities[i], effects, i))
      invariant ships' == HitPlayers(t, entities, ships, effects, order)
      decreases todo
    {
      var index :| index in todo;
      ghost var current := entities';
      assert ships'.Keys == ships.Keys;
      assert index < |entities| ==> current[index] == entities[index];
      entities', ships' := ApplyAt(t, entities', ships', effects, index);
      HitPlayersSnoc(t, entities, ships, effects, order, index);
      order := order + [index];
      todo := todo - {index};
      forall i | 0 <= i < |entities|
        ensures entities'[i] == (if i in todo then entities[i] else HitEntity(t, entities[i], effects, i))
      {
        if i != index {
          assert entities'[i] == current[i];
        }
      }
    }
  }

  // ---------------------------------------------------------------- cleanup

  /**
   * One entity's verdict in `cleanup_entities`: facilities stay; lifeless things stay while
   * alive; an NPC stays, clamped, when `min_layout` gives a status and it is alive; a player's
   * ship is clamped (or zeroed when `min_layout` gives nothing) and the player stays if alive.
   */
  function CleanupOne(t: Typings, e: SiteEntity, ships: map<PlayerId, Ship>): (r: (Option<SiteEntity>, map<PlayerId, Ship>))
    requires e.Player? ==> e.id in ships
    ensures e.Facility? ==> r == (Some(e), ships)
    ensures e.Lifeless? ==> r.1 == ships && (r.0.Some? <==> t.isAlive(e.status)) && (r.0.Some? ==> r.0.value == e)
    ensures e.Npc? ==> (
      && r.1 == ships
      && (r.0.Some? <==> t.minLayout(e.status, e.fitting).Some? && t.isAlive(t.minLayout(e.status, e.fitting).value))
      && (r.0.Some? ==> r.0.value == e.(status := t.minLayout(e.status, e.fitting).value)))
    ensures e.Player? ==>
      var ship := ships[e.id];
      var clamped := t.minLayout(ship.status, ship.fitting);
      && r.1 == ships[e.id := ship.(status := if clamped.Some? then clamped.value else Status(0, 0, 0))]
      && (r.0.Some? <==> clamped.Some? && t.isAlive(clamped.value))
      && (r.0.Some? ==> r.0.value == e)
  {
    match e
    case Facility(_) => (Some(e), ships)
    case Lifeless(_, status) => (if t.isAlive(status) then Some(e) else None, ships)
    case Npc(faction, fitting, status) =>
      (match t.minLayout(status, fitting)
       case Some(s) => (if t.isAlive(s) then Some(Npc(faction, fitting, s)) else None, ships)
       case None => (None, ships))
    case Player(id, _) =>
      var ship := ships[id];
      match t.minLayout(ship.status, ship.fitting)
      case Some(s) => (if t.isAlive(s) then Some(e) else None, ships[id := ship.(status := s)])
      case None => (None, ships[id := ship.(status := Status(0, 0, 0))])
  }

  /** `cleanup_entities` over the whole list, one entity after the other. */
  function Cleanup(t: Typings, before: seq<SiteEntity>, ships: map<PlayerId, Ship>): (r: (seq<SiteEntity>, map<PlayerId, Ship>))
    requires PlayersHaveShips(before, ships)
    ensures r.1.Keys == ships.Keys
    ensures forall p :: p in ships ==> r.1[p].fitting == ships[p].fitting
  {
    if before == [] then ([], ships)
    else
      var init := before[..|before| - 1];
      var (remaining, ships') := Cleanup(t, init, ships);
      var (kept, ships'') := CleanupOne(t, before[|before| - 1], ships');
      (if kept.Some? then remaining + [kept.value] else remaining, ships'')
  }

  /** Status is erased only from NPCs, the one kind whose entity cleanup rewrites. */
  function Identity(e: SiteEntity): SiteEntity
  {
    if e.Npc? then e.(status := Status(0, 0, 0)) else e
  }

  function Identities(s: seq<SiteEntity>): (r: seq<SiteEntity>)
    ensures |r| == |s|
  {
    if s == [] then [] else Identities(s[..|s| - 1]) + [Identity(s[|s| - 1])]
  }

  lemma IdentitiesSnoc(s: seq<SiteEntity>, e: SiteEntity)
    ensures Identities(s + [e]) == Identities(s) + [Identity(e)]
  {
    assert (s + [e])[..|s|] == s;
  }

  /**
   * Cleanup keeps order and drops only: with NPC statuses set aside, what remains is a
   * subsequence of the input.
   */
  lemma {:induction false} CleanupKeepsOrder(t: Typings, before: seq<SiteEntity>, ships: map<PlayerId, Ship>)
    requires PlayersHaveShips(before, ships)
    ensures Subsequence(Identities(Cleanup(t, before, ships).0), Identities(before))
    decreases |before|
  {
    if before != [] {
      var init := before[..|before| - 1];
      var last := before[|before| - 1];
      assert PlayersHaveShips(init, ships);
      CleanupKeepsOrder(t, init, ships);
      var prev := Cleanup(t, init, ships);
      var kept := CleanupOne(t, last, prev.1).0;
      IdentitiesSnoc(init, last);
      if kept.Some? {
        IdentitiesSnoc(prev.0, kept.value);
        assert Identity(kept.value) == Identity(last);
      }
      SubsequenceSnoc(Identities(prev.0), Identities(init), Identity(last), kept.Some?);
    }
  }

  /** Cleanup keeps every facility, in order, and adds none. */
  lemma {:induction false} CleanupKeepsFacilities(t: Typings, before: seq<SiteEntity>, ships: map<PlayerId, Ship>)
    requires PlayersHaveShips(before, ships)
    ensures Facilities(Cleanup(t, before, ships).0) == Facilities(before)
    decreases |before|
  {
    if before != [] {
      var init := before[..|before| - 1];
      var last := before[|before| - 1];
      assert PlayersHaveShips(init, ships);
      CleanupKeepsFacilities(t, init, ships);
      var prev := Cleanup(t, init, ships);
      var kept := CleanupOne(t, last, prev.1).0;
      assert before == init + [last];
      FacilitiesSnoc(init, last);
      if kept.Some? {
        FacilitiesSnoc(prev.0, kept.value);
      }
    }
  }

  /** Every lifeless thing and NPC that survives cleanup is alive; every surviving player has a ship. */
  lemma {:induction false} CleanupSurvivorsAlive(t: Typings, before: seq<SiteEntity>, ships: map<PlayerId, Ship>)
    requires PlayersHaveShips(before, ships)
    ensures forall k :: 0 <= k < |Cleanup(t, before, ships).0| ==>
      var e := Cleanup(t, before, ships).0[k];
      (e.Lifeless? || e.Npc?) ==> t.isAlive(e.status)
    ensures PlayersHaveShips(Cleanup(t, before, ships).0, ships)
    decreases |before|
  {
    if before != [] {
      var init := before[..|before| - 1];
      assert PlayersHaveShips(init, ships);
      CleanupSurvivorsAlive(t, init, ships);
    }
  }

  /** `cleanup_entities`: builds the surviving list in a loop while clamping player ships in place. */
  method CleanupEntities(t: Typings, before: seq<SiteEntity>, ships: map<PlayerId, Ship>)
    returns (remaining: seq<SiteEntity>, ships': map<PlayerId, Ship>)
    requires PlayersHaveShips(before, ships)
    ensures (remaining, ships') == Cleanup(t, before, ships)
  {
    remaining := [];
    ships' := ships;
    for n := 0 to |before|
      invariant PlayersHaveShips(before[..n], ships)
      invariant (remaining, ships') == Cleanup(t, before[..n], ships)
    {
      assert before[..n + 1][..n] == before[..n];
      var entity := before[n];
      match entity {
        case Facility(_) =>
          remaining := remaining + [entity];
        case Lifeless(_, status) =>
          if t.isAlive(status) {
            remaining := remaining + [entity];
          }
        case Npc(faction, fitting, status) =>
          var clamped := t.minLayout(status, fitting);
          if clamped.Some? {
            if t.isAlive(clamped.value) {
              remaining := remaining + [Npc(faction, fitting, clamped.value)];
            }
          }
        case Player(id, _) =>
          var ship := ships'[id];
          var clamped := t.minLayout(ship.status, ship.fitting);
          if clamped.Some? {
            if t.isAlive(clamped.value) {
              remaining := remaining + [entity];
            }
            ships' := ships'[id := ship.(status := clamped.value)];
          } else {
            ships' := ships'[id := ship.(status := Status(0, 0, 0))];
          }
      }
    }
    assert before[..|before|] == before;
  }

  // ---------------------------------------------------------------- movements

  /** Every player who undocks has a ship, and a jump needs a parsable stargate site name. */
  ghost predicate MovesPossible(t: Typings, info: SiteInfo, ships: map<PlayerId, Ship>, sorted: seq<(PlayerId, Instruction)>)
  {
    forall k :: 0 <= k < |sorted| ==>
      && (sorted[k].1.Undock? ==> sorted[k].0 in ships)
      && (sorted[k].1 == Instruction.Facility(Service.Jump) ==> t.parseStargate(info.siteUnique).Some?)
  }

  /**
   * One instruction of the movement loop. The player's location is first defaulted to station
   * 0 of this solarsystem when missing (`entry().or_insert_with`); module instructions do
   * nothing more; undocking adds the player only with a valid fitting; docking, jumping and
   * warping to another site remove the player; a warp to this very site does nothing.
   */
  function MoveStep(t: Typings, solarsystem: Solarsystem, info: SiteInfo, ships: map<PlayerId, Ship>,
                    entities: seq<SiteEntity>, locations: map<PlayerId, PlayerLocation>, pi: (PlayerId, Instruction))
    : (r: (seq<SiteEntity>, map<PlayerId, PlayerLocation>))
    requires pi.1.Undock? ==> pi.0 in ships
    requires pi.1 == Instruction.Facility(Service.Jump) ==> t.parseStargate(info.siteUnique).Some?
    ensures r.1.Keys == locations.Keys + {pi.0}
    ensures Facilities(r.0) == Facilities(entities)
    ensures (IsModule(pi.1) || (pi.1.Warp? && pi.1.siteUnique == info.siteUnique)) ==>
      r.0 == entities && r.1 == locations[pi.0 := if pi.0 in locations then locations[pi.0] else Station(solarsystem, 0)]
    ensures pi.1.Undock? ==> r.0 == entities + (if t.fittingIsValid(ships[pi.0].fitting) then [Player(pi.0, ships[pi.0].fitting.layout)] else [])
    ensures pi.1.Facility? || (pi.1.Warp? && pi.1.siteUnique != info.siteUnique) ==> r.0 == WithoutPlayer(entities, pi.0)
    ensures pi.1.Warp? && pi.1.siteUnique != info.siteUnique ==> r.1[pi.0] == PlayerLocation.Warp(solarsystem, pi.1.siteUnique)
  {
    var player := pi.0;
    var location := if player in locations then locations[player] else Station(solarsystem, 0);
    var locations := locations[player := location];
    var station := if location.Station? then location.station else 0;
    match pi.1
    case ModuleUntargeted(_) => (entities, locations)
    case ModuleTargeted(_, _) => (entities, locations)
    case Undock =>
      var ship := ships[player];
      if t.fittingIsValid(ship.fitting) then
        FacilitiesSnoc(entities, Player(player, ship.fitting.layout));
        (entities + [Player(player, ship.fitting.layout)],
         locations[player := Site(solarsystem, t.stationSiteUnique(solarsystem, station))])
      else
        assert entities + [] == entities;
        (entities, locations)
    case Facility(Dock) =>
      (WithoutPlayer(entities, player), locations[player := Station(solarsystem, station)])
    case Facility(Jump) =>
      (WithoutPlayer(entities, player),
       locations[player := PlayerLocation.Warp(t.parseStargate(info.siteUnique).value, t.stargateSiteUnique(solarsystem))])
    case Warp(siteUnique) =>
      if siteUnique != info.siteUnique then
        (WithoutPlayer(entities, player), locations[player := PlayerLocation.Warp(solarsystem, siteUnique)])
      else (entities, locations)
  }

  function Moves(t: Typings, solarsystem: Solarsystem, info: SiteInfo, ships: map<PlayerId, Ship>,
                 entities: seq<SiteEntity>, locations: map<PlayerId, PlayerLocation>, sorted: seq<(PlayerId, Instruction)>)
    : (r: (seq<SiteEntity>, map<PlayerId, PlayerLocation>))
    requires MovesPossible(t, info, ships, sorted)
    ensures Facilities(r.0) == Facilities(entities)
    ensures locations.Keys <= r.1.Keys
    ensures forall k :: 0 <= k < |sorted| ==> sorted[k].0 in r.1
  {
    if sorted == [] then (entities, locations)
    else
      var init := sorted[..|sorted| - 1];
      assert MovesPossible(t, info, ships, init);
      var prev := Moves(t, solarsystem, info, ships, entities, locations, init);
      assert forall k :: 0 <= k < |init| ==> init[k] == sorted[k];
      MoveStep(t, solarsystem, info, ships, prev.0, prev.1, sorted[|sorted| - 1])
  }

  /** Moving only removes players or adds undocking players whose ships are known. */
  lemma {:induction false} MovesKeepShips(t: Typings, solarsystem: Solarsystem, info: SiteInfo, ships: map<PlayerId, Ship>,
                                          entities: seq<SiteEntity>, locations: map<PlayerId, PlayerLocation>, sorted: seq<(PlayerId, Instruction)>)
    requires MovesPossible(t, info, ships, sorted)
    requires PlayersHaveShips(entities, ships)
    ensures PlayersHaveShips(Moves(t, solarsystem, info, ships, entities, locations, sorted).0, ships)
    decreases |sorted|
  {
    if sorted != [] {
      var init := sorted[..|sorted| - 1];
      assert MovesPossible(t, info, ships, init);
      MovesKeepShips(t, solarsystem, info, ships, entities, locations, init);
      var e := Moves(t, solarsystem, info, ships, entities, locations, init).0;
      var pi := sorted[|sorted| - 1];
      if pi.1.Facility? || pi.1.Warp? {
        match PlayerPos(e, pi.0)
        case None =>
        case Some(i) =>
          forall k | 0 <= k < |Without(e, i)| && Without(e, i)[k].Player?
            ensures Without(e, i)[k].id in ships
          {
            if k < i { assert Without(e, i)[k] == e[k]; } else { assert Without(e, i)[k] == e[k + 1]; }
          }
      }
    }
  }

  /** One pass of the movement loop of `advance`. */
  method MoveOne(t: Typings, solarsystem: Solarsystem, info: SiteInfo, ships: map<PlayerId, Ship>,
                 entities: seq<SiteEntity>, locations: map<PlayerId, PlayerLocation>, player: PlayerId, instruction: Instruction)
    returns (entities': seq<SiteEntity>, locations': map<PlayerId, PlayerLocation>)
    requires instruction.Undock? ==> player in ships
    requires instruction == Instruction.Facility(Service.Jump) ==> t.parseStargate(info.siteUnique).Some?
    ensures (entities', locations') == MoveStep(t, solarsystem, info, ships, entities, locations, (player, instruction))
  {
    entities', locations' := entities, locations;
    var location := if player in locations' then locations'[player] else Station(solarsystem, 0);
    locations' := locations'[player := location];
    var station := if location.Station? then location.station else 0;
    match instruction {
      case ModuleUntargeted(_) =>
      case ModuleTargeted(_, _) =>
      case Undock =>
        var ship := ships[player];
        if t.fittingIsValid(ship.fitting) {
          entities' := entities' + [Player(player, ship.fitting.layout)];
          locations' := locations'[player := Site(solarsystem, t.stationSiteUnique(solarsystem, station))];
        }
      case Facility(service) =>
        match service {
          case Dock =>
            entities' := RemovePlayerFromEntities(entities', player);
            locations' := locations'[player := Station(solarsystem, station)];
          case Jump =>
            var targetSolarsystem := t.parseStargate(info.siteUnique).value;
            var targetSite := t.stargateSiteUnique(solarsystem);
            entities' := RemovePlayerFromEntities(entities', player);
            locations' := locations'[player := PlayerLocation.Warp(targetSolarsystem, targetSite)];
        }
      case Warp(siteUnique) =>
        if siteUnique != info.siteUnique {
          entities' := RemovePlayerFromEntities(entities', player);
          locations' := locations'[player := PlayerLocation.Warp(solarsystem, siteUnique)];
        }
    }
  }

  /** The movement loop of `advance`. */
  method Movements(t: Typings, solarsystem: Solarsystem, info: SiteInfo, ships: map<PlayerId, Ship>,
                   entities: seq<SiteEntity>, locations: map<PlayerId, PlayerLocation>, sorted: seq<(PlayerId, Instruction)>)
    returns (entities': seq<SiteEntity>, locations': map<PlayerId, PlayerLocation>)
    requires MovesPossible(t, info, ships, sorted)
    ensures (entities', locations') == Moves(t, solarsystem, info, ships, entities, locations, sorted)
  {
    entities', locations' := entities, locations;
    for n := 0 to |sorted|
      invariant MovesPossible(t, info, ships, sorted[..n])
      invariant (entities', locations') == Moves(t, solarsystem, info, ships, entities, locations, sorted[..n])
    {
      assert sorted[..n + 1][..n] == sorted[..n];
      assert MovesPossible(t, info, ships, sorted[..n + 1]);
      entities', locations' := MoveOne(t, solarsystem, info, ships, entities', locations', sorted[n].0, sorted[n].1);
    }
    assert sorted[..|sorted|] == sorted;
  }

  // ---------------------------------------------------------------- warp-in

  function Arrivals(ships: map<PlayerId, Ship>, warpIn: seq<PlayerId>): (r: seq<SiteEntity>)
    requires forall p :: p in warpIn ==> p in ships
    ensures |r| == |warpIn|
    ensures forall k :: 0 <= k < |warpIn| ==> r[k] == Player(warpIn[k], ships[warpIn[k]].fitting.layout)
  {
    if warpIn == [] then []
    else Arrivals(ships, warpIn[..|warpIn| - 1]) + [Player(warpIn[|warpIn| - 1], ships[warpIn[|warpIn| - 1]].fitting.layout)]
  }

  /**
   * Players warping in are appended, in queue order, after everything that is already in the
   * site, and are located at this site; every other player keeps their location.
   */
  method WarpIn(solarsystem: Solarsystem, info: SiteInfo, ships: map<PlayerId, Ship>,
                entities: seq<SiteEntity>, locations: map<PlayerId, PlayerLocation>, warpIn: seq<PlayerId>)
    returns (entities': seq<SiteEntity>, locations': map<PlayerId, PlayerLocation>)
    requires forall p :: p in warpIn ==> p in ships
    ensures entities' == entities + Arrivals(ships, warpIn)
    ensures locations' == locations + LocatedAt(warpIn, Site(solarsystem, info.siteUnique))
  {
    entities', locations' := entities, locations;
    for n := 0 to |warpIn|
      invariant entities' == entities + Arrivals(ships, warpIn[..n])
      invariant locations' == locations + LocatedAt(warpIn[..n], Site(solarsystem, info.siteUnique))
    {
      assert warpIn[..n + 1] == warpIn[..n] + [warpIn[n]];
      var player := warpIn[n];
      LocatedAtSnoc(locations, warpIn[..n], player, Site(solarsystem, info.siteUnique));
      entities' := entities' + [Player(player, ships[player].fitting.layout)];
      locations' := locations'[player := Site(solarsystem, info.siteUnique)];
    }
    assert warpIn[..|warpIn|] == warpIn;
  }

  // ---------------------------------------------------------------- the round

  /**
   * `advance`: sort, collect and apply module effects, clean up, move, admit arrivals, clear the
   * queues. `sorted` is the stable sort of the queues walked in the map's order `keyOrder`; the
   * effects every module use contributes are grouped by site index and applied to the NPCs in
   * place (`hit`) and to the players' ships one index at a time in the order `hitOrder`; the
   * dead are dropped (`Cleanup`), the movers move (`Moves`) and the arrivals are appended and
   * located here. Every queue is empty afterwards; the site's facilities are untouched; every
   * player who gave an instruction has a location; no ship is added, removed or refitted.
   */
  method Advance(t: Typings, solarsystem: Solarsystem, info: SiteInfo, entities: seq<SiteEntity>,
                 instructions: map<PlayerId, seq<Instruction>>, locations: map<PlayerId, PlayerLocation>,
                 ships: map<PlayerId, Ship>, warpIn: seq<PlayerId>)
    returns (entities': seq<SiteEntity>, instructions': map<PlayerId, seq<Instruction>>,
             locations': map<PlayerId, PlayerLocation>, ships': map<PlayerId, Ship>,
             ghost keyOrder: seq<PlayerId>, ghost sorted: seq<(PlayerId, Instruction)>,
             ghost hitOrder: seq<nat>, ghost hit: seq<SiteEntity>)
    requires Assumed(t)
    requires forall p, k :: p in instructions && 0 <= k < |instructions[p]| && IsModule(instructions[p][k]) ==>
      PlayerPos(entities, p).Some?
    requires forall p, k :: p in instructions && 0 <= k < |instructions[p]| && instructions[p][k].Undock? ==> p in ships
    requires forall p, k :: p in instructions && 0 <= k < |instructions[p]| && instructions[p][k] == Instruction.Facility(Service.Jump) ==>
      t.parseStargate(info.siteUnique).Some?
    requires PlayersHaveShips(entities, ships)
    requires forall p :: p in warpIn ==> p in ships
    ensures instructions'.Keys == instructions.Keys
    ensures forall p :: p in instructions' ==> instructions'[p] == []
    ensures |entities'| >= |warpIn|
    ensures entities'[|entities'| - |warpIn|..] == Arrivals(ships, warpIn)
    ensures Facilities(entities') == Facilities(entities)
    ensures forall p :: p in warpIn ==> p in locations' && locations'[p] == Site(solarsystem, info.siteUnique)
    ensures forall p :: p in instructions && instructions[p] != [] ==> p in locations'
    ensures ships'.Keys == ships.Keys
    ensures forall p :: p in ships ==> ships'[p].fitting == ships[p].fitting
    ensures Enumerates(keyOrder, instructions.Keys)
    ensures sorted == SortBy(MathInstructions.FlattenQueues(keyOrder, instructions), ByInstruction(t.instructionLe))
    ensures ModuleUsersPresent(entities, sorted)
    ensures var effects := Grouped(Contributions(t, entities, ships, sorted));
      && Enumerates(hitOrder, effects.Keys)
      && |hit| == |entities|
      && (forall i :: 0 <= i < |entities| ==> hit[i] == HitEntity(t, entities[i], effects, i))
      && PlayersHaveShips(hit, HitPlayers(t, entities, ships, effects, hitOrder))
    ensures var cleaned := Cleanup(t, hit, HitPlayers(t, entities, ships, Grouped(Contributions(t, entities, ships, sorted)), hitOrder));
      && ships' == cleaned.1
      && MovesPossible(t, info, ships', sorted)
      && var moved := Moves(t, solarsystem, info, ships', cleaned.0, locations, sorted);
         && entities' == moved.0 + Arrivals(ships, warpIn)
         && locations' == moved.1 + LocatedAt(warpIn, Site(solarsystem, info.siteUnique))
  {
    var pairs;
    pairs, keyOrder := MathInstructions.Sort(instructions, t.instructionLe);
    sorted := pairs;
    SortedFromQueues(instructions, sorted);
    assert ModuleUsersPresent(entities, sorted);

    var effects := CollectEffects(t, entities, ships, pairs);
    var struck: seq<SiteEntity>, hitShips: map<PlayerId, Ship>;
    struck, hitShips, hitOrder := ApplyCollected(t, entities, ships, effects);
    hit := struck;
    HitKeepsFacilitiesAndPlayers(t, entities, hit, ships, hitShips, effects);

    var remaining;
    remaining, ships' := CleanupEntities(t, struck, hitShips);
    CleanupKeepsFacilities(t, hit, hitShips);
    assert MovesPossible(t, info, ships', sorted);

    var moved, movedLocations := Movements(t, solarsystem, info, ships', remaining, locations, pairs);

    entities', locations' := WarpIn(solarsystem, info, ships', moved, movedLocations, warpIn);
    LocatedAtOverrides(movedLocations, warpIn, Site(solarsystem, info.siteUnique));
    ArrivalsSameLayouts(ships, ships', warpIn);
    ArrivalsClose(moved, ships, warpIn);

    instructions' := RoundInstructions.Cleanup(instructions);
  }

  /** Every sorted pair comes from that player's queue, and every non-empty queue is represented. */
  lemma SortedFromQueues(instructions: map<PlayerId, seq<Instruction>>, sorted: seq<(PlayerId, Instruction)>)
    requires forall p, i :: multiset(sorted)[(p, i)] == (if p in instructions then multiset(instructions[p])[i] else 0)
    ensures forall k :: 0 <= k < |sorted| ==> sorted[k].0 in instructions && sorted[k].1 in instructions[sorted[k].0]
    ensures forall p :: p in instructions && instructions[p] != [] ==> exists k :: 0 <= k < |sorted| && sorted[k].0 == p
  {
    forall k | 0 <= k < |sorted|
      ensures sorted[k].0 in instructions && sorted[k].1 in instructions[sorted[k].0]
    {
      assert sorted[k] in multiset(sorted);
      assert multiset(sorted)[(sorted[k].0, sorted[k].1)] > 0;
    }
    forall p | p in instructions && instructions[p] != []
      ensures exists k :: 0 <= k < |sorted| && sorted[k].0 == p
    {
      assert instructions[p][0] in multiset(instructions[p]);
      assert (p, instructions[p][0]) in multiset(sorted);
      assert (p, instructions[p][0]) in sorted;
      var k :| 0 <= k < |sorted| && sorted[k] == (p, instructions[p][0]);
    }
  }

  /** Applying effects keeps every facility where it was and every player entity as it was. */
  lemma HitKeepsFacilitiesAndPlayers(t: Typings, entities: seq<SiteEntity>, hit: seq<SiteEntity>,
                                     ships: map<PlayerId, Ship>, hitShips: map<PlayerId, Ship>, effects: map<nat, seq<Effect.Effect>>)
    requires |hit| == |entities|
    requires forall i :: 0 <= i < |entities| ==> hit[i] == HitEntity(t, entities[i], effects, i)
    requires PlayersHaveShips(entities, ships)
    requires hitShips.Keys == ships.Keys
    ensures Facilities(hit) == Facilities(entities)
    ensures PlayersHaveShips(hit, hitShips)
  {
    forall i | 0 <= i < |hit| && (hit[i].Facility? || entities[i].Facility? || hit[i].Player?)
      ensures hit[i] == entities[i]
    {
      assert hit[i] == HitEntity(t, entities[i], effects, i);
    }
    FacilitiesPointwise(hit, entities);
  }

  lemma ArrivalsSameLayouts(ships: map<PlayerId, Ship>, ships': map<PlayerId, Ship>, warpIn: seq<PlayerId>)
    requires forall p :: p in warpIn ==> p in ships
    requires ships'.Keys == ships.Keys
    requires forall p :: p in ships ==> ships'[p].fitting == ships[p].fitting
    ensures Arrivals(ships', warpIn) == Arrivals(ships, warpIn)
  {
  }

  /** Arrivals appended to a site close its entity list and add no facility. */
  lemma ArrivalsClose(entities: seq<SiteEntity>, ships: map<PlayerId, Ship>, warpIn: seq<PlayerId>)
    requires forall p :: p in warpIn ==> p in ships
    ensures var e := entities + Arrivals(ships, warpIn);
      && |e| >= |warpIn|
      && e[|e| - |warpIn|..] == Arrivals(ships, warpIn)
      && Facilities(e) == Facilities(entities)
  {
    var a := Arrivals(ships, warpIn);
    FacilitiesAppend(entities, a);
    ArrivalsNoFacilities(ships, warpIn);
    assert (entities + a)[|entities|..] == a;
  }

  /** Two sites with the same facilities at the same positions list the same facilities. */
  lemma FacilitiesPointwise(a: seq<SiteEntity>, b: seq<SiteEntity>)
    requires |a| == |b|
    requires forall i :: 0 <= i < |a| && (a[i].Facility? || b[i].Facility?) ==> a[i] == b[i]
    ensures Facilities(a) == Facilities(b)
  {
    if a != [] {
      FacilitiesPointwise(a[1..], b[1..]);
    }
  }

  lemma ArrivalsNoFacilities(ships: map<PlayerId, Ship>, warpIn: seq<PlayerId>)
    requires forall p :: p in warpIn ==> p in ships
    ensures Facilities(Arrivals(ships, warpIn)) == []
    decreases |warpIn|
  {
    if warpIn != [] {
      var init := warpIn[..|warpIn| - 1];
      ArrivalsNoFacilities(ships, init);
      var a := Arrivals(ships, warpIn);
      assert a == Arrivals(ships, init) + [a[|a| - 1]];
      FacilitiesSnoc(Arrivals(ships, init), a[|a| - 1]);
    }
  }
}
