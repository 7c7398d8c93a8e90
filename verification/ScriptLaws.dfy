/** The script phases of a round in closed form: what each script's answer comes
    to, with its conditions spelled out, told from the universe before the phase. */
module ScriptLaws {
  import opened Basics
  import opened Model
  import opened Prices
  import opened Planets
  import opened Fleets
  import opened Gather
  import opened GatherLaws
  import opened Forest
  import opened Phases
  import opened PhaseLaws
  import opened WarLaws

  // ------------------------------------------------------ planet orders

  /** The metal an order costs: floor(100 * 1.6^level) for the next level of a
      building, else the price in its table. */
  function PriceOf(p: Planet, a: PlanetAction): nat {
    match a
    case NoPlanetAction => 0
    case OnBuilding(_, b) =>
      if 0 <= b < BUILDINGS then
        PowPositive(5, p.buildings[b]);
        100 * Pow(8, p.buildings[b]) / Pow(5, p.buildings[b])
      else 0
    case OnShip(_, s, _) => if 0 <= s < SHIPS then SHIP_LIST[s].metal else 0
    case OnCannon(_, c, _) => if 0 <= c < CANNONS then CANNON_LIST[c].metal else 0
  }

  /** The planet takes the order: it is idle and can pay, and has a command centre
      and a level below 23, or a factory and, for a ship, an empty hangar. */
  predicate Accepts(p: Planet, a: PlanetAction) {
    && p.task == None && PriceOf(p, a) <= p.stock[METAL]
    && match a
       case NoPlanetAction => false
       case OnBuilding(kind, b) =>
         kind == BuildBuilding && 0 <= b < BUILDINGS && p.buildings[COMMAND_CENTER] > 0 && p.buildings[b] < 23
       case OnShip(kind, s, _) =>
         (kind == BuildShip || kind == StopBuilding) && 0 <= s < SHIPS && p.buildings[FACTORY] > 0 && p.hangar == NO_SHIPS
       case OnCannon(kind, c, _) =>
         kind == BuildCannon && 0 <= c < CANNONS && p.buildings[FACTORY] > 0
  }

  function TaskOf(p: Planet, a: PlanetAction, round: nat, duration: nat): PlanetTask
    requires Accepts(p, a)
  {
    var cost := MetalOnly(PriceOf(p, a));
    match a
    case OnBuilding(_, b) => PlanetTask(UpgradeBuilding, b, 0, round, duration, cost, false)
    case OnShip(_, s, _) => PlanetTask(MakeShip, s, 1, round, duration, cost, false)
    case OnCannon(_, c, _) => PlanetTask(MakeCannon, c, 1, round, duration, cost, false)
  }

  /** The order is to stop the upgrade under way. */
  predicate Stops(p: Planet, a: PlanetAction) {
    && a.OnBuilding? && a.action == StopBuilding
    && p.task.Some? && p.task.value.kind == UpgradeBuilding && p.task.value.value == a.b
  }

  /** A planet after its script: with the one task of an order it accepts, paid
      for; without the upgrade it was to stop; or as it was. */
  ghost predicate Obeyed(p: Planet, q: Planet, a: PlanetAction, round: nat, duration: nat) {
    q == if Accepts(p, a) then
           p.(task := Some(TaskOf(p, a, round, duration)),
              stock := p.stock[METAL := p.stock[METAL] - PriceOf(p, a)])
         else if Stops(p, a) then p.(task := None)
         else p
  }

  /** Paying leaves more than two billion metal. */
  predicate LeavesTooMuch(p: Planet, a: PlanetAction) {
    Accepts(p, a) && p.stock[METAL] - PriceOf(p, a) > 2_000_000_000
  }

  lemma CoversMetal(stock: Resources, metal: uint32)
    ensures Covers(stock, MetalOnly(metal)) <==> metal <= stock[METAL]
    ensures metal <= stock[METAL] ==> Subtract(stock, MetalOnly(metal)) == stock[METAL := stock[METAL] - metal]
  {
    var price := MetalOnly(metal);
    assert price[0] == metal && price[1] == 0 && price[2] == 0;
    if metal <= stock[METAL] {
      var rest := Subtract(stock, price);
      assert rest[0] == stock[0] - metal && rest[1] == stock[1] && rest[2] == stock[2];
    }
  }

  /** An order to build a ship. */
  lemma ShipObeyed(p: Planet, a: PlanetAction, round: nat, duration: nat)
    requires a.OnShip? && (a.action == BuildShip || a.action == StopBuilding) && Sum(p.hangar) < TWO31
    ensures var r := OrderShip(p, round, a.s, duration);
      && (r.Throws? <==> LeavesTooMuch(p, a))
      && (r.Done? ==> Obeyed(p, r.value, a, round, duration))
  {
    hide AccumulateInt, Subtract, Sum;
    EmptyHangar(p.hangar);
    if 0 <= a.s < SHIPS {
      CoversMetal(p.stock, SHIP_LIST[a.s].metal);
    }
  }

  lemma CannonObeyed(p: Planet, a: PlanetAction, round: nat, duration: nat)
    requires a.OnCannon? && a.action == BuildCannon
    ensures var r := ApplyPlanetAction(p, a, round, duration);
      && (r.Throws? <==> LeavesTooMuch(p, a))
      && (r.Done? ==> Obeyed(p, r.value, a, round, duration))
  {
    hide AccumulateInt, Subtract;
    if 0 <= a.c < CANNONS {
      CannonPricesAgree(a.c);
      CoversMetal(p.stock, CANNON_LIST[a.c].metal);
    }
  }

  lemma UpgradeObeyed(p: Planet, a: PlanetAction, round: nat, duration: nat)
    requires a.OnBuilding? && a.action == BuildBuilding
    ensures var r := ApplyPlanetAction(p, a, round, duration);
      && (r.Throws? <==> LeavesTooMuch(p, a))
      && (r.Done? ==> Obeyed(p, r.value, a, round, duration))
  {
    hide Subtract, Pow;
    if 0 <= a.b < BUILDINGS && p.buildings[a.b] < 23 {
      var level := p.buildings[a.b] as int + 1;
      MetalPriceBound(level);
      assert BuildingPrice(level) == Some(MetalOnly(MetalPrice(level)));
      assert MetalPrice(level) == PriceOf(p, a);
      CoversMetal(p.stock, MetalPrice(level));
    }
  }

  /** One script: it throws exactly when an accepted order would leave more than
      two billion metal, and else the planet obeys. */
  lemma OneOrderOutcome(p: Planet, a: PlanetAction, round: nat, duration: nat)
    requires Sum(p.hangar) < TWO31
    ensures var r := ApplyPlanetAction(p, a, round, duration);
      && (r.Throws? <==> LeavesTooMuch(p, a))
      && (r.Done? ==> Obeyed(p, r.value, a, round, duration))
  {
    hide OrderShip, AddBuildingTask, AddCannonTask, CanBuildBuilding, CanBuildCannon, Sum;
    match a.Kind() {
      case NoOrder =>
      case BuildBuilding =>
        if a.OnBuilding? {
          UpgradeObeyed(p, a, round, duration);
        } else {
          BadIndexRefused(p, round, duration);
        }
      case StopBuilding =>
        if a.OnShip? {
          ShipObeyed(p, a, round, duration);
        } else {
          BadIndexRefused(StopTask(p, UpgradeBuilding, a.Building()), round, duration);
        }
      case BuildShip =>
        if a.OnShip? {
          ShipObeyed(p, a, round, duration);
        } else {
          BadIndexRefused(p, round, duration);
        }
      case BuildCannon =>
        if a.OnCannon? {
          CannonObeyed(p, a, round, duration);
        } else {
          BadIndexRefused(p, round, duration);
        }
    }
  }

  /** An index left undefined is refused by every test. */
  lemma BadIndexRefused(p: Planet, round: nat, duration: nat)
    ensures CanBuildBuilding(p, UNDEFINED) == CanBuildCannon(p, UNDEFINED) == BadValue
    ensures OrderShip(p, round, UNDEFINED, duration) == Done(p)
  {
  }

  /** An owned planet whose script gave an action. */
  predicate HasOrder(g: Galaxy, input: RoundInput, c: Coord) {
    Owned(g.planets, c) && c in input.planetActions
  }

  /** The first `i` scripts have been obeyed; nothing else has changed. */
  ghost predicate ScriptsObeyed(g0: Galaxy, g: Galaxy, input: RoundInput, i: nat)
    requires i <= |input.order|
  {
    && g == g0.(planets := g.planets) && g.planets.Keys == g0.planets.Keys
    && (forall k :: 0 <= k < i && HasOrder(g0, input, input.order[k]) ==>
         Obeyed(g0.planets[input.order[k]], g.planets[input.order[k]], input.planetActions[input.order[k]],
                g0.round, input.durations(input.order[k])))
    && (forall k :: i <= k < |input.order| && input.order[k] in g0.planets ==>
         g.planets[input.order[k]] == g0.planets[input.order[k]])
    && (forall c :: c in g0.planets && !HasOrder(g0, input, c) ==> g.planets[c] == g0.planets[c])
  }

  /** Some planet among the first `i` would keep too much metal. */
  ghost predicate SomeLeavesTooMuch(g: Galaxy, input: RoundInput, i: nat)
    requires i <= |input.order|
  {
    exists k :: 0 <= k < i && HasOrder(g, input, input.order[k]) &&
      LeavesTooMuch(g.planets[input.order[k]], input.planetActions[input.order[k]])
  }

  lemma ObeyedStep(g0: Galaxy, g: Galaxy, input: RoundInput, i: nat)
    requires i < |input.order| && Enumerates(input.order, g0.planets.Keys) && PlanetsOk(g0.planets)
    requires ScriptsObeyed(g0, g, input, i)
    ensures var c, r := input.order[i], ScriptStep(g, input.order[i], input);
      && (r.Throws? <==> HasOrder(g0, input, c) && LeavesTooMuch(g0.planets[c], input.planetActions[c]))
      && (r.Done? ==> ScriptsObeyed(g0, r.value, input, i + 1))
  {
    hide ApplyPlanetAction, PlanetOk, Obeyed, LeavesTooMuch, Sum;
    var c := input.order[i];
    assert g.planets[c] == g0.planets[c];
    HangarsCountable(g0.planets);
    if HasOrder(g0, input, c) {
      OneOrderOutcome(g.planets[c], input.planetActions[c], g.round, input.durations(c));
    }
  }

  /** The planet scripts of a round, whole: they throw exactly when some planet
      accepts an order that leaves it more than two billion metal, and else every
      planet with an action obeys it and the others are untouched. */
  lemma {:induction false} PlanetScriptsOutcome(g: Galaxy, input: RoundInput, i: nat)
    requires i <= |input.order| && Enumerates(input.order, g.planets.Keys) && PlanetsOk(g.planets)
    ensures PlanetScripts(g, input, i).Throws? <==> SomeLeavesTooMuch(g, input, i)
    ensures PlanetScripts(g, input, i).Done? ==> ScriptsObeyed(g, PlanetScripts(g, input, i).value, input, i)
  {
    hide ScriptStep, PlanetOk, Obeyed, LeavesTooMuch, HasOrder, Enumerates, PlanetsOk;
    if i > 0 {
      PlanetScriptsOutcome(g, input, i - 1);
      if PlanetScripts(g, input, i - 1).Done? {
        ObeyedStep(g, PlanetScripts(g, input, i - 1).value, input, i - 1);
      }
    }
  }

  // ------------------------------------------------------- fleet orders

  /** The step of at most one cell that a displacement means in eight bits. */
  predicate IsStep(d: int, step: int) {
    -1 <= step <= 1 && (d - step) % 256 == 0
  }

  /** The displacement leads from one cell to a cell of the map next to it, or
      to the same cell. */
  predicate LeadsTo(from: Coord, a: FleetAction, to: Coord) {
    && 0 <= to.x < 100 && 0 <= to.y < 100 && 0 <= to.z < 100
    && IsStep(a.dx, to.x - from.x) && IsStep(a.dy, to.y - from.y) && IsStep(a.dz, to.z - from.z)
  }

  function Tasked(f: Fleet, kind: FleetTaskKind, round: nat, to: Coord): Fleet {
    f.(task := Some(FleetTask(kind, round, 1, to, false)))
  }

  predicate OverFree(f: Fleet, planets: PlanetMap) {
    f.position in planets && planets[f.position].owner == NO_PLAYER
  }

  /** The fleet has cargo and is over a planet of its player. */
  predicate Drops(f: Fleet, planets: PlanetMap, a: FleetAction) {
    && a.kind == Drop && f.position in planets && planets[f.position].owner == f.owner
    && (f.cargo[0] as int + f.cargo[1] as int + f.cargo[2] as int) % TWO32 != 0
  }

  /** A fleet after its script: with exactly the task of an action it can take,
      ordered in this round, or without its cargo, or as it was. */
  ghost predicate Acted(f: Fleet, f': Fleet, a: FleetAction, planets: PlanetMap, caps: Caps, round: nat) {
    match a.kind
    case Nothing => f' == f
    case Move =>
      && (forall to :: LeadsTo(f.position, a, to) && f.task == None ==> f' == Tasked(f, MoveTask, round, to))
      && ((forall to :: !LeadsTo(f.position, a, to)) || f.task.Some? ==> f' == f)
    case Harvest =>
      f' == if f.task == None && OverFree(f, planets) then Tasked(f, HarvestTask, round, f.position) else f
    case Colonize =>
      f' == if f.task == None && OverFree(f, planets) && f.ships[QUEEN] > 0 && caps.planetCount < caps.maxPlanetCount
            then Tasked(f, ColonizeTask, round, f.position) else f
    case Drop => f' == if Drops(f, planets, a) then f.(cargo := NO_RESOURCES) else f
  }

  lemma WrapIs(x: int, t: int)
    requires -128 <= t < 128
    ensures (x - t) % 256 == 0 <==> t == Wrap8Signed(x)
  {
  }

  /** A move is accepted exactly when it leads somewhere, and goes there. */
  lemma MoveLeads(f: Fleet, a: FleetAction, to: Coord)
    ensures LeadsTo(f.position, a, to) && f.task == None <==> CanMove(f, Target(f, a)) == FleetActionOk && to == Target(f, a)
  {
    hide Wrap8Signed;
    if 0 <= to.x < 100 && 0 <= to.y < 100 && 0 <= to.z < 100 {
      WrapIs(f.position.x + a.dx, to.x);
      WrapIs(f.position.y + a.dy, to.y);
      WrapIs(f.position.z + a.dz, to.z);
    }
  }

  lemma SumOfThree(s: Resources)
    ensures Sum(s) == s[0] as int + s[1] as int + s[2] as int
  {
    assert s[..3] == s && s[..0] == [];
    SumPrefix(s, 3);
    SumPrefix(s, 2);
    SumPrefix(s, 1);
  }

  ghost predicate SameOwners(ps0: PlanetMap, ps: PlanetMap) {
    ps.Keys == ps0.Keys && forall c :: c in ps0 ==> ps[c].owner == ps0[c].owner
  }

  /** One script; what others dropped before it does not matter to it. */
  lemma OneScriptOutcome(f: Fleet, ps0: PlanetMap, planets: PlanetMap, a: FleetAction, caps: Caps, round: nat)
    requires SameOwners(ps0, planets)
    ensures Acted(f, FleetAfterAction(f, planets, a, caps, round), a, ps0, caps, round)
    ensures PlanetsAfterAction(f, planets, a) ==
            if Drops(f, ps0, a) then
              planets[f.position := planets[f.position].(stock := AddTab(planets[f.position].stock, f.cargo))]
            else planets
  {
    hide CanMove, Target, LeadsTo, AddTab;
    SumOfThree(f.cargo);
    if a.kind == Move {
      forall to
        ensures LeadsTo(f.position, a, to) && f.task == None <==> CanMove(f, Target(f, a)) == FleetActionOk && to == Target(f, a)
      {
        MoveLeads(f, a, to);
      }
      assert LeadsTo(f.position, a, Target(f, a)) && f.task == None <==> CanMove(f, Target(f, a)) == FleetActionOk;
    }
  }

  /** What each of the first `i` fleets drops at `c`. */
  function DropColumn(fs: FleetList, planets: PlanetMap, input: RoundInput, i: nat, c: Coord, res: nat): seq<int>
    requires i <= |fs| && res < RESOURCES
  {
    seq(i, k requires 0 <= k < i =>
      if fs[k].id in input.fleetActions && Drops(fs[k], planets, input.fleetActions[fs[k].id]) && fs[k].position == c
      then fs[k].cargo[res] else 0)
  }

  /** Each planet has its own stock and all that was dropped there, up to the
      limit of 32 bits. */
  ghost predicate Stocked(fs: FleetList, ps0: PlanetMap, ps: PlanetMap, input: RoundInput, i: nat)
    requires i <= |fs|
  {
    && ps.Keys == ps0.Keys
    && forall c :: c in ps0 ==> StockedAt(fs, ps0, ps0[c], ps[c], input, i, c)
  }

  ghost predicate StockedAt(fs: FleetList, ps0: PlanetMap, p: Planet, q: Planet, input: RoundInput, i: nat, c: Coord)
    requires i <= |fs|
  {
    && q == p.(stock := q.stock)
    && forall res :: 0 <= res < RESOURCES ==>
         q.stock[res] == Min(p.stock[res] as int + Sum(DropColumn(fs, ps0, input, i, c, res)), MAX32)
  }

  /** A fleet without an action is as it was; the others have acted. */
  ghost predicate ScriptActed(f: Fleet, f': Fleet, planets: PlanetMap, input: RoundInput, round: nat) {
    if f.id in input.fleetActions then
      Acted(f, f', input.fleetActions[f.id], planets, CapsOf(input, f.owner), round)
    else f' == f
  }

  ghost predicate ScriptsActed(fs: FleetList, fs': FleetList, planets: PlanetMap, input: RoundInput, round: nat, i: nat)
    requires i <= |fs|
  {
    && |fs'| == |fs|
    && (forall k :: 0 <= k < i ==> ScriptActed(fs[k], fs'[k], planets, input, round))
    && (forall k :: i <= k < |fs| ==> fs'[k] == fs[k])
  }

  lemma DropColumnGrows(fs: FleetList, planets: PlanetMap, input: RoundInput, i: nat, c: Coord, res: nat)
    requires i < |fs| && res < RESOURCES
    ensures var col := DropColumn(fs, planets, input, i + 1, c, res);
      Sum(col) == Sum(DropColumn(fs, planets, input, i, c, res)) + col[i]
    ensures Sum(DropColumn(fs, planets, input, i, c, res)) >= 0
  {
    hide Drops;
    var col := DropColumn(fs, planets, input, i + 1, c, res);
    assert col[..i] == DropColumn(fs, planets, input, i, c, res);
    SumNonNegative(col[..i]);
  }

  /** The planets after one more fleet: its cargo is added where it drops. */
  lemma StockedStep(fs: FleetList, ps0: PlanetMap, ps: PlanetMap, ps': PlanetMap, input: RoundInput, i: nat)
    requires i < |fs| && Stocked(fs, ps0, ps, input, i)
    requires var f := fs[i];
      ps' == if f.id in input.fleetActions && Drops(f, ps0, input.fleetActions[f.id]) then
               ps[f.position := ps[f.position].(stock := AddTab(ps[f.position].stock, f.cargo))]
             else ps
    ensures Stocked(fs, ps0, ps', input, i + 1)
  {
    DropsOnPlanet(fs[i], ps0, input);
    hide Drops, Sum, DropColumn;
    forall c | c in ps0
      ensures StockedAt(fs, ps0, ps0[c], ps'[c], input, i + 1, c)
    {
      assert StockedAt(fs, ps0, ps0[c], ps[c], input, i, c);
      forall res | 0 <= res < RESOURCES
        ensures ps'[c].stock[res] ==
                Min(ps0[c].stock[res] as int + Sum(DropColumn(fs, ps0, input, i + 1, c, res)), MAX32)
      {
        DropColumnGrows(fs, ps0, input, i, c, res);
        LastDrop(fs, ps0, input, i, c, res);
      }
    }
  }

  lemma DropsOnPlanet(f: Fleet, planets: PlanetMap, input: RoundInput)
    ensures f.id in input.fleetActions && Drops(f, planets, input.fleetActions[f.id]) ==> f.position in planets
  {
  }

  lemma LastDrop(fs: FleetList, planets: PlanetMap, input: RoundInput, i: nat, c: Coord, res: nat)
    requires i < |fs| && res < RESOURCES
    ensures |DropColumn(fs, planets, input, i + 1, c, res)| == i + 1
    ensures DropColumn(fs, planets, input, i + 1, c, res)[i] ==
      if fs[i].id in input.fleetActions && Drops(fs[i], planets, input.fleetActions[fs[i].id]) && fs[i].position == c
      then fs[i].cargo[res] else 0
  {
  }

  lemma NothingDropped(fs: FleetList, planets: PlanetMap, input: RoundInput)
    ensures Stocked(fs, planets, planets, input, 0)
  {
    forall c, res | c in planets && 0 <= res < RESOURCES
      ensures DropColumn(fs, planets, input, 0, c, res) == []
    {
    }
  }

  lemma StockedOwners(fs: FleetList, ps0: PlanetMap, ps: PlanetMap, input: RoundInput, i: nat)
    requires i <= |fs| && Stocked(fs, ps0, ps, input, i)
    ensures SameOwners(ps0, ps)
  {
    hide Sum, DropColumn;
    forall c | c in ps0
      ensures ps[c].owner == ps0[c].owner
    {
      assert StockedAt(fs, ps0, ps0[c], ps[c], input, i, c);
    }
  }

  /** The fleet scripts of a round, whole: every fleet has acted as its own script
      said, on the planets as they were, and all cargo dropped is on the planets. */
  lemma {:induction false} FleetScriptsOutcome(fs: FleetList, planets: PlanetMap, input: RoundInput, round: nat, i: nat)
    requires i <= |fs|
    ensures var (acted, planets') := FleetScripts(fs, planets, input, round, i);
      ScriptsActed(fs, acted, planets, input, round, i) && Stocked(fs, planets, planets', input, i)
  {
    hide FleetAfterAction, PlanetsAfterAction, Stocked, Acted, Drops, AddTab;
    if i == 0 {
      NothingDropped(fs, planets, input);
    } else {
      FleetScriptsOutcome(fs, planets, input, round, i - 1);
      var (fs1, planets1) := FleetScripts(fs, planets, input, round, i - 1);
      StockedOwners(fs, planets, planets1, input, i - 1);
      var f := fs[i - 1];
      if f.id in input.fleetActions {
        OneScriptOutcome(f, planets, planets1, input.fleetActions[f.id], CapsOf(input, f.owner), round);
      }
      StockedStep(fs, planets, planets1, FleetScripts(fs, planets, input, round, i).1, input, i - 1);
    }
  }

  /** The fleets of the map are the gathered ones that have ships, each as its
      script left it. */
  ghost predicate FleetsActed(gathered: FleetList, fleets: FleetMap, planets: PlanetMap, input: RoundInput, round: nat) {
    && (forall id :: id in fleets ==> exists k :: 0 <= k < |gathered| && gathered[k].id == id)
    && (forall k :: 0 <= k < |gathered| ==>
         && (gathered[k].id in fleets <==> gathered[k].ships != NO_SHIPS)
         && (gathered[k].id in fleets ==>
              ScriptActed(gathered[k], fleets[gathered[k].id], planets, input, round)))
  }

  lemma ActedFleet(f: Fleet, f': Fleet, planets: PlanetMap, input: RoundInput, round: nat)
    requires ScriptActed(f, f', planets, input, round)
    ensures f' == f.(task := f'.task, cargo := f'.cargo)
    ensures f.id !in input.fleetActions ==> f'.task == f.task
  {
    if f.id in input.fleetActions && input.fleetActions[f.id].kind == Move {
      var a := input.fleetActions[f.id];
      if to :| LeadsTo(f.position, a, to) {
        assert f.task == None ==> f' == Tasked(f, MoveTask, round, to);
      }
    }
  }

  lemma RebuiltActed(gathered: FleetList, acted: FleetList, planets: PlanetMap, input: RoundInput, round: nat)
    requires ScriptsActed(gathered, acted, planets, input, round, |gathered|)
    requires DistinctIds(gathered) && forall k :: 0 <= k < |gathered| ==> Sum(gathered[k].ships) < TWO31
    ensures FleetsActed(gathered, Rebuilt(acted), planets, input, round)
  {
    hide Rebuilt, ScriptActed, EmptyFleet, Sum;
    forall k | 0 <= k < |acted|
      ensures acted[k].id == gathered[k].id && acted[k].ships == gathered[k].ships
      ensures EmptyFleet(acted[k]) <==> acted[k].ships == NO_SHIPS
    {
      ActedFleet(gathered[k], acted[k], planets, input, round);
      EmptyFleetIff(acted[k]);
    }
    RebuiltIs(acted);
    forall id | id in Rebuilt(acted)
      ensures exists k :: 0 <= k < |gathered| && gathered[k].id == id
    {
      var k :| 0 <= k < |acted| && acted[k].id == id;
      assert gathered[k].id == id;
    }
  }

  /** The whole fleet phase over the gathered fleets. */
  lemma FleetsPhaseOutcome(g: Galaxy, input: RoundInput)
    requires PlanetsOk(g.planets) && FleetsOk(g.fleets, g.planets, g.nextFleetId, g.round)
    requires NoFleetTask(g.fleets) && Enumerates(input.order, g.planets.Keys)
    ensures var (gathered, planets) := GatherFrom(input.gather, FleetMultimap(g.fleets), g.planets, 0);
      var g' := FleetsPhase(g, input);
      && g' == g.(fleets := g'.fleets, planets := g'.planets)
      && AllIdle(gathered)
      && FleetsActed(gathered, g'.fleets, planets, input, g.round)
      && Stocked(gathered, planets, g'.planets, input, |gathered|)
  {
    hide GoodFleet, PlanetOk, FleetsOk, FleetMultimap, GatherFrom, FleetScripts, Rebuilt, ScriptsActed, Stocked, FleetsActed;
    GatherPhaseKeeps(g, input);
    var (gathered, planets) := GatherFrom(input.gather, FleetMultimap(g.fleets), g.planets, 0);
    FleetScriptsOutcome(gathered, planets, input, g.round, |gathered|);
    var (acted, planets') := FleetScripts(gathered, planets, input, g.round, |gathered|);
    InOrderSums(gathered, g.planets, g.round);
    RebuiltActed(gathered, acted, planets, input, g.round);
  }

  lemma InOrderSums(fs: FleetList, planets: PlanetMap, round: nat)
    requires InOrder(fs, planets, round)
    ensures forall k :: 0 <= k < |fs| ==> Sum(fs[k].ships) < TWO31
  {
    forall k | 0 <= k < |fs|
      ensures Sum(fs[k].ships) < TWO31
    {
      assert GoodFleet(fs[k].id, fs[k], planets, round);
    }
  }
}
