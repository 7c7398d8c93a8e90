/** What becomes of an order between the script that gives it and the round that
    carries it out, across the functions of `Planets`, `Fleets` and `Phases`. */
module OrderLaws {
  import opened Basics
  import opened Model
  import opened Prices
  import opened Planets
  import opened Fleets
  import opened Forest
  import opened Phases

  // ------------------------------------------------------- fleet orders

  /** An accepted move takes the fleet exactly to its target in the next round,
      whatever has happened to the planets in between. */
  lemma MoveCarriedOut(f: Fleet, planets: PlanetMap, a: FleetAction, caps: Caps, round: nat,
                       planets': PlanetMap, caps': Caps)
    requires InMap(f.position) && a.kind == Move && CanMove(f, Target(f, a)) == FleetActionOk
    ensures Adjacent(Coord(0, 0, 0), Coord(a.dx, a.dy, a.dz)) ==>
      Target(f, a) == Coord(f.position.x + a.dx, f.position.y + a.dy, f.position.z + a.dz)
    ensures InMap(Target(f, a)) && Adjacent(f.position, Target(f, a))
    ensures FleetRound(planets', FleetAfterAction(f, planets, a, caps, round), caps', round + 1) ==
            Done((f.(position := Target(f, a), cargo := Capped(f.cargo)), planets'))
  {
    var f' := FleetAfterAction(f, planets, a, caps, round);
    assert f.task == None && f'.task.value.kind == MoveTask;
  }

  /** An accepted harvest brings in everything a still free planet then has, up
      to the limit of a cargo; a planet settled meanwhile keeps all it has. */
  lemma HarvestCarriedOut(f: Fleet, planets: PlanetMap, a: FleetAction, caps: Caps, round: nat,
                          planets': PlanetMap, caps': Caps)
    requires a.kind == Harvest && CanHarvest(f, planets) == FleetActionOk && planets'.Keys == planets.Keys
    ensures var r := FleetRound(planets', FleetAfterAction(f, planets, a, caps, round), caps', round + 1);
      && r.Done?
      && var (f', ps) := r.value;
         var p := planets'[f.position];
         && f' == f.(cargo := f'.cargo)
         && (p.owner != NO_PLAYER ==> ps == planets' && f'.cargo == Capped(f.cargo))
         && (p.owner == NO_PLAYER ==>
              && ps == planets'[f.position := p.(stock := NO_RESOURCES)]
              && forall i :: 0 <= i < RESOURCES ==>
                   f'.cargo[i] == Min(f.cargo[i] as int + p.stock[i] as int, STOCK_LIMIT))
  {
    var f1 := FleetAfterAction(f, planets, a, caps, round);
    assert f.task == None && f1.task.value.kind == HarvestTask;
  }

  /** An accepted colonisation succeeds exactly when the planet is still free and
      the frozen count still below the cap; it costs one queen, and the colony
      belongs to the fleet's player and hangs below the origin of the fleet. */
  lemma ColonizeCarriedOut(f: Fleet, planets: PlanetMap, a: FleetAction, caps: Caps, round: nat,
                           planets': PlanetMap, caps': Caps)
    requires a.kind == Colonize && CanColonize(f, planets, caps) == FleetActionOk && planets'.Keys == planets.Keys
    requires f.owner != NO_PLAYER
    ensures var r := FleetRound(planets', FleetAfterAction(f, planets, a, caps, round), caps', round + 1);
      && r.Done?
      && var (f', ps) := r.value;
         var p, q := planets'[f.position], ps[f.position];
         if p.owner == NO_PLAYER && caps'.planetCount < caps'.maxPlanetCount then
           && ps == planets'[f.position := q]
           && q == p.(owner := f.owner, parent := f.origin, buildings := p.buildings[COMMAND_CENTER := 1], stock := q.stock)
           && q.stock[0] == Min(p.stock[0] as int + 2000, MAX32)
           && q.stock[1] == Min(p.stock[1] as int + 500, MAX32) && q.stock[2] == p.stock[2]
           && f'.ships[QUEEN] as int == f.ships[QUEEN] as int - 1
           && f'.(cargo := f.cargo) == f.(ships := f.ships[QUEEN := f'.ships[QUEEN]])
         else ps == planets' && f' == f.(cargo := Capped(f.cargo))
  {
    var f1 := FleetAfterAction(f, planets, a, caps, round);
    assert f.task == None && f1.task.value.kind == ColonizeTask;
  }

  /** A drop moves the whole cargo to the player's own planet: nothing is lost
      but what 32 bits cannot hold, and no other planet changes. */
  lemma DropMovesCargo(f: Fleet, planets: PlanetMap, a: FleetAction, caps: Caps, round: nat)
    requires a.kind == Drop && CanDrop(f, planets) == FleetActionOk
    ensures var f', ps := FleetAfterAction(f, planets, a, caps, round), PlanetsAfterAction(f, planets, a);
      var p := planets[f.position];
      && p.owner == f.owner && f' == f.(cargo := NO_RESOURCES)
      && ps == planets[f.position := p.(stock := ps[f.position].stock)]
      && (forall i :: 0 <= i < RESOURCES ==>
           ps[f.position].stock[i] == Min(p.stock[i] as int + f.cargo[i] as int, MAX32))
      && (Sum(p.stock) + Sum(f.cargo) <= MAX32 ==> Sum(ps[f.position].stock) == Sum(p.stock) + Sum(f.cargo))
  {
    var p := planets[f.position];
    if Sum(p.stock) + Sum(f.cargo) <= MAX32 {
      AddTabExact(p.stock, f.cargo);
    }
  }

  // ------------------------------------------------------ planet orders

  /** An accepted upgrade costs its price now, and raises that building by one
      level and changes nothing else, exactly from the round it is due. */
  lemma UpgradeCarriedOut(p: Planet, building: int, round: nat, duration: nat, later: nat)
    requires CanBuildBuilding(p, building) == BuildOk
    requires AddBuildingTask(p, round, building, duration).Done?
    ensures var q := AddBuildingTask(p, round, building, duration).value;
      && (forall i :: 0 <= i < RESOURCES ==>
           q.stock[i] as int + BuildingPrice(p.buildings[building] as int + 1).value[i] as int == p.stock[i] as int)
      && ExecPlanetTask(q, later).Done?
      && DropExpired(ExecPlanetTask(q, later).value) ==
         if later < round + duration then q
         else p.(stock := q.stock, buildings := p.buildings[building := p.buildings[building] + 1])
  {
    AcceptedUpgradeBilled(p, round, duration, building);
  }

  /** A colony throws on its first accepted upgrade exactly when the free cell
      it was settled on held so much metal that, with the 2000 it brings, more
      than two billion remain. */
  lemma ColonyUpgradeThrowsIff(p: Planet, f: Fleet, building: int, round: nat, duration: nat)
    requires p.task == None && CanBuildBuilding(Colony(p, f), building) == BuildOk
    ensures var price := BuildingPrice(Colony(p, f).buildings[building] as int + 1).value;
      ApplyPlanetAction(Colony(p, f), OnBuilding(BuildBuilding, building), round, duration).Throws? <==>
      Min(p.stock[METAL] as int + 2000, MAX32) - price[METAL] as int > STRANGE_LIMIT
  {
    AcceptedUpgradeBilled(Colony(p, f), round, duration, building);
  }

  /** Such a cell: three billion metal, on which the colony's first upgrade throws. */
  lemma RichColonyThrows(c: Coord, f: Fleet, round: nat, duration: nat)
    ensures exists p: Planet ::
      && PlanetOk(c, p) && p.owner == NO_PLAYER
      && CanBuildBuilding(Colony(p, f), METAL_MINE) == BuildOk
      && ApplyPlanetAction(Colony(p, f), OnBuilding(BuildBuilding, METAL_MINE), round, duration).Throws?
  {
    var p := Planet(NO_PLAYER, NO_BUILDINGS, None, [3_000_000_000, 0, 0], NO_CANNONS, c, NO_SHIPS);
    FirstPrice();
    assert CanBuildBuilding(Colony(p, f), METAL_MINE) == BuildOk;
    ColonyUpgradeThrowsIff(p, f, METAL_MINE, round, duration);
  }

  lemma FirstPrice()
    ensures BuildingPrice(1) == Some(MetalOnly(100))
  {
    assert Pow(8, 0) == 1 && Pow(5, 0) == 1;
  }

  /** Stopping an upgrade gives nothing back; no script can give that order yet. */
  lemma StopForfeits(p: Planet, building: int, round: nat, duration: nat)
    requires CanBuildBuilding(p, building) == BuildOk
    requires AddBuildingTask(p, round, building, duration).Done?
    ensures StopTask(AddBuildingTask(p, round, building, duration).value, UpgradeBuilding, building) ==
            p.(stock := Subtract(p.stock, BuildingPrice(p.buildings[building] as int + 1).value))
  {
    AcceptedUpgradeBilled(p, round, duration, building);
  }

  /** The case of the switch for stopping a building has no `break` and runs on
      into the ship case; as an action on a building names no ship, that case
      refuses it, and the stop order only stops. */
  lemma StopOnlyStops(p: Planet, building: int, round: nat, duration: nat)
    ensures ApplyPlanetAction(p, OnBuilding(StopBuilding, building), round, duration) ==
            Done(StopTask(p, UpgradeBuilding, building))
  {
    assert OnBuilding(StopBuilding, building).Ship() == UNDEFINED;
  }

  /** What a script can order is never a stop, and only ever orders what it names:
      it changes nothing or starts the one task of its kind and index. */
  lemma ActionOrdersWhatItNames(p: Planet, a: PlanetAction, round: nat, duration: nat)
    requires Scriptable(a) && ApplyPlanetAction(p, a, round, duration).Done?
    ensures a.Kind() != StopBuilding
    ensures var q := ApplyPlanetAction(p, a, round, duration).value;
      || q == p
      || (q.task.Some? && p.task == None && q.task.value.launch == round && q.task.value.duration == duration &&
           match a
           case NoPlanetAction => false
           case OnBuilding(_, b) => q.task.value.kind == UpgradeBuilding && q.task.value.value == b
           case OnShip(_, s, n) => q.task.value.kind == MakeShip && q.task.value.value == s && q.task.value.number == n
           case OnCannon(_, c, n) => q.task.value.kind == MakeCannon && q.task.value.value == c && q.task.value.number == n)
  {
  }

  lemma OneShip(ship: nat)
    requires ship < SHIPS
    ensures Sum(NO_SHIPS[ship := 1]) == 1
    ensures AccumulateInt(NO_SHIPS[ship := 1]) == 1
  {
    NoShipsSum();
    SumUpdate(NO_SHIPS, ship, 1);
    AccumulateIntExact(NO_SHIPS[ship := 1]);
  }

  /** The galaxy holds this planet, with an accepted ship that is due. */
  ghost predicate ShipDue(g: Galaxy, c: Coord, p: Planet, ship: int, round: nat, duration: nat) {
    && p.owner != NO_PLAYER && PlanetOk(c, p)
    && CanBuildShip(p, ship) == BuildOk
    && var q := AddShipTask(p, round, ship, 1, duration);
       q.Done? && c in g.planets && g.planets[c] == q.value && round + duration <= g.round
  }

  /** An accepted ship, once due, leaves the hangar at once as a new fleet of
      its own, or stays there alone when the player has all the fleets allowed. */
  lemma ShipCarriedOut(g: Galaxy, c: Coord, p: Planet, ship: int, round: nat, duration: nat, input: RoundInput)
    requires ShipDue(g, c, p, ship, round, duration)
    requires forall id :: id in g.fleets ==> id < g.nextFleetId
    ensures var r := PlanetRound(g, c, input);
      var caps := CapsOf(input, p.owner);
      && r.Done?
      && var g' := r.value;
         && g'.planets[c].task == None
         && if caps.fleetCount < caps.maxFleetCount then
              && g'.planets[c].hangar == NO_SHIPS
              && g'.fleets == g.fleets[g.nextFleetId :=
                   Fleet(g.nextFleetId, p.owner, c, c, NO_SHIPS[ship := 1], NO_RESOURCES, None)]
            else g'.fleets == g.fleets && g'.planets[c].hangar == NO_SHIPS[ship := 1]
  {
    hide Production, AddTab, Capped;
    AcceptedShipBilled(p, round, duration, ship);
    OneShip(ship);
    assert p.hangar == NO_SHIPS;
    var q := g.planets[c];
    assert ExecPlanetTask(q, g.round).value.hangar == NO_SHIPS[ship := 1];
  }
}
