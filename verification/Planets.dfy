/** One planet: paying, build tests, orders, tasks and the round of
    UnivManip.cpp, as functions on planet values.  `Universe` runs them in place. */
module Planets {
  import opened Basics
  import opened Model
  import opened Prices

  const STRANGE_LIMIT := 2_000_000_000
  const STOCK_LIMIT: uint32 := 1_000_000_000

  // ------------------------------------------------------------ paying

  predicate Covers(stock: Resources, price: Resources) {
    forall i :: 0 <= i < RESOURCES ==> price[i] <= stock[i]
  }

  method CanPay(stock: Resources, price: Resources) returns (ok: bool)
    ensures ok <==> Covers(stock, price)
  {
    for i := 0 to RESOURCES
      invariant forall k :: 0 <= k < i ==> price[k] <= stock[k]
    {
      if stock[i] < price[i] {
        return false;
      }
    }
    return true;
  }

  function Subtract(stock: Resources, price: Resources): (r: Resources)
    requires Covers(stock, price)
    ensures forall i :: 0 <= i < RESOURCES ==> r[i] as int + price[i] as int == stock[i] as int
  {
    seq(RESOURCES, i requires 0 <= i < RESOURCES => stock[i] - price[i])
  }

  /** `pay`: refuses an uncovered price, and refuses a suspicious remainder. */
  function Pay(stock: Resources, price: Resources): Attempt<Resources> {
    if !Covers(stock, price) then Throws
    else
      var rest := Subtract(stock, price);
      if rest[METAL] > STRANGE_LIMIT then Throws else Done(rest)
  }

  // ------------------------------------------------------- build tests

  datatype BuildTestState =
    | BuildOk
    | BadValue
    | FactoryMissing
    | CommandCenterMissing
    | OtherTaskRunning
    | NotEnoughResources
    | HangarFull

  function CanBuildShip(p: Planet, ship: int): BuildTestState {
    if ship < 0 || ship >= SHIPS then BadValue
    else if p.buildings[FACTORY] == 0 then FactoryMissing
    else if p.task.Some? then OtherTaskRunning
    else if !Covers(p.stock, MetalOnly(SHIP_LIST[ship].metal)) then NotEnoughResources
    else if AccumulateInt(p.hangar) != 0 then HangarFull
    else BuildOk
  }

  function CanBuildBuilding(p: Planet, building: int): BuildTestState {
    if building < 0 || building >= BUILDINGS then BadValue
    else if p.buildings[COMMAND_CENTER] == 0 then CommandCenterMissing
    else if p.task.Some? then OtherTaskRunning
    else match BuildingPrice(p.buildings[building] as int + 1)
      case None => NotEnoughResources
      case Some(price) => if Covers(p.stock, price) then BuildOk else NotEnoughResources
  }

  /** The cannon test reads the price in the ship table, as the source does. */
  function CanBuildCannon(p: Planet, cannon: int): BuildTestState {
    if cannon < 0 || cannon >= CANNONS then BadValue
    else if p.buildings[FACTORY] == 0 then FactoryMissing
    else if p.task.Some? then OtherTaskRunning
    else if !Covers(p.stock, MetalOnly(SHIP_LIST[cannon].metal)) then NotEnoughResources
    else BuildOk
  }

  // ------------------------------------------------------------ orders

  function Start(p: Planet, task: PlanetTask): Attempt<Planet> {
    if p.task.Some? then Throws
    else match Pay(p.stock, task.startCost)
      case Throws => Throws
      case Done(rest) => Done(p.(task := Some(task), stock := rest))
  }

  function AddBuildingTask(p: Planet, round: nat, building: nat, duration: nat): Attempt<Planet>
    requires building < BUILDINGS
  {
    if p.buildings[COMMAND_CENTER] == 0 then Throws
    else match BuildingPrice(p.buildings[building] as int + 1)
      case None => Throws
      case Some(price) =>
        if !Covers(p.stock, price) then Throws
        else Start(p, PlanetTask(UpgradeBuilding, building, 0, round, duration, price, false))
  }

  function AddShipTask(p: Planet, round: nat, ship: nat, number: uint32, duration: nat): Attempt<Planet>
    requires ship < SHIPS
  {
    if p.buildings[FACTORY] == 0 then Throws
    else Start(p, PlanetTask(MakeShip, ship, number, round, duration, MetalOnly(SHIP_LIST[ship].metal), false))
  }

  function AddCannonTask(p: Planet, round: nat, cannon: nat, number: uint32, duration: nat): Attempt<Planet>
    requires cannon < CANNONS
  {
    if p.buildings[FACTORY] == 0 then Throws
    else Start(p, PlanetTask(MakeCannon, cannon, number, round, duration, MetalOnly(CANNON_LIST[cannon].metal), false))
  }

  function StopTask(p: Planet, kind: PlanetTaskKind, value: int): Planet {
    if p.task.Some? && p.task.value.kind == kind && p.task.value.value == value
    then p.(task := None)
    else p
  }

  datatype PlanetActionKind = NoOrder | BuildBuilding | StopBuilding | BuildShip | BuildCannon

  const UNDEFINED := -1

  /** What a planet script returns, by the four constructors there are: each sets
      one index, unchecked, and leaves the others undefined. */
  datatype PlanetAction =
    | NoPlanetAction
    | OnBuilding(action: PlanetActionKind, b: int)
    | OnShip(action: PlanetActionKind, s: int, number: uint32)
    | OnCannon(action: PlanetActionKind, c: int, number: uint32)
  {
    function Kind(): PlanetActionKind {
      if NoPlanetAction? then NoOrder else action
    }

    function Building(): int {
      if OnBuilding? then b else UNDEFINED
    }

    function Ship(): int {
      if OnShip? then s else UNDEFINED
    }

    function Cannon(): int {
      if OnCannon? then c else UNDEFINED
    }
  }

  /** What scripts are given to build actions with; indices count from 1 there. */
  function MakeBuildingOrder(building: int): PlanetAction {
    OnBuilding(BuildBuilding, building - 1)
  }

  function MakeShipOrder(ship: int): PlanetAction {
    OnShip(BuildShip, ship - 1, 1)
  }

  function MakeCannonOrder(cannon: int): PlanetAction {
    OnCannon(BuildCannon, cannon - 1, 1)
  }

  ghost predicate Scriptable(a: PlanetAction) {
    || a == NoPlanetAction
    || exists i :: a == MakeBuildingOrder(i) || a == MakeShipOrder(i) || a == MakeCannonOrder(i)
  }

  function OrderShip(p: Planet, round: nat, ship: int, duration: nat): Attempt<Planet> {
    if CanBuildShip(p, ship) == BuildOk then AddShipTask(p, round, ship, 1, duration) else Done(p)
  }

  /** `applyPlanetAction`.  The StopBuilding case of the source has no `break`
      and runs on into the ship case. */
  function ApplyPlanetAction(p: Planet, action: PlanetAction, round: nat, duration: nat): Attempt<Planet> {
    match action.Kind()
    case NoOrder => Done(p)
    case BuildBuilding =>
      if CanBuildBuilding(p, action.Building()) == BuildOk
      then AddBuildingTask(p, round, action.Building(), duration) else Done(p)
    case StopBuilding =>
      OrderShip(StopTask(p, UpgradeBuilding, action.Building()), round, action.Ship(), duration)
    case BuildShip => OrderShip(p, round, action.Ship(), duration)
    case BuildCannon =>
      if CanBuildCannon(p, action.Cannon()) == BuildOk
      then AddCannonTask(p, round, action.Cannon(), 1, duration) else Done(p)
  }

  // -------------------------------------------------------------- task

  /** `execTask` for a planet. */
  function ExecPlanetTask(p: Planet, round: nat): Attempt<Planet>
    requires p.task.Some?
  {
    var t := p.task.value;
    if t.launch + t.duration > round then Done(p)
    else
      var spent := Some(t.(expired := true));
      match t.kind
      case UpgradeBuilding =>
        if t.value >= BUILDINGS then Throws
        else Done(p.(buildings := p.buildings[t.value := (p.buildings[t.value] as int + 1) % TWO16], task := spent))
      case MakeShip =>
        if t.value >= SHIPS then Throws
        else Done(p.(hangar := p.hangar[t.value := (p.hangar[t.value] as int + t.number as int) % TWO32], task := spent))
      case MakeCannon =>
        if t.value < CANNONS
        then Done(p.(cannons := p.cannons[t.value := (p.cannons[t.value] as int + 1) % TWO32], task := spent))
        else Done(p.(task := spent))
  }

  function DropExpired(p: Planet): Planet {
    if p.task.Some? && p.task.value.expired then p.(task := None) else p
  }

  // -------------------------------------------------------- production

  /** Metal a mine of this level adds per round: level * floor(1.1^level) * 4. */
  function MineYield(level: nat): nat {
    PowPositive(10, level);
    level * (Pow(11, level) / Pow(10, level)) * 4
  }

  /** `execBuilding`: only the command centre and the metal mine produce. */
  function ExecBuilding(stock: Resources, building: nat, level: nat): Resources {
    if level == 0 then stock
    else if building == COMMAND_CENTER then stock[METAL := CappedAdd(stock[METAL], 1)]
    else if building == METAL_MINE then stock[METAL := CappedAdd(stock[METAL], Min(MAX32, MineYield(level)))]
    else stock
  }

  /** What the buildings make of the stock in one round. */
  function Production(p: Planet): Resources {
    var base := if p.buildings[COMMAND_CENTER] > 0 then CappedAdd(p.stock[METAL], 1) else p.stock[METAL];
    var mined := MineYield(p.buildings[METAL_MINE]);
    p.stock[METAL := Min(base as int + mined, MAX32)]
  }

  /** The crystals a round may add: below 7, 5 and 3, all zero in most rounds. */
  type Crystals = s: seq<uint32> | |s| == RESOURCES && s[0] < 7 && s[1] < 5 && s[2] < 3 witness [0, 0, 0]

  function Capped(stock: Resources): (r: Resources)
    ensures forall i :: 0 <= i < RESOURCES ==> r[i] == Min(stock[i], STOCK_LIMIT)
  {
    seq(RESOURCES, i requires 0 <= i < RESOURCES => if stock[i] < STOCK_LIMIT then stock[i] else STOCK_LIMIT)
  }

  /** The planet half of `planetRound` once a possible new fleet has left. */
  function EndOfPlanetRound(p: Planet, crystals: Crystals): Planet {
    var q := DropExpired(p);
    q.(stock := Capped(AddTab(Production(q), crystals)))
  }

  /** The 32-bit saturation on the way never shows: a planet ends its round with
      the true sum of stock, production and crystals, up to the stock limit. */
  lemma RoundStockExact(p: Planet, crystals: Crystals)
    ensures var stock := EndOfPlanetRound(p, crystals).stock;
      var base := if p.buildings[COMMAND_CENTER] > 0 then 1 else 0;
      && stock[METAL] == Min(p.stock[METAL] as int + base + MineYield(p.buildings[METAL_MINE]) + crystals[METAL] as int, STOCK_LIMIT)
      && forall i :: 0 < i < RESOURCES ==> stock[i] == Min(p.stock[i] as int + crystals[i] as int, STOCK_LIMIT)
  {
    hide MineYield;
    var q := DropExpired(p);
    assert q.stock == p.stock && q.buildings == p.buildings;
  }

  // --------------------------------------------------------- invariant

  predicate LevelsOk(b: BuildingTab) {
    forall i :: 0 <= i < BUILDINGS ==> b[i] <= MAX_LEVEL
  }

  predicate PlanetTaskOk(p: Planet, t: PlanetTask) {
    && !t.expired
    && match t.kind
       case UpgradeBuilding => t.value < BUILDINGS && p.buildings[t.value] < MAX_LEVEL
       case MakeShip => t.value < SHIPS && t.number == 1 && p.hangar == NO_SHIPS
       case MakeCannon => t.value < CANNONS
  }

  /** What every planet satisfies between phases: an unowned planet is bare and
      its own parent; an owned one has a command centre, no level above 23, at
      most one ship in the hangar and at most one, feasible, task. */
  predicate PlanetOk(c: Coord, p: Planet) {
    if p.owner == NO_PLAYER then
      p == Planet(NO_PLAYER, NO_BUILDINGS, None, p.stock, NO_CANNONS, c, NO_SHIPS)
    else
      && p.buildings[COMMAND_CENTER] >= 1
      && LevelsOk(p.buildings)
      && Sum(p.hangar) <= 1
      && (p.task.Some? ==> PlanetTaskOk(p, p.task.value))
  }

  lemma NoShipsSum()
    ensures Sum(NO_SHIPS) == 0
  {
    SumZero(NO_SHIPS);
  }

  lemma EmptyHangar(h: ShipTab)
    requires Sum(h) < TWO31
    ensures AccumulateInt(h) == 0 <==> h == NO_SHIPS
  {
    AccumulateIntExact(h);
  }

  /** The ship table admits a cannon, the cannon table bills it: the two agree. */
  lemma CannonPricesAgree(cannon: nat)
    requires cannon < CANNONS
    ensures SHIP_LIST[cannon].metal == CANNON_LIST[cannon].metal
  {
    assert cannon == 0 || cannon == 1 || cannon == 2 || cannon == 3 || cannon == 4 || cannon == 5;
  }

  /** The outcome of starting an affordable task: billed exactly, or thrown
      away exactly when more than two billion metal would remain. */
  ghost predicate Billed(p: Planet, task: PlanetTask, outcome: Attempt<Planet>) {
    && Covers(p.stock, task.startCost)
    && outcome ==
       if p.stock[METAL] as int - task.startCost[METAL] as int > STRANGE_LIMIT then Throws
       else Done(p.(stock := Subtract(p.stock, task.startCost), task := Some(task)))
  }

  /** An accepted upgrade is billed at the price of the next level. */
  lemma AcceptedUpgradeBilled(p: Planet, round: nat, duration: nat, building: int)
    requires CanBuildBuilding(p, building) == BuildOk
    ensures 0 <= building < BUILDINGS && p.buildings[building] < MAX_LEVEL
    ensures
      var price := BuildingPrice(p.buildings[building] as int + 1).value;
      Billed(p, PlanetTask(UpgradeBuilding, building, 0, round, duration, price, false),
             AddBuildingTask(p, round, building, duration))
  {
  }

  /** An accepted ship is billed at its price, and only with an empty hangar. */
  lemma AcceptedShipBilled(p: Planet, round: nat, duration: nat, ship: int)
    requires CanBuildShip(p, ship) == BuildOk
    ensures Sum(p.hangar) < TWO31 ==> p.hangar == NO_SHIPS
    ensures
      var price := MetalOnly(SHIP_LIST[ship].metal);
      Billed(p, PlanetTask(MakeShip, ship, 1, round, duration, price, false),
             AddShipTask(p, round, ship, 1, duration))
  {
    if Sum(p.hangar) < TWO31 {
      EmptyHangar(p.hangar);
    }
  }

  /** An accepted cannon, tested against the ship table, is billed from the
      cannon table. */
  lemma AcceptedCannonBilled(p: Planet, round: nat, duration: nat, cannon: int)
    requires CanBuildCannon(p, cannon) == BuildOk
    ensures
      var price := MetalOnly(CANNON_LIST[cannon].metal);
      Billed(p, PlanetTask(MakeCannon, cannon, 1, round, duration, price, false),
             AddCannonTask(p, round, cannon, 1, duration))
  {
    CannonPricesAgree(cannon);
  }

  /** `q` is `p` after an order: well formed, with only task and stock changed. */
  ghost predicate Ordered(c: Coord, p: Planet, q: Planet) {
    && PlanetOk(c, q)
    && q.(task := p.task, stock := p.stock) == p
  }

  lemma ShipOrderKeepsPlanet(c: Coord, p: Planet, round: nat, ship: int, duration: nat)
    requires p.owner != NO_PLAYER && PlanetOk(c, p)
    ensures var r := OrderShip(p, round, ship, duration);
      && (p.stock[METAL] <= STRANGE_LIMIT ==> r.Done?)
      && (r.Done? ==> Ordered(c, p, r.value))
  {
    if CanBuildShip(p, ship) == BuildOk {
      AcceptedShipBilled(p, round, duration, ship);
    }
  }

  /** Whatever a script orders, the planet stays well formed with only its task
      and stock changed, and only a stock above two billion can make it throw. */
  lemma ActionKeepsPlanet(c: Coord, p: Planet, action: PlanetAction, round: nat, duration: nat)
    requires p.owner != NO_PLAYER && PlanetOk(c, p)
    ensures var r := ApplyPlanetAction(p, action, round, duration);
      && (p.stock[METAL] <= STRANGE_LIMIT ==> r.Done?)
      && (r.Done? ==> Ordered(c, p, r.value))
  {
    match action.Kind() {
      case NoOrder =>
      case BuildBuilding =>
        if CanBuildBuilding(p, action.Building()) == BuildOk {
          AcceptedUpgradeBilled(p, round, duration, action.Building());
        }
      case StopBuilding =>
        ShipOrderKeepsPlanet(c, StopTask(p, UpgradeBuilding, action.Building()), round, action.Ship(), duration);
      case BuildShip =>
        ShipOrderKeepsPlanet(c, p, round, action.Ship(), duration);
      case BuildCannon =>
        if CanBuildCannon(p, action.Cannon()) == BuildOk {
          AcceptedCannonBilled(p, round, duration, action.Cannon());
        }
    }
  }

  /** Running a task never throws and keeps the planet well formed.  Once due it
      adds exactly one level, ship or cannon of the type it names: the level stays
      at most 23 and the ship is alone in the hangar. */
  lemma TaskKeepsPlanet(c: Coord, p: Planet, round: nat)
    requires p.owner != NO_PLAYER && PlanetOk(c, p) && p.task.Some?
    ensures ExecPlanetTask(p, round).Done?
    ensures var q := ExecPlanetTask(p, round).value;
      && PlanetOk(c, DropExpired(q))
      && q.owner == p.owner && q.parent == p.parent
      && Sum(q.hangar) <= 1
      && var t := p.task.value;
         if round < t.launch + t.duration then q == p
         else
           && q.task == Some(t.(expired := true))
           && match t.kind
              case UpgradeBuilding => q == p.(task := q.task, buildings := p.buildings[t.value := p.buildings[t.value] + 1])
              case MakeShip => q == p.(task := q.task, hangar := NO_SHIPS[t.value := 1])
              case MakeCannon =>
                q == p.(task := q.task, cannons := p.cannons[t.value := (p.cannons[t.value] as int + 1) % TWO32])
  {
    hide Sum;
    var t := p.task.value;
    if t.launch + t.duration <= round && t.kind == MakeShip {
      NoShipsSum();
      SumUpdate(NO_SHIPS, t.value, 1);
      assert NO_SHIPS[t.value] == 0;
    }
  }

  /** The loop over the buildings of a planet computes `Production`. */
  method RunBuildings(p: Planet) returns (stock: Resources)
    ensures stock == Production(p)
  {
    stock := p.stock;
    for building := 0 to BUILDINGS
      invariant building == 0 ==> stock == p.stock
      invariant building == 1 ==>
        stock == p.stock[METAL := if p.buildings[COMMAND_CENTER] > 0 then CappedAdd(p.stock[METAL], 1) else p.stock[METAL]]
      invariant building >= 2 ==> stock == Production(p)
    {
      var level := p.buildings[building];
      stock := ExecBuilding(stock, building, level);
    }
  }

  /** The final loop of `planetRound` and `fleetRound`. */
  method LimitStock(stock: Resources) returns (r: Resources)
    ensures r == Capped(stock)
  {
    r := stock;
    for i := 0 to RESOURCES
      invariant |r| == RESOURCES
      invariant forall k :: 0 <= k < i ==> r[k] == Capped(stock)[k]
      invariant forall k :: i <= k < RESOURCES ==> r[k] == stock[k]
    {
      r := r[i := Min(r[i], STOCK_LIMIT)];
    }
  }
}
