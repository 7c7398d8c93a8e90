/** Fleets: their tests, orders and tasks in UnivManip.cpp and Rules.cpp, as
    functions on values. */
module Fleets {
  import opened Basics
  import opened Model
  import opened Planets

  datatype FleetActionTest =
    | FleetActionOk
    | FleetTaskRunning
    | TooFarAway
    | OutOfGalaxy
    | NoPlanet
    | PlanetHasOwner
    | QueenMissing
    | PlanetLimitReached
    | NotYourOwnPlanet
    | NothingToDrop
    | FleetLimitReached

  // ------------------------------------------------------------- tests

  function CanMove(f: Fleet, target: Coord): FleetActionTest {
    if f.task.Some? then FleetTaskRunning
    else if !Adjacent(f.position, target) then TooFarAway
    else if !InMap(target) then OutOfGalaxy
    else FleetActionOk
  }

  function CanHarvest(f: Fleet, planets: PlanetMap): FleetActionTest {
    if f.task.Some? then FleetTaskRunning
    else if f.position !in planets then NoPlanet
    else if planets[f.position].owner != NO_PLAYER then PlanetHasOwner
    else FleetActionOk
  }

  function CanColonize(f: Fleet, planets: PlanetMap, caps: Caps): FleetActionTest {
    if f.task.Some? then FleetTaskRunning
    else if f.position !in planets then NoPlanet
    else if planets[f.position].owner != NO_PLAYER then PlanetHasOwner
    else if f.ships[QUEEN] == 0 then QueenMissing
    else if caps.planetCount < caps.maxPlanetCount then FleetActionOk
    else PlanetLimitReached
  }

  function CanDrop(f: Fleet, planets: PlanetMap): FleetActionTest {
    if f.position !in planets then NoPlanet
    else if planets[f.position].owner != f.owner then NotYourOwnPlanet
    else if Sum(f.cargo) % TWO32 == 0 then NothingToDrop
    else FleetActionOk
  }

  function MaxFleetSize(cohesion: SkillLevel): nat {
    Pow(2, cohesion + 4)
  }

  /** `canGather`: both sizes are `int`, their sum is compared as a `size_t`. */
  function CanGather(caps: Caps, a: ShipTab, b: ShipTab): FleetActionTest {
    var size := Wrap32Signed(AccumulateInt(a) + AccumulateInt(b));
    var unsigned := if size < 0 then size + TWO64 else size;
    if unsigned <= MaxFleetSize(caps.cohesion) then FleetActionOk else FleetLimitReached
  }

  lemma {:induction false} PowerOfTwoGrows(m: nat, n: nat)
    requires m <= n
    ensures Pow(2, m) <= Pow(2, n)
  {
    if m < n {
      PowerOfTwoGrows(m, n - 1);
    }
  }

  lemma PowerOfTwo63()
    ensures Pow(2, 63) == 0x8000_0000_0000_0000
  {
    assert Pow(2, 7) == 128;
    PowSum(2, 7, 7);
    PowSum(2, 14, 7);
    PowSum(2, 21, 21);
    PowSum(2, 42, 21);
  }

  lemma CapFits(cohesion: SkillLevel)
    ensures MaxFleetSize(cohesion) <= TWO64 / 2
  {
    PowerOfTwoGrows(cohesion + 4, 63);
    PowerOfTwo63();
  }

  /** For fleets whose own totals fit in an `int`, the test means what it says:
      the true total is within the cap and still fits in an `int`. */
  lemma GatherTestExact(caps: Caps, a: ShipTab, b: ShipTab)
    requires Sum(a) < TWO31 && Sum(b) < TWO31
    ensures CanGather(caps, a, b) == FleetActionOk <==>
            Sum(a) + Sum(b) <= MaxFleetSize(caps.cohesion) && Sum(a) + Sum(b) < TWO31
  {
    AccumulateIntExact(a);
    AccumulateIntExact(b);
    CapFits(caps.cohesion);
  }

  // ------------------------------------------------------------- merge

  /** `gather`: the other fleet's ships and cargo join this one. */
  function Merge(f: Fleet, other: Fleet): (r: Fleet)
    ensures r == f.(cargo := r.cargo, ships := r.ships)
  {
    f.(cargo := AddTab(f.cargo, other.cargo), ships := AddTab(f.ships, other.ships))
  }

  /** The cargo of a merge is the capped sum whatever the order of merging. */
  lemma MergedCargo(a: Fleet, b: Fleet, c: Fleet)
    ensures Merge(Merge(a, b), c).cargo == Merge(a, Merge(b, c)).cargo
    ensures Merge(a, b).cargo == Merge(b, a).cargo
    ensures forall i :: 0 <= i < RESOURCES ==>
      Merge(Merge(a, b), c).cargo[i] == Min(a.cargo[i] as int + b.cargo[i] as int + c.cargo[i] as int, MAX32)
  {
    assert AddTab(AddTab(a.cargo, b.cargo), c.cargo) == AddTab(a.cargo, AddTab(b.cargo, c.cargo));
    assert AddTab(a.cargo, b.cargo) == AddTab(b.cargo, a.cargo);
  }

  // ------------------------------------------------------------ orders

  datatype FleetActionKind = Nothing | Move | Harvest | Colonize | Drop

  datatype FleetAction = FleetAction(kind: FleetActionKind, dx: int, dy: int, dz: int)

  /** The target of a move; each coordinate is an `int8_t` and wraps. */
  function Target(f: Fleet, a: FleetAction): Coord {
    Coord(Wrap8Signed(f.position.x + a.dx), Wrap8Signed(f.position.y + a.dy), Wrap8Signed(f.position.z + a.dz))
  }

  function Order(f: Fleet, kind: FleetTaskKind, round: nat, position: Coord): Fleet {
    f.(task := Some(FleetTask(kind, round, 1, position, false)))
  }

  /** The fleet after `applyFleetScript`. */
  function FleetAfterAction(f: Fleet, planets: PlanetMap, a: FleetAction, caps: Caps, round: nat): Fleet {
    match a.kind
    case Nothing => f
    case Move => if CanMove(f, Target(f, a)) == FleetActionOk then Order(f, MoveTask, round, Target(f, a)) else f
    case Harvest => if CanHarvest(f, planets) == FleetActionOk then Order(f, HarvestTask, round, f.position) else f
    case Colonize => if CanColonize(f, planets, caps) == FleetActionOk then Order(f, ColonizeTask, round, f.position) else f
    case Drop => if CanDrop(f, planets) == FleetActionOk then f.(cargo := NO_RESOURCES) else f
  }

  /** The planets after `applyFleetScript`: only a drop changes one. */
  function PlanetsAfterAction(f: Fleet, planets: PlanetMap, a: FleetAction): PlanetMap {
    if a.kind == Drop && CanDrop(f, planets) == FleetActionOk then
      var p := planets[f.position];
      planets[f.position := p.(stock := AddTab(p.stock, f.cargo))]
    else planets
  }

  // ------------------------------------------------------------- tasks

  const COLONY_STOCK: Resources := [2000, 500, 0]

  /** A free planet once a fleet has settled it. */
  function Colony(p: Planet, f: Fleet): Planet {
    p.(buildings := p.buildings[COMMAND_CENTER := 1],
       stock := AddTab(p.stock, COLONY_STOCK),
       owner := f.owner,
       parent := f.origin)
  }

  predicate Due(t: FleetTask, round: nat) {
    t.launch + t.duration <= round
  }

  predicate Settles(f: Fleet, p: Planet, caps: Caps) {
    && p.owner == NO_PLAYER
    && f.ships[QUEEN] > 0
    && caps.planetCount < caps.maxPlanetCount
  }

  /** `execTask` for a due fleet task: the fleet and the planets afterwards.
      An unknown planet throws. */
  function ExecFleetTask(planets: PlanetMap, f: Fleet, t: FleetTask, caps: Caps): Attempt<(Fleet, PlanetMap)> {
    var c := t.position;
    match t.kind
    case MoveTask => Done((f.(position := c), planets))
    case HarvestTask =>
      if c !in planets then Throws
      else if planets[c].owner == NO_PLAYER then
        Done((f.(cargo := AddTab(f.cargo, planets[c].stock)), planets[c := planets[c].(stock := NO_RESOURCES)]))
      else Done((f, planets))
    case ColonizeTask =>
      if c !in planets then Throws
      else if Settles(f, planets[c], caps) then
        Done((f.(ships := f.ships[QUEEN := f.ships[QUEEN] - 1]), planets[c := Colony(planets[c], f)]))
      else Done((f, planets))
  }

  /** `fleetRound`: run the task when due, forget it, cap the cargo. */
  function FleetRound(planets: PlanetMap, f: Fleet, caps: Caps, round: nat): Attempt<(Fleet, PlanetMap)> {
    if f.task.Some? && Due(f.task.value, round) then
      match ExecFleetTask(planets, f, f.task.value, caps)
      case Throws => Throws
      case Done((f', planets')) => Done((f'.(task := None, cargo := Capped(f'.cargo)), planets'))
    else if f.task.Some? && f.task.value.expired then
      Done((f.(task := None, cargo := Capped(f.cargo)), planets))
    else Done((f.(cargo := Capped(f.cargo)), planets))
  }

  // --------------------------------------------------------- invariant

  /** A pending order was given in an earlier or the current round, takes one
      round, and aims at an adjacent cell of the map or at the planet below. */
  predicate FleetTaskOk(f: Fleet, t: FleetTask, known: set<Coord>, round: nat) {
    && !t.expired
    && t.duration == 1
    && t.launch <= round
    && if t.kind == MoveTask then InMap(t.position) && Adjacent(f.position, t.position)
       else t.position == f.position && t.position in known
  }

  predicate FleetOk(f: Fleet, known: set<Coord>, round: nat) {
    && f.owner != NO_PLAYER
    && InMap(f.position)
    && Sum(f.ships) < TWO31
    && (f.task.Some? ==> FleetTaskOk(f, f.task.value, known, round))
  }

  predicate EmptyFleet(f: Fleet) {
    AccumulateInt(f.ships) == 0
  }

  lemma EmptyFleetIff(f: Fleet)
    requires Sum(f.ships) < TWO31
    ensures EmptyFleet(f) <==> f.ships == NO_SHIPS
  {
    AccumulateIntExact(f.ships);
  }

  /** A fleet order given now stays inside the map and within one cell. */
  lemma ActionKeepsFleet(f: Fleet, planets: PlanetMap, a: FleetAction, caps: Caps, round: nat)
    requires FleetOk(f, planets.Keys, round)
    ensures var f' := FleetAfterAction(f, planets, a, caps, round);
      && FleetOk(f', planets.Keys, round)
      && f'.(task := f.task, cargo := f.cargo) == f
  {
  }

  /** Where the pending order of a fleet takes it. */
  function Destination(f: Fleet): Coord {
    if f.task.Some? && f.task.value.kind == MoveTask then f.task.value.position else f.position
  }

  /** One fleet round one round after the order: it never throws, the order is
      carried out and gone, the fleet is where a move sent it and otherwise where
      it was, at most one cell away per axis, and at most one queen was spent. */
  lemma RoundKeepsFleet(planets: PlanetMap, f: Fleet, caps: Caps, round: nat)
    requires FleetOk(f, planets.Keys, round)
    ensures FleetRound(planets, f, caps, round + 1).Done?
    ensures var (f', planets') := FleetRound(planets, f, caps, round + 1).value;
      && f'.task == None
      && FleetOk(f', planets.Keys, round + 1)
      && f'.position == Destination(f) && Adjacent(f.position, f'.position)
      && f'.id == f.id && f'.owner == f.owner && f'.origin == f.origin
      && Sum(f'.ships) <= Sum(f.ships)
  {
    if f.ships[QUEEN] > 0 {
      SumUpdate(f.ships, QUEEN, f.ships[QUEEN] - 1);
    }
  }

  /** What one fleet round does to the planets: at most one free planet is
      emptied or becomes a colony whose parent is the origin of the fleet. */
  lemma RoundOnPlanets(planets: PlanetMap, f: Fleet, caps: Caps, round: nat)
    requires FleetOk(f, planets.Keys, round)
    ensures var planets' := FleetRound(planets, f, caps, round + 1).value.1;
      || planets' == planets
      || (f.position in planets && planets[f.position].owner == NO_PLAYER &&
          (planets' == planets[f.position := planets[f.position].(stock := NO_RESOURCES)] ||
           planets' == planets[f.position := Colony(planets[f.position], f)]))
  {
  }

  /** A new colony is a well-formed planet. */
  lemma ColonyOk(c: Coord, p: Planet, f: Fleet)
    requires PlanetOk(c, p) && p.owner == NO_PLAYER && f.owner != NO_PLAYER
    ensures PlanetOk(c, Colony(p, f))
  {
    NoShipsSum();
  }
}
