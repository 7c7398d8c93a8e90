/** The entities of Model.h and the constant tables of Model.cpp. */
module Model {
  import opened Basics

  // ------------------------------------------------------- coordinates

  datatype Coord = Coord(x: int, y: int, z: int)

  const MAP_SIZE := 100

  predicate InMap(c: Coord) {
    && 0 <= c.x < MAP_SIZE
    && 0 <= c.y < MAP_SIZE
    && 0 <= c.z < MAP_SIZE
  }

  /** At most one cell apart on each axis. */
  predicate Adjacent(a: Coord, b: Coord) {
    && -1 <= a.x - b.x <= 1
    && -1 <= a.y - b.y <= 1
    && -1 <= a.z - b.z <= 1
  }

  /** `CompCoord`, the order of every coordinate-keyed multimap. */
  predicate Before(a: Coord, b: Coord) {
    if a.x < b.x then true
    else if a.x > b.x then false
    else if a.y < b.y then true
    else if a.y > b.y then false
    else a.z < b.z
  }

  // ------------------------------------------------------------ tables

  type PlayerId = nat
  const NO_PLAYER: PlayerId := 0

  type FleetId = nat

  const RESOURCES := 3
  const METAL := 0
  const BUILDINGS := 9
  const COMMAND_CENTER := 0
  const METAL_MINE := 1
  const FACTORY := 4
  const SHIPS := 9
  const QUEEN := 6
  const CANNONS := 6

  type Resources = s: seq<uint32> | |s| == RESOURCES witness [0, 0, 0]
  type ShipTab = s: seq<uint32> | |s| == SHIPS witness [0, 0, 0, 0, 0, 0, 0, 0, 0]
  type CannonTab = s: seq<uint32> | |s| == CANNONS witness [0, 0, 0, 0, 0, 0]
  type BuildingTab = s: seq<uint16> | |s| == BUILDINGS witness [0, 0, 0, 0, 0, 0, 0, 0, 0]

  const NO_SHIPS: ShipTab := [0, 0, 0, 0, 0, 0, 0, 0, 0]
  const NO_CANNONS: CannonTab := [0, 0, 0, 0, 0, 0]
  const NO_BUILDINGS: BuildingTab := [0, 0, 0, 0, 0, 0, 0, 0, 0]
  const NO_RESOURCES: Resources := [0, 0, 0]

  /** Price in metal (the other two prices are zero in every table), life,
      power and shield of a ship or cannon type. */
  datatype UnitStats = UnitStats(metal: uint32, life: uint16, power: uint16, shield: uint16)

  const SHIP_LIST: seq<UnitStats> := [
    UnitStats(100, 1, 1, 1),
    UnitStats(400, 2, 2, 2),
    UnitStats(2000, 4, 4, 4),
    UnitStats(10000, 8, 8, 8),
    UnitStats(40000, 16, 16, 16),
    UnitStats(200000, 32, 32, 32),
    UnitStats(2000, 4, 2, 2),
    UnitStats(400, 2, 0, 2),
    UnitStats(2000, 8, 0, 4)
  ]

  const CANNON_LIST: seq<UnitStats> := [
    UnitStats(100, 1, 1, 1),
    UnitStats(400, 2, 2, 2),
    UnitStats(2000, 4, 4, 4),
    UnitStats(10000, 8, 8, 8),
    UnitStats(40000, 16, 16, 16),
    UnitStats(200000, 32, 32, 32)
  ]

  function MetalOnly(metal: uint32): Resources {
    [metal, 0, 0]
  }

  // ---------------------------------------------------------- entities

  datatype PlanetTaskKind = UpgradeBuilding | MakeShip | MakeCannon

  datatype PlanetTask = PlanetTask(
    kind: PlanetTaskKind,
    value: nat,
    number: uint32,
    launch: nat,
    duration: nat,
    startCost: Resources,
    expired: bool)

  datatype FleetTaskKind = MoveTask | HarvestTask | ColonizeTask

  datatype FleetTask = FleetTask(
    kind: FleetTaskKind,
    launch: nat,
    duration: nat,
    position: Coord,
    expired: bool)

  /** A planet; its own coordinate is its key in the planet map. */
  datatype Planet = Planet(
    owner: PlayerId,
    buildings: BuildingTab,
    task: Option<PlanetTask>,
    stock: Resources,
    cannons: CannonTab,
    parent: Coord,
    hangar: ShipTab)

  datatype Fleet = Fleet(
    id: FleetId,
    owner: PlayerId,
    position: Coord,
    origin: Coord,
    ships: ShipTab,
    cargo: Resources,
    task: Option<FleetTask>)

  type PlanetMap = map<Coord, Planet>
  type FleetMap = map<FleetId, Fleet>

  /** The value of a `Universe`. */
  datatype Galaxy = Galaxy(planets: PlanetMap, fleets: FleetMap, nextFleetId: FleetId, round: nat)

  /** A skill level whose cap, a power of two, still fits in 64 bits. */
  type SkillLevel = k: nat | k < 60

  /** The caps of one player, read from the database at the start of a round;
      the two counts are frozen there and may be stale later in the round. */
  datatype Caps = Caps(
    fleetCount: nat, maxFleetCount: nat,
    planetCount: nat, maxPlanetCount: nat,
    cohesion: SkillLevel)
}
