/** The phases of `Simulation::round`, as functions from galaxy to galaxy.  What
    scripts, dice and the database answer comes in as a `RoundInput`. */
module Phases {
  import opened Basics
  import opened Model
  import opened Planets
  import opened Fleets
  import opened Multimap
  import opened Gather
  import opened Forest
  import opened Combat
  import opened Fight
  import opened FightLaws

  datatype RoundInput = RoundInput(
    order: seq<Coord>,                       // the planets, as the hash map lists them
    creations: seq<(PlayerId, Coord)>,       // new players and the free planets drawn for them
    crystals: Coord -> Crystals,
    durations: Coord -> nat,
    planetActions: map<Coord, PlanetAction>,
    gather: GatherInput,
    fleetActions: map<FleetId, FleetAction>,
    escapes: set<FleetId>,
    answers: FightingMap,
    draws: Coord -> Draws)

  function CapsOf(input: RoundInput, p: PlayerId): Caps {
    input.gather.caps(p)
  }

  // ------------------------------------------------------- new players

  function CreateMains(planets: PlanetMap, main: MainMap, creations: seq<(PlayerId, Coord)>, i: nat): (PlanetMap, MainMap)
    requires i <= |creations|
  {
    if i == 0 then (planets, main)
    else
      var (ps, m) := CreateMains(planets, main, creations, i - 1);
      var (pid, c) := creations[i - 1];
      if c in ps then (ps[c := MainPlanet(ps[c], pid)], m[pid := c]) else (ps, m)
  }

  // ------------------------------------------------------- planet tasks

  function NewFleet(g: Galaxy, c: Coord, p: Planet): Fleet {
    Fleet(g.nextFleetId, p.owner, c, c, p.hangar, NO_RESOURCES, None)
  }

  predicate Launches(caps: Caps, p: Planet) {
    caps.fleetCount < caps.maxFleetCount && AccumulateInt(p.hangar) != 0
  }

  /** `std::map::insert`: an existing key keeps its value. */
  function InsertNew(fleets: FleetMap, f: Fleet): FleetMap {
    if f.id in fleets then fleets else fleets[f.id := f]
  }

  function TaskDone(p: Planet, round: nat): Attempt<Planet> {
    if p.task.Some? then ExecPlanetTask(p, round) else Done(p)
  }

  /** `planetRound` on the planet at `c`. */
  function PlanetRound(g: Galaxy, c: Coord, input: RoundInput): Attempt<Galaxy> {
    if !Owned(g.planets, c) then Done(g)
    else match TaskDone(g.planets[c], g.round)
      case Throws => Throws
      case Done(p) =>
        if Launches(CapsOf(input, p.owner), p) then
          Done(g.(fleets := InsertNew(g.fleets, NewFleet(g, c, p)),
                  nextFleetId := g.nextFleetId + 1,
                  planets := g.planets[c := EndOfPlanetRound(p.(hangar := NO_SHIPS), input.crystals(c))]))
        else
          Done(g.(planets := g.planets[c := EndOfPlanetRound(p, input.crystals(c))]))
  }

  function PlanetTasks(g: Galaxy, input: RoundInput, i: nat): Attempt<Galaxy>
    requires i <= |input.order|
  {
    if i == 0 then Done(g)
    else match PlanetTasks(g, input, i - 1)
      case Throws => Throws
      case Done(g') => PlanetRound(g', input.order[i - 1], input)
  }

  // -------------------------------------------------------- fleet tasks

  function FleetStep(g: Galaxy, id: FleetId, input: RoundInput): Attempt<Galaxy> {
    if id !in g.fleets then Done(g)
    else match FleetRound(g.planets, g.fleets[id], CapsOf(input, g.fleets[id].owner), g.round)
      case Throws => Throws
      case Done((f, planets)) => Done(g.(fleets := g.fleets[id := f], planets := planets))
  }

  function FleetTasks(g: Galaxy, input: RoundInput, ids: seq<FleetId>, i: nat): Attempt<Galaxy>
    requires i <= |ids|
  {
    if i == 0 then Done(g)
    else match FleetTasks(g, input, ids, i - 1)
      case Throws => Throws
      case Done(g') => FleetStep(g', ids[i - 1], input)
  }

  // ------------------------------------------------------ planet scripts

  function ScriptStep(g: Galaxy, c: Coord, input: RoundInput): Attempt<Galaxy> {
    if !Owned(g.planets, c) || c !in input.planetActions then Done(g)
    else match ApplyPlanetAction(g.planets[c], input.planetActions[c], g.round, input.durations(c))
      case Throws => Throws
      case Done(p) => Done(g.(planets := g.planets[c := p]))
  }

  function PlanetScripts(g: Galaxy, input: RoundInput, i: nat): Attempt<Galaxy>
    requires i <= |input.order|
  {
    if i == 0 then Done(g)
    else match PlanetScripts(g, input, i - 1)
      case Throws => Throws
      case Done(g') => ScriptStep(g', input.order[i - 1], input)
  }

  // ------------------------------------------------------ fleet scripts

  /** The fleets and planets once the first `i` fleets have acted. */
  function FleetScripts(fs: FleetList, planets: PlanetMap, input: RoundInput, round: nat, i: nat): (r: (FleetList, PlanetMap))
    requires i <= |fs|
    ensures |r.0| == |fs|
  {
    if i == 0 then (fs, planets)
    else
      var (fs', planets') := FleetScripts(fs, planets, input, round, i - 1);
      var f := fs'[i - 1];
      if f.id !in input.fleetActions then (fs', planets')
      else
        var a := input.fleetActions[f.id];
        (fs'[i - 1 := FleetAfterAction(f, planets', a, CapsOf(input, f.owner), round)],
         PlanetsAfterAction(f, planets', a))
  }

  /** The fleet map rebuilt from the fleets that still have ships. */
  function Rebuilt(fs: FleetList): FleetMap {
    if fs == [] then map[]
    else
      var f := fs[|fs| - 1];
      var m := Rebuilt(fs[..|fs| - 1]);
      if EmptyFleet(f) then m else InsertNew(m, f)
  }

  /** `execFleets`: gather, act, keep the fleets with ships. */
  function FleetsPhase(g: Galaxy, input: RoundInput): Galaxy {
    var (gathered, planets) := GatherFrom(input.gather, FleetMultimap(g.fleets), g.planets, 0);
    var (acted, planets') := FleetScripts(gathered, planets, input, g.round, |gathered|);
    g.(fleets := Rebuilt(acted), planets := planets')
  }

  // ------------------------------------------------------------- fights

  datatype Fighter = PlanetFighter(at: Coord) | FleetFighter(at: Coord, id: FleetId)

  function At(f: Fighter): Coord { f.at }

  function PlanetFighters(planets: PlanetMap, order: seq<Coord>): seq<Fighter> {
    if order == [] then []
    else
      var c := order[|order| - 1];
      PlanetFighters(planets, order[..|order| - 1]) + if Owned(planets, c) then [PlanetFighter(c)] else []
  }

  function FleetFighters(fleets: FleetMap, ids: seq<FleetId>): seq<Fighter>
    requires forall i :: 0 <= i < |ids| ==> ids[i] in fleets
  {
    seq(|ids|, i requires 0 <= i < |ids| => FleetFighter(fleets[ids[i]].position, ids[i]))
  }

  /** Everyone who may fight, sorted by place. */
  function Fighters(g: Galaxy, order: seq<Coord>): seq<Fighter> {
    InsertAll(PlanetFighters(g.planets, order) + FleetFighters(g.fleets, SortedKeys(g.fleets.Keys)), At)
  }

  /** The state the fights of a round work on. */
  datatype War = War(planets: PlanetMap, fleets: FleetMap, dead: set<FleetId>, lost: seq<Coord>)

  /** The ids of the fleets of a group that are not in `without`. */
  function FleetIds(group: seq<Fighter>, without: set<FleetId>): (r: seq<FleetId>)
    ensures forall k :: 0 <= k < |r| ==> exists i :: 0 <= i < |group| && group[i].FleetFighter? && group[i].id == r[k]
  {
    if group == [] then []
    else
      var f := group[|group| - 1];
      FleetIds(group[..|group| - 1], without) +
      if f.FleetFighter? && f.id !in without then [f.id] else []
  }

  predicate HasPlanet(group: seq<Fighter>) {
    exists i :: 0 <= i < |group| && group[i].PlanetFighter?
  }

  function FleetsOf(fleets: FleetMap, ids: seq<FleetId>): seq<Fleet>
    requires forall i :: 0 <= i < |ids| ==> ids[i] in fleets
  {
    seq(|ids|, i requires 0 <= i < |ids| => fleets[ids[i]])
  }

  function WriteBack(fleets: FleetMap, ids: seq<FleetId>, fs: seq<Fleet>, i: nat): (r: FleetMap)
    requires i <= |ids| == |fs|
    ensures (forall k :: 0 <= k < i ==> ids[k] in r) && forall id :: id in fleets ==> id in r
    ensures (forall k :: 0 <= k < i ==> ids[k] in fleets) ==> r.Keys == fleets.Keys
  {
    if i == 0 then fleets else WriteBack(fleets, ids, fs, i - 1)[ids[i - 1] := fs[i - 1]]
  }

  /** Every fighter points at a fleet or planet of the universe. */
  ghost predicate Present(w: War, group: seq<Fighter>) {
    forall i :: 0 <= i < |group| ==>
      match group[i]
      case PlanetFighter(c) => c in w.planets
      case FleetFighter(_, id) => id in w.fleets
  }

  ghost function DeadAmong(ids: seq<FleetId>, fs: seq<Fleet>): set<FleetId>
    requires |ids| == |fs|
  {
    set i | 0 <= i < |ids| && DeadFleet(fs[i]) :: ids[i]
  }

  /** At least two players have an army here. */
  ghost predicate Contested(fleets: seq<Fleet>, planet: Option<Planet>) {
    exists p, q :: p in Owners(fleets, planet) && q in Owners(fleets, planet) && p != q
  }

  /** Who wants a fight gets it: the symmetric closure of the answers. */
  ghost function Hostilities(answers: FightingMap): FightingSet {
    var named := (set pair | pair in answers.Keys :: pair.0) + (set pair | pair in answers.Keys :: pair.1);
    map p | p in named && exists q :: q in named && (Wants(answers, p, q) || Wants(answers, q, p)) ::
      set q | q in named && (Wants(answers, p, q) || Wants(answers, q, p))
  }

  ghost function PlanetHere(w: War, c: Coord, group: seq<Fighter>): Option<Planet> {
    if HasPlanet(group) && c in w.planets then Some(w.planets[c]) else None
  }

  /** The fight of one place and its consequences: the armies are written back,
      and if anybody fought, the dead fleets and a dead planet are recorded. */
  ghost function AfterFight(w: War, c: Coord, ids: seq<FleetId>, fs: seq<Fleet>, planet: Option<Planet>, h: FightingSet): War
    requires |ids| == |fs|
  {
    var fleets := WriteBack(w.fleets, ids, fs, |ids|);
    var planets := if planet.Some? then w.planets[c := planet.value] else w.planets;
    if !AnyFight(h, fs, planet) then War(planets, fleets, w.dead, w.lost)
    else
      War(planets, fleets, w.dead + DeadAmong(ids, fs),
          if planet.Some? && DeadPlanet(planet.value, fs) then w.lost + [c] else w.lost)
  }

  /** One place of `execFights`: some escape, and the others fight if they still
      belong to two players. */
  ghost function FightPlace(w: War, c: Coord, group: seq<Fighter>, input: RoundInput): (r: Attempt<War>)
    requires Present(w, group)
  {
    var planet := PlanetHere(w, c, group);
    var ids := FleetIds(group, input.escapes);
    var fleets := FleetsOf(w.fleets, ids);
    if !Contested(FleetsOf(w.fleets, FleetIds(group, {})), planet) || !Contested(fleets, planet) then Done(w)
    else
      var h := Hostilities(input.answers);
      match FightResult(fleets, planet, h, input.draws(c))
      case Throws => Throws
      case Done((fs, planet')) => Done(AfterFight(w, c, ids, fs, planet', h))
  }

  lemma FightPlaceKeepsKeys(w: War, c: Coord, group: seq<Fighter>, input: RoundInput)
    requires Present(w, group) && FightPlace(w, c, group, input).Done?
    ensures var w' := FightPlace(w, c, group, input).value;
      w'.planets.Keys == w.planets.Keys && w'.fleets.Keys == w.fleets.Keys
  {
    var ids := FleetIds(group, input.escapes);
    assert forall k :: 0 <= k < |ids| ==> ids[k] in w.fleets;
  }

  /** The loop over the places. */
  ghost function FightPlaces(w: War, fighters: seq<Fighter>, input: RoundInput, i: nat): Attempt<War>
    requires i <= |fighters| && Present(w, fighters)
    decreases |fighters| - i
  {
    if i == |fighters| then Done(w)
    else
      var c := fighters[i].at;
      var j := NextNotFrom(fighters, At, c, i + 1);
      match FightPlace(w, c, fighters[i..j], input)
      case Throws => Throws
      case Done(w') =>
        FightPlaceKeepsKeys(w, c, fighters[i..j], input);
        FightPlaces(w', fighters, input, j)
  }

  lemma {:induction false} PlanetFightersAre(planets: PlanetMap, order: seq<Coord>)
    ensures forall f :: f in PlanetFighters(planets, order) <==> f.PlanetFighter? && Owned(planets, f.at) && f.at in order
  {
    if order != [] {
      PlanetFightersAre(planets, order[..|order| - 1]);
      assert order == order[..|order| - 1] + [order[|order| - 1]];
    }
  }

  lemma FleetFightersAre(fleets: FleetMap)
    ensures forall f :: f in FleetFighters(fleets, SortedKeys(fleets.Keys)) <==>
      f.FleetFighter? && f.id in fleets && fleets[f.id].position == f.at
  {
    var ids := SortedKeys(fleets.Keys);
    var fs := FleetFighters(fleets, ids);
    forall id | id in fleets
      ensures FleetFighter(fleets[id].position, id) in fs
    {
      var i :| 0 <= i < |ids| && ids[i] == id;
      assert fs[i] == FleetFighter(fleets[id].position, id);
    }
  }

  /** The fighters are the owned planets and all fleets, each at its place,
      sorted by place. */
  lemma FightersAre(g: Galaxy, order: seq<Coord>)
    ensures SortedByKey(Fighters(g, order), At)
    ensures forall f :: f in Fighters(g, order) <==>
      match f
      case PlanetFighter(c) => Owned(g.planets, c) && c in order
      case FleetFighter(c, id) => id in g.fleets && g.fleets[id].position == c
  {
    var ids := SortedKeys(g.fleets.Keys);
    var ps, fs := PlanetFighters(g.planets, order), FleetFighters(g.fleets, ids);
    InsertAllSorted(ps + fs, At);
    PlanetFightersAre(g.planets, order);
    FleetFightersAre(g.fleets);
    assert forall f :: f in ps + fs <==> f in ps || f in fs;
  }

  lemma FightersPresent(g: Galaxy, order: seq<Coord>)
    ensures Present(War(g.planets, g.fleets, {}, []), Fighters(g, order))
  {
    FightersAre(g, order);
    var s := Fighters(g, order);
    assert forall i :: 0 <= i < |s| ==> s[i] in s;
  }

  /** `execFights`: fights in every place, then the losses and the orphans. */
  ghost function FightsPhase(g: Galaxy, main: MainMap, input: RoundInput): Attempt<Galaxy> {
    FightersPresent(g, input.order);
    if g.fleets == map[] then Done(g)
    else match FightPlaces(War(g.planets, g.fleets, {}, []), Fighters(g, input.order), input, 0)
      case Throws => Throws
      case Done(w) =>
        Done(g.(planets := PlanetsAfterLosses(w.planets, main, w.lost),
                fleets := FleetsAfterLosses(w.planets, w.fleets, main, w.lost) - w.dead))
  }

  // -------------------------------------------------------------- round

  /** The phases of a round on the working copy of the universe. */
  ghost function RoundPhases(g: Galaxy, main: MainMap, input: RoundInput): Attempt<Galaxy> {
    match PlanetTasks(g, input, |input.order|)
    case Throws => Throws
    case Done(g1) =>
      var ids := SortedKeys(g1.fleets.Keys);
      match FleetTasks(g1, input, ids, |ids|)
      case Throws => Throws
      case Done(g2) =>
        match PlanetScripts(g2, input, |input.order|)
        case Throws => Throws
        case Done(g3) => FightsPhase(FleetsPhase(g3, input), main, input)
  }

  /** The universe and the main planets the database knows. */
  datatype World = World(galaxy: Galaxy, main: MainMap)

  /** `Simulation::round`: the phases run on a copy that replaces the universe
      at the end; a round that throws only counts, and leaves the database with
      the new main planets. */
  ghost function Round(w: World, input: RoundInput): World {
    var g := w.galaxy.(round := w.galaxy.round + 1);
    var (planets, main) := CreateMains(g.planets, w.main, input.creations, |input.creations|);
    match RoundPhases(g.(planets := planets), main, input)
    case Throws => World(g, main)
    case Done(g') => World(g', main)
  }

  ghost predicate Completes(w: World, input: RoundInput) {
    var g := w.galaxy.(round := w.galaxy.round + 1);
    var (planets, main) := CreateMains(g.planets, w.main, input.creations, |input.creations|);
    RoundPhases(g.(planets := planets), main, input).Done?
  }
}
