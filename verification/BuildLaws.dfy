/** The planet tasks of a round in closed form: what every order of a planet comes
    to and which hangars launch, told from the universe before the phase. */
module BuildLaws {
  import opened Basics
  import opened Model
  import opened Planets
  import opened Fleets
  import opened Forest
  import opened Phases
  import opened PhaseLaws

  predicate TaskDue(p: Planet, round: nat) {
    p.task.Some? && p.task.value.launch + p.task.value.duration <= round
  }

  /** The planet has a due order for one more of this kind and index. */
  predicate Finishes(p: Planet, round: nat, kind: PlanetTaskKind, i: nat) {
    TaskDue(p, round) && p.task.value.kind == kind && p.task.value.value == i
  }

  function OneIf(b: bool): nat {
    if b then 1 else 0
  }

  /** What waits in the hangar when the player's fleets are counted: the ship
      just built, alone, or what was there. */
  function InHangar(p: Planet, round: nat): ShipTab {
    if TaskDue(p, round) && p.task.value.kind == MakeShip && p.task.value.value < SHIPS
    then NO_SHIPS[p.task.value.value := 1] else p.hangar
  }

  /** The hangar leaves as a fleet: it holds something and the player may have
      one more fleet. */
  predicate Leaves(caps: Caps, p: Planet, round: nat) {
    caps.fleetCount < caps.maxFleetCount && InHangar(p, round) != NO_SHIPS
  }

  /** An owned planet after the task phase, told from the planet before it: one
      more of what a due order was for, its order gone, the stock with what the
      buildings now standing make, the hangar empty if it left. */
  ghost predicate Built(p: Planet, q: Planet, round: nat, caps: Caps, crystals: Crystals) {
    && q.owner == p.owner && q.parent == p.parent
    && (forall b :: 0 <= b < BUILDINGS ==>
         q.buildings[b] as int == p.buildings[b] as int + OneIf(Finishes(p, round, UpgradeBuilding, b)))
    && (forall k :: 0 <= k < CANNONS ==>
         q.cannons[k] as int == p.cannons[k] as int + OneIf(Finishes(p, round, MakeCannon, k)))
    && q.hangar == (if Leaves(caps, p, round) then NO_SHIPS else InHangar(p, round))
    && q.task == (if TaskDue(p, round) then None else p.task)
    && Grown(p.stock, q.stock, q.buildings, crystals)
  }

  /** One metal from a command centre, level * floor(1.1^level) * 4 from a mine,
      and the crystals found, up to one billion of each resource. */
  ghost predicate Grown(before: Resources, after: Resources, buildings: BuildingTab, crystals: Crystals) {
    var level := buildings[METAL_MINE];
    && Pow(10, level) > 0
    && after[METAL] == Min(before[METAL] as int + OneIf(buildings[COMMAND_CENTER] > 0) +
                           level as int * (Pow(11, level) / Pow(10, level)) * 4 + crystals[METAL] as int, 1_000_000_000)
    && forall i :: 0 < i < RESOURCES ==> after[i] == Min(before[i] as int + crystals[i] as int, 1_000_000_000)
  }

  // ---------------------------------------------------------- one planet

  lemma FitsOneMore(tab: seq<uint32>, i: nat)
    requires i < |tab| && Sum(tab) < MAX32
    ensures tab[i] < MAX32
  {
    SumNonNegative(tab);
  }

  /** The task of one planet. */
  lemma TaskEffect(c: Coord, p: Planet, round: nat)
    requires p.owner != NO_PLAYER && PlanetOk(c, p) && Sum(p.cannons) < MAX32
    ensures TaskDone(p, round).Done?
    ensures var q := TaskDone(p, round).value;
      && q.owner == p.owner && q.parent == p.parent && q.stock == p.stock
      && (forall b :: 0 <= b < BUILDINGS ==>
           q.buildings[b] as int == p.buildings[b] as int + OneIf(Finishes(p, round, UpgradeBuilding, b)))
      && (forall k :: 0 <= k < CANNONS ==>
           q.cannons[k] as int == p.cannons[k] as int + OneIf(Finishes(p, round, MakeCannon, k)))
      && q.hangar == InHangar(p, round) && Sum(q.hangar) <= 1
      && DropExpired(q).task == if TaskDue(p, round) then None else p.task
  {
    hide Sum;
    if TaskDue(p, round) {
      var t := p.task.value;
      if t.kind == MakeCannon {
        FitsOneMore(p.cannons, t.value);
      } else if t.kind == MakeShip {
        OneShipSum(t.value);
        assert NO_SHIPS[t.value] == 0;
      }
    }
  }

  lemma OneShipSum(ship: nat)
    requires ship < SHIPS
    ensures Sum(NO_SHIPS[ship := 1]) == 1
  {
    NoShipsSum();
    SumUpdate(NO_SHIPS, ship, 1);
  }

  lemma EndGrows(q: Planet, crystals: Crystals)
    ensures var e := EndOfPlanetRound(q, crystals);
      && e == DropExpired(q).(stock := e.stock) && Grown(q.stock, e.stock, q.buildings, crystals)
  {
    hide Capped, AddTab, Production;
    RoundStockExact(q, crystals);
    PowPositive(10, q.buildings[METAL_MINE]);
  }

  /** The fleet that leaves the hangar of the planet at `c`. */
  function Departed(id: FleetId, c: Coord, p: Planet, round: nat): Fleet {
    Fleet(id, p.owner, c, c, InHangar(p, round), NO_RESOURCES, None)
  }

  /** One planet round, told from the planet before it. */
  lemma OnePlanetOutcome(g: Galaxy, c: Coord, input: RoundInput)
    requires Owned(g.planets, c) && PlanetOk(c, g.planets[c]) && Sum(g.planets[c].cannons) < MAX32
    requires g.nextFleetId !in g.fleets
    ensures PlanetRound(g, c, input).Done?
    ensures var p, g' := g.planets[c], PlanetRound(g, c, input).value;
      var caps := CapsOf(input, p.owner);
      && c in g'.planets && g'.planets == g.planets[c := g'.planets[c]]
      && Built(p, g'.planets[c], g.round, caps, input.crystals(c))
      && g'.round == g.round
      && if Leaves(caps, p, g.round) then
           && g'.nextFleetId == g.nextFleetId + 1
           && g'.fleets == g.fleets[g.nextFleetId := Departed(g.nextFleetId, c, p, g.round)]
         else g'.nextFleetId == g.nextFleetId && g'.fleets == g.fleets
  {
    hide TaskDone, PlanetOk, EndOfPlanetRound, Grown, InHangar, Sum, TaskDue, Finishes;
    var p := g.planets[c];
    TaskEffect(c, p, g.round);
    var q := TaskDone(p, g.round).value;
    EmptyHangar(q.hangar);
    EndGrows(q, input.crystals(c));
    EndGrows(q.(hangar := NO_SHIPS), input.crystals(c));
  }

  // --------------------------------------------------------- all planets

  /** The places among the first `i` whose hangars leave, in their order. */
  function Launchers(g: Galaxy, input: RoundInput, i: nat): seq<Coord>
    requires i <= |input.order|
  {
    if i == 0 then []
    else
      var c := input.order[i - 1];
      Launchers(g, input, i - 1) +
      if Owned(g.planets, c) && Leaves(CapsOf(input, g.planets[c].owner), g.planets[c], g.round) then [c] else []
  }

  /** The first `i` planets have played, the others not yet. */
  ghost predicate PlanetsBuilt(g0: Galaxy, planets: PlanetMap, input: RoundInput, i: nat)
    requires i <= |input.order|
  {
    && planets.Keys == g0.planets.Keys
    && (forall k :: 0 <= k < i && Owned(g0.planets, input.order[k]) ==>
         Built(g0.planets[input.order[k]], planets[input.order[k]], g0.round,
               CapsOf(input, g0.planets[input.order[k]].owner), input.crystals(input.order[k])))
    && (forall k :: i <= k < |input.order| && input.order[k] in g0.planets ==>
         planets[input.order[k]] == g0.planets[input.order[k]])
    && (forall c :: c in g0.planets && !Owned(g0.planets, c) ==> planets[c] == g0.planets[c])
  }

  /** The fleets there were, and one for each hangar that left, numbered in the
      order of the places. */
  ghost predicate FleetsAdded(g0: Galaxy, g: Galaxy, left: seq<Coord>) {
    && g.nextFleetId == g0.nextFleetId + |left|
    && (forall id :: id in g.fleets <==> id in g0.fleets || g0.nextFleetId <= id < g.nextFleetId)
    && (forall id :: id in g0.fleets ==> g.fleets[id] == g0.fleets[id])
    && (forall k :: 0 <= k < |left| ==>
         && left[k] in g0.planets && g0.nextFleetId + k in g.fleets
         && g.fleets[g0.nextFleetId + k] == Departed(g0.nextFleetId + k, left[k], g0.planets[left[k]], g0.round))
  }

  ghost predicate TasksBuilt(g0: Galaxy, g: Galaxy, input: RoundInput, i: nat)
    requires i <= |input.order|
  {
    && g.round == g0.round
    && PlanetsBuilt(g0, g.planets, input, i)
    && FleetsAdded(g0, g, Launchers(g0, input, i))
  }

  /** What the phase finds: planets in order, each listed once. */
  ghost predicate ReadyToBuild(g: Galaxy, input: RoundInput) {
    && Enumerates(input.order, g.planets.Keys)
    && PlanetsOk(g.planets) && CannonsWithin(g.planets, MAX32 - 1)
    && forall id :: id in g.fleets ==> id < g.nextFleetId
  }

  lemma PlanetsBuiltStep(g0: Galaxy, planets: PlanetMap, q: Planet, input: RoundInput, i: nat)
    requires i < |input.order| && PlanetsBuilt(g0, planets, input, i) && Enumerates(input.order, g0.planets.Keys)
    requires var c := input.order[i];
      Owned(g0.planets, c) && Built(g0.planets[c], q, g0.round, CapsOf(input, g0.planets[c].owner), input.crystals(c))
    ensures PlanetsBuilt(g0, planets[input.order[i] := q], input, i + 1)
  {
    hide Built;
  }

  lemma FleetsAddedStep(g0: Galaxy, g: Galaxy, g': Galaxy, left: seq<Coord>, c: Coord)
    requires FleetsAdded(g0, g, left) && c in g0.planets
    requires forall id :: id in g0.fleets ==> id < g0.nextFleetId
    requires g'.nextFleetId == g.nextFleetId + 1
    requires g'.fleets == g.fleets[g.nextFleetId := Departed(g.nextFleetId, c, g0.planets[c], g0.round)]
    ensures FleetsAdded(g0, g', left + [c])
  {
    hide Departed;
  }

  /** What the step finds at its place is the planet as it was. */
  lemma NextUntouched(g0: Galaxy, planets: PlanetMap, input: RoundInput, i: nat)
    requires i < |input.order| && PlanetsBuilt(g0, planets, input, i) && ReadyToBuild(g0, input)
    ensures var c := input.order[i];
      && c in g0.planets && c in planets && planets[c] == g0.planets[c] && PlanetOk(c, planets[c])
      && Sum(planets[c].cannons) < MAX32
      && (!Owned(g0.planets, c) ==> PlanetsBuilt(g0, planets, input, i + 1))
  {
    hide Built, PlanetOk;
  }

  lemma NextIdIsNew(g0: Galaxy, g: Galaxy, left: seq<Coord>)
    requires FleetsAdded(g0, g, left) && forall id :: id in g0.fleets ==> id < g0.nextFleetId
    ensures g.nextFleetId !in g.fleets
  {
    hide Departed;
  }

  lemma BuildStep(g0: Galaxy, g: Galaxy, input: RoundInput, i: nat)
    requires i < |input.order| && ReadyToBuild(g0, input) && TasksBuilt(g0, g, input, i)
    ensures PlanetRound(g, input.order[i], input).Done?
    ensures TasksBuilt(g0, PlanetRound(g, input.order[i], input).value, input, i + 1)
  {
    hide Built, Leaves, Departed, PlanetOk, Sum, PlanetsBuilt, FleetsAdded, PlanetsOk, CannonsWithin;
    var c := input.order[i];
    NextUntouched(g0, g.planets, input, i);
    if Owned(g.planets, c) {
      NextIdIsNew(g0, g, Launchers(g0, input, i));
      OwnedBuildStep(g0, g, input, i);
    } else {
      assert Launchers(g0, input, i) + [] == Launchers(g0, input, i);
    }
  }

  lemma OwnedBuildStep(g0: Galaxy, g: Galaxy, input: RoundInput, i: nat)
    requires i < |input.order| && ReadyToBuild(g0, input) && TasksBuilt(g0, g, input, i)
    requires var c := input.order[i];
      && Owned(g0.planets, c) && c in g.planets && g.planets[c] == g0.planets[c] && PlanetOk(c, g.planets[c])
      && Sum(g.planets[c].cannons) < MAX32
    requires g.nextFleetId !in g.fleets
    ensures PlanetRound(g, input.order[i], input).Done?
    ensures TasksBuilt(g0, PlanetRound(g, input.order[i], input).value, input, i + 1)
  {
    hide Built, Leaves, Departed, PlanetOk, Sum, PlanetsBuilt, FleetsAdded, PlanetsOk, CannonsWithin, PlanetRound, Enumerates;
    var c := input.order[i];
    OnePlanetOutcome(g, c, input);
    var g' := PlanetRound(g, c, input).value;
    PlanetsBuiltStep(g0, g.planets, g'.planets[c], input, i);
    var left := Launchers(g0, input, i);
    if Leaves(CapsOf(input, g.planets[c].owner), g.planets[c], g.round) {
      FleetsAddedStep(g0, g, g', left, c);
    } else {
      SameFleetsAdded(g0, g, g', left);
      assert left + [] == left;
    }
  }

  lemma SameFleetsAdded(g0: Galaxy, g: Galaxy, g': Galaxy, left: seq<Coord>)
    requires FleetsAdded(g0, g, left) && g'.fleets == g.fleets && g'.nextFleetId == g.nextFleetId
    ensures FleetsAdded(g0, g', left)
  {
    hide Departed;
  }

  /** The planet tasks of a round, whole: each owned planet ends as `Built` says
      of it, the free ones and the fleets there were are untouched, and one fleet
      is there for each hangar that left. */
  lemma {:induction false} PlanetTasksOutcome(g: Galaxy, input: RoundInput, i: nat)
    requires i <= |input.order| && ReadyToBuild(g, input)
    ensures PlanetTasks(g, input, i).Done? && TasksBuilt(g, PlanetTasks(g, input, i).value, input, i)
  {
    hide PlanetRound, Built, TasksBuilt, ReadyToBuild;
    if i == 0 {
      NothingBuilt(g, input);
    } else {
      PlanetTasksOutcome(g, input, i - 1);
      BuildStep(g, PlanetTasks(g, input, i - 1).value, input, i - 1);
    }
  }

  lemma NothingBuilt(g: Galaxy, input: RoundInput)
    ensures TasksBuilt(g, g, input, 0)
  {
  }

  // -------------------------------------------------------------- cannons

  /** The task of a planet with an accepted cannon. */
  lemma CannonTask(p: Planet, cannon: int, round: nat, duration: nat, later: nat)
    requires CanBuildCannon(p, cannon) == BuildOk
    requires AddCannonTask(p, round, cannon, 1, duration).Done?
    ensures 0 <= cannon < CANNONS && p.task == None
    ensures var ordered := AddCannonTask(p, round, cannon, 1, duration).value;
      && ordered.task.Some? && ordered == p.(task := ordered.task, stock := ordered.stock)
      && TaskDone(ordered, later).Done?
      && DropExpired(TaskDone(ordered, later).value) ==
         if later < round + duration then ordered
         else p.(stock := ordered.stock, cannons := p.cannons[cannon := (p.cannons[cannon] as int + 1) % TWO32])
  {
    hide AccumulateInt;
    AcceptedCannonBilled(p, round, duration, cannon);
  }

  /** An accepted cannon waits until it is due, and from that round on adds one
      to its own cell; nothing else of the planet changes but the stock and a
      hangar that leaves. */
  lemma CannonCarriedOut(g: Galaxy, c: Coord, p: Planet, cannon: int, round: nat, duration: nat, input: RoundInput)
    requires p.owner != NO_PLAYER && CanBuildCannon(p, cannon) == BuildOk
    requires AddCannonTask(p, round, cannon, 1, duration).Done?
    requires c in g.planets && g.planets[c] == AddCannonTask(p, round, cannon, 1, duration).value
    ensures var r := PlanetRound(g, c, input);
      var caps := CapsOf(input, p.owner);
      && r.Done? && c in r.value.planets
      && var q := r.value.planets[c];
         && r.value.planets == g.planets[c := q]
         && (if g.round < round + duration then
               q.cannons == p.cannons && q.task == g.planets[c].task && q.task.Some?
             else
               && q.task == None
               && q.cannons[cannon] as int == (p.cannons[cannon] as int + 1) % TWO32
               && forall k :: 0 <= k < CANNONS && k != cannon ==> q.cannons[k] == p.cannons[k])
         && q.buildings == p.buildings && q.owner == p.owner && q.parent == p.parent
         && (Sum(p.hangar) < TWO31 ==>
              q.hangar == if caps.fleetCount < caps.maxFleetCount then NO_SHIPS else p.hangar)
  {
    hide Sum, AccumulateInt, TaskDone, AddCannonTask, CanBuildCannon, EndOfPlanetRound, Grown;
    CannonTask(p, cannon, round, duration, g.round);
    if Sum(p.hangar) < TWO31 {
      EmptyHangar(p.hangar);
    }
    var q := TaskDone(g.planets[c], g.round).value;
    EndGrows(q, input.crystals(c));
    EndGrows(q.(hangar := NO_SHIPS), input.crystals(c));
  }
}
