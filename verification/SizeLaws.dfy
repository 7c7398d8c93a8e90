/** How large fleets get along a run, and what that means for the price
    differences of the experience rule. */
module SizeLaws {
  import opened Basics
  import opened Model
  import opened Planets
  import opened Fleets
  import opened Multimap
  import opened Gather
  import opened GatherLaws
  import opened Forest
  import opened Combat
  import opened Fight
  import opened FightLaws
  import opened Phases
  import opened PhaseLaws
  import opened WarLaws
  import opened BattleLaws
  import opened TaskLaws
  import opened RunLaws
  import opened LossLaws

  ghost predicate SizesWithin(fleets: FleetMap, n: nat) {
    forall id :: id in fleets ==> Sum(fleets[id].ships) <= n
  }

  /** No player's size cap is above `n` in this round. */
  ghost predicate CapsWithin(input: RoundInput, n: nat) {
    forall p :: MaxFleetSize(CapsOf(input, p).cohesion) <= n
  }

  // ------------------------------------------------------ phase by phase

  lemma OutcomeSize(g: Galaxy, f: Fleet, v: Visitors)
    ensures Sum(FleetOutcome(g, f, v).ships) <= Sum(f.ships)
  {
    if f.ships[QUEEN] > 0 {
      SumUpdate(f.ships, QUEEN, f.ships[QUEEN] - 1);
    }
  }

  lemma TaskSizes(g: Galaxy, g': Galaxy, input: RoundInput, n: nat)
    requires TasksDone(g, g', input, SortedKeys(g.fleets.Keys), |SortedKeys(g.fleets.Keys)|)
    requires SizesWithin(g.fleets, n)
    ensures SizesWithin(g'.fleets, n)
  {
    hide FleetOutcome, VisitorsOf, Sum, PlanetsSettled;
    var ids := SortedKeys(g.fleets.Keys);
    forall id | id in g'.fleets
      ensures Sum(g'.fleets[id].ships) <= n
    {
      var k :| 0 <= k < |ids| && ids[k] == id;
      OutcomeSize(g, g.fleets[id], VisitorsOf(g, input, ids, |ids|, Aim(g.fleets[id])));
    }
  }

  lemma GatherSizes(g: Galaxy, input: RoundInput, n: nat)
    requires PlanetsOk(g.planets) && FleetsOk(g.fleets, g.planets, g.nextFleetId, g.round)
    requires Enumerates(input.order, g.planets.Keys)
    requires SizesWithin(g.fleets, n) && CapsWithin(input, n)
    ensures var fs := GatherFrom(input.gather, FleetMultimap(g.fleets), g.planets, 0).0;
      forall k :: 0 <= k < |fs| ==> Sum(fs[k].ships) <= n
  {
    hide GoodFleet, PlanetOk, FleetMultimap, GatherFrom, Sum, MaxFleetSize;
    var fs := FleetMultimap(g.fleets);
    FleetIdsMatch(g);
    FleetMultimapSorted(g.fleets);
    HangarsCountable(g.planets);
    CountableFleets(g, fs);
    PassConservesShips(input.gather, fs, g.planets, input.order, NO_PLAYER, 0);
    var gathered := GatherFrom(input.gather, fs, g.planets, 0).0;
    forall k | 0 <= k < |gathered|
      ensures Sum(gathered[k].ships) <= n
    {
      assert WithinCap(input.gather, fs, gathered[k]);
      assert MaxFleetSize(CapsOf(input, gathered[k].owner).cohesion) <= n;
      if j :| 0 <= j < |fs| && gathered[k].ships == fs[j].ships {
        assert fs[j] in fs;
      }
    }
  }

  lemma FleetsPhaseSizes(g: Galaxy, input: RoundInput, n: nat)
    requires PlanetsOk(g.planets) && FleetsOk(g.fleets, g.planets, g.nextFleetId, g.round)
    requires NoFleetTask(g.fleets) && Enumerates(input.order, g.planets.Keys)
    requires SizesWithin(g.fleets, n) && CapsWithin(input, n)
    ensures SizesWithin(FleetsPhase(g, input).fleets, n)
  {
    hide GoodFleet, PlanetOk, FleetsOk, FleetMultimap, GatherFrom, FleetScripts, Rebuilt, Sum, EmptyFleet;
    GatherPhaseKeeps(g, input);
    GatherSizes(g, input, n);
    var (gathered, planets) := GatherFrom(input.gather, FleetMultimap(g.fleets), g.planets, 0);
    FleetScriptsKeep(gathered, g.planets, planets, input, g.round, |gathered|);
    var acted := FleetScripts(gathered, planets, input, g.round, |gathered|).0;
    RebuiltIs(acted);
    forall id | id in Rebuilt(acted)
      ensures Sum(Rebuilt(acted)[id].ships) <= n
    {
      var k :| 0 <= k < |acted| && acted[k].id == id && acted[k] == Rebuilt(acted)[id];
      assert acted[k].ships == gathered[k].ships;
    }
  }

  lemma FightSizes(g: Galaxy, main: MainMap, rank: Rank, input: RoundInput, n: nat)
    requires MidRound(g, main, rank, g.round) && NoEmptyFleet(g.fleets) && g.round <= MAX32
    requires Enumerates(input.order, g.planets.Keys)
    requires FightsPhase(g, main, input).Done? && SizesWithin(g.fleets, n)
    ensures SizesWithin(FightsPhase(g, main, input).value.fleets, n)
  {
    hide MidRound, NoEmptyFleet, FightsPhase, PlanetSettled, Sum;
    var lost := FightsSettle(g, main, rank, input);
    var g' := FightsPhase(g, main, input).value;
    forall id | id in g'.fleets
      ensures Sum(g'.fleets[id].ships) <= n
    {
      OnlyLostSum(g.fleets[id].ships, g'.fleets[id].ships);
    }
  }

  // --------------------------------------------------------- whole rounds

  lemma LaunchedSizes(fleets0: FleetMap, fleets: FleetMap, n: nat)
    requires n >= 1 && SizesWithin(fleets0, n)
    requires forall id :: id in fleets0 ==> id in fleets && fleets[id] == fleets0[id]
    requires forall id :: id in fleets && id !in fleets0 ==> Sum(fleets[id].ships) <= 1
    ensures SizesWithin(fleets, n)
  {
  }

  /** The fleets stay within the caps up to the fights of a round. */
  lemma SizesBeforeFights(w: World, input: RoundInput, n: nat)
    requires Inv(w) && ValidInput(w, input) && w.galaxy.round < MAX32
    requires n >= 1 && SizesWithin(w.galaxy.fleets, n) && CapsWithin(input, n)
    requires BeforeFights(w, input).Done?
    ensures SizesWithin(BeforeFights(w, input).value.fleets, n)
    ensures CannonsWithin(BeforeFights(w, input).value.planets, w.galaxy.round + 1)
  {
    hide PlanetTasks, FleetTasks, PlanetScripts, FleetsPhase, CreateMains, SizesWithin, CapsWithin, TasksDone;
    hide PlanetOk, GoodFleet, Ranked, EmptyFleet, StocksLimited, PlanetsVisited, SortedKeys, FreeStocksModest, Enumerates;
    var rank :| GalaxyOk(w.galaxy, w.main, rank);
    var g1, g2 := OrdersCarriedOut(w, input);
    LaunchedSizes(w.galaxy.fleets, g1.fleets, n);
    TaskSizes(g1, g2, input, n);
    var h1, h2, rank' := TaskPhases(w, input, rank);
    assert g2 == h2;
    var g3 := PlanetScripts(g2, input, |input.order|).value;
    ScriptsDone(g2, WorkingCopy(w, input).main, rank', input);
    FleetsPhaseSizes(g3, input, n);
    var g4 := ScriptPhases(g2, WorkingCopy(w, input).main, rank', input);
  }

  lemma BeforeCompleted(w: World, input: RoundInput)
    requires Completes(w, input)
    ensures BeforeFights(w, input).Done?
    ensures FightsPhase(BeforeFights(w, input).value, WorkingCopy(w, input).main, input) == Done(Round(w, input).galaxy)
  {
    hide PlanetTasks, FleetTasks, PlanetScripts, FleetsPhase, FightsPhase, CreateMains, SortedKeys;
  }

  lemma BeforeFightsInOrder(w: World, input: RoundInput) returns (rank: Rank)
    requires Inv(w) && ValidInput(w, input) && w.galaxy.round < MAX32 && BeforeFights(w, input).Done?
    ensures var g := BeforeFights(w, input).value;
      && MidRound(g, WorkingCopy(w, input).main, rank, g.round) && NoEmptyFleet(g.fleets)
      && g.round == w.galaxy.round + 1 && Enumerates(input.order, g.planets.Keys)
  {
    hide PlanetTasks, FleetTasks, PlanetScripts, FleetsPhase, CreateMains;
    hide PlanetOk, GoodFleet, Ranked, EmptyFleet, StocksLimited, PlanetsVisited, SortedKeys, FreeStocksModest, Enumerates;
    var rank0 :| GalaxyOk(w.galaxy, w.main, rank0);
    var g1, g2;
    g1, g2, rank := TaskPhases(w, input, rank0);
    var g4 := ScriptPhases(g2, WorkingCopy(w, input).main, rank, input);
  }

  /** A round keeps the sizes of all fleets within the caps. */
  lemma RoundKeepsSizes(w: World, input: RoundInput, n: nat)
    requires Inv(w) && ValidInput(w, input) && w.galaxy.round < MAX32
    requires n >= 1 && SizesWithin(w.galaxy.fleets, n) && CapsWithin(input, n)
    ensures SizesWithin(Round(w, input).galaxy.fleets, n)
  {
    hide Inv, ValidInput, BeforeFights, FightsPhase, SizesWithin, CapsWithin, WorkingCopy, MidRound, NoEmptyFleet, Enumerates;
    if Completes(w, input) {
      hide Round, Completes;
      BeforeCompleted(w, input);
      SizesBeforeFights(w, input, n);
      var rank := BeforeFightsInOrder(w, input);
      FightSizes(BeforeFights(w, input).value, WorkingCopy(w, input).main, rank, input, n);
    } else {
      AbandonedRound(w, input);
    }
  }

  /** Along a run in which no cap is above `n` no fleet is. */
  lemma {:induction false} RunKeepsSizes(w: World, inputs: seq<RoundInput>, n: nat)
    requires Inv(w) && ValidRun(w, inputs) && w.galaxy.round + |inputs| <= MAX32
    requires n >= 1 && SizesWithin(w.galaxy.fleets, n)
    requires forall i :: 0 <= i < |inputs| ==> CapsWithin(inputs[i], n)
    ensures SizesWithin(Run(w, inputs).galaxy.fleets, n)
    decreases |inputs|
  {
    hide Round, Inv, ValidInput, SizesWithin, CapsWithin;
    if inputs != [] {
      var front, last := inputs[..|inputs| - 1], inputs[|inputs| - 1];
      RunKeepsSizes(w, front, n);
      EveryRunKeepsInv(w, front);
      RoundKeepsSizes(Run(w, front), last, n);
    }
  }

  // ---------------------------------------------------------- experience

  lemma SmallProductsFit(tab: seq<uint32>, list: seq<UnitStats>)
    requires |tab| == |list| && Sum(tab) <= SAFE_COUNT
    requires forall t :: 0 <= t < |list| ==> list[t].metal <= 200000
    ensures ProductsFit(tab, list)
  {
    SumNonNegative(tab);
    forall t | 0 <= t < |tab|
      ensures tab[t] as int * list[t].metal as int < TWO32
    {
      SmallerProduct(tab[t], SAFE_COUNT, list[t].metal);
      SmallerProduct(list[t].metal, 200000, SAFE_COUNT);
    }
  }

  /** A cap at Cohesion 10 or less is a safe count. */
  lemma SafeCaps(cohesion: SkillLevel)
    requires cohesion <= 10
    ensures MaxFleetSize(cohesion) <= SAFE_COUNT
  {
    SafeCohesionIff(cohesion);
    SafeCountIff(MaxFleetSize(cohesion));
  }

  /** The prices before and after a fight are true ones, and none rises. */
  ghost predicate LossesExact(fleets: seq<Fleet>, planet: Option<Planet>, fs: seq<Fleet>, planet': Option<Planet>) {
    && |fs| == |fleets| && (planet'.Some? <==> planet.Some?)
    && (forall k :: 0 <= k < |fs| ==>
         && ArmyPrice(fleets[k].ships, SHIP_LIST) == TruePrice(fleets[k].ships, SHIP_LIST)
         && ArmyPrice(fs[k].ships, SHIP_LIST) == TruePrice(fs[k].ships, SHIP_LIST)
         && ArmyPrice(fs[k].ships, SHIP_LIST) <= ArmyPrice(fleets[k].ships, SHIP_LIST))
    && (planet.Some? ==>
         && ArmyPrice(planet.value.cannons, CANNON_LIST) == TruePrice(planet.value.cannons, CANNON_LIST)
         && ArmyPrice(planet'.value.cannons, CANNON_LIST) == TruePrice(planet'.value.cannons, CANNON_LIST)
         && ArmyPrice(planet'.value.cannons, CANNON_LIST) <= ArmyPrice(planet.value.cannons, CANNON_LIST))
  }

  lemma FightLossesExact(fleets: seq<Fleet>, planet: Option<Planet>, h: FightingSet, draws: Draws)
    requires forall k :: 0 <= k < |fleets| ==> Sum(fleets[k].ships) <= SAFE_COUNT
    requires planet.Some? ==> Sum(planet.value.cannons) <= SAFE_COUNT
    requires FightResult(fleets, planet, h, draws).Done?
    ensures var (fs, planet') := FightResult(fleets, planet, h, draws).value;
      LossesExact(fleets, planet, fs, planet')
  {
    hide FightResult, ArmyPrice, TruePrice, Sum, ProductsFit;
    FightOnlyLosesShips(fleets, planet, h, draws);
    var (fs, planet') := FightResult(fleets, planet, h, draws).value;
    MetalBounds();
    forall k | 0 <= k < |fs|
      ensures ArmyPrice(fleets[k].ships, SHIP_LIST) == TruePrice(fleets[k].ships, SHIP_LIST)
      ensures ArmyPrice(fs[k].ships, SHIP_LIST) == TruePrice(fs[k].ships, SHIP_LIST)
      ensures ArmyPrice(fs[k].ships, SHIP_LIST) <= ArmyPrice(fleets[k].ships, SHIP_LIST)
    {
      SmallProductsFit(fleets[k].ships, SHIP_LIST);
      LossIsExact(fleets[k].ships, fs[k].ships, SHIP_LIST);
    }
    if planet.Some? {
      SmallProductsFit(planet.value.cannons, CANNON_LIST);
      LossIsExact(planet.value.cannons, planet'.value.cannons, CANNON_LIST);
    }
  }

  lemma MetalBounds()
    ensures forall t :: 0 <= t < |SHIP_LIST| ==> SHIP_LIST[t].metal <= 200000
    ensures forall t :: 0 <= t < |CANNON_LIST| ==> CANNON_LIST[t].metal <= 200000
  {
  }

  /** A run from a universe without fleets in which no player ever has more than
      10 in Cohesion. */
  ghost predicate ModestRun(w: World, inputs: seq<RoundInput>) {
    && Inv(w) && ValidRun(w, inputs) && w.galaxy.fleets == map[]
    && w.galaxy.round + |inputs| <= MAX32
    && forall i, p :: 0 <= i < |inputs| ==> CapsOf(inputs[i], p).cohesion <= 10
  }

  lemma ModestSizes(w: World, inputs: seq<RoundInput>)
    requires ModestRun(w, inputs)
    ensures SizesWithin(Run(w, inputs).galaxy.fleets, MaxFleetSize(10))
    ensures Inv(Run(w, inputs)) && Run(w, inputs).galaxy.round == w.galaxy.round + |inputs|
  {
    hide Inv, ValidRun, MaxFleetSize, SizesWithin, CapsWithin, Run;
    CapsAtTen(inputs, MaxFleetSize(10));
    NoFleetsSmall(w, MaxFleetSize(10));
    RunKeepsSizes(w, inputs, MaxFleetSize(10));
    EveryRunKeepsInv(w, inputs);
  }

  /** In every state of such a run the price of every fleet is exact. */
  lemma ReachableProductsFit(w: World, inputs: seq<RoundInput>, id: FleetId)
    requires ModestRun(w, inputs) && id in Run(w, inputs).galaxy.fleets
    ensures ProductsFit(Run(w, inputs).galaxy.fleets[id].ships, SHIP_LIST)
  {
    hide ModestRun, ProductsFit, Run, Sum, MaxFleetSize;
    ModestSizes(w, inputs);
    SafeCaps(10);
    MetalBounds();
    SmallProductsFit(Run(w, inputs).galaxy.fleets[id].ships, SHIP_LIST);
  }

  lemma ModestFront(w: World, inputs: seq<RoundInput>, input: RoundInput)
    requires ModestRun(w, inputs + [input])
    ensures ModestRun(w, inputs) && ValidInput(Run(w, inputs), input)
    ensures forall p :: CapsOf(input, p).cohesion <= 10
  {
    hide Inv, ValidInput, Run;
    var all := inputs + [input];
    assert all[..|all| - 1] == inputs && all[|all| - 1] == input;
    assert forall i :: 0 <= i < |inputs| ==> inputs[i] == all[i];
  }

  /** The armies that go into the fights of its last round are safe; planets
      because they have no more cannons than rounds were played. */
  lemma ModestArmies(w: World, inputs: seq<RoundInput>, input: RoundInput)
    requires ModestRun(w, inputs + [input]) && BeforeFights(Run(w, inputs), input).Done?
    requires w.galaxy.round + |inputs| < SAFE_COUNT
    ensures SizesWithin(BeforeFights(Run(w, inputs), input).value.fleets, SAFE_COUNT)
    ensures CannonsWithin(BeforeFights(Run(w, inputs), input).value.planets, SAFE_COUNT)
  {
    hide Inv, ValidInput, MaxFleetSize, CapsWithin, BeforeFights, Run, SizesWithin, CannonsWithin, ModestRun;
    var n := MaxFleetSize(10);
    ModestFront(w, inputs, input);
    ModestSizes(w, inputs);
    CapsAtTen([input], n);
    assert CapsWithin([input][0], n);
    SizesBeforeFights(Run(w, inputs), input, n);
    SafeCaps(10);
    var g := BeforeFights(Run(w, inputs), input).value;
    SizesGrow(g.fleets, n, SAFE_COUNT);
    CannonsGrow(g.planets, Run(w, inputs).galaxy.round + 1, SAFE_COUNT);
  }

  lemma SizesGrow(fleets: FleetMap, n: nat, m: nat)
    requires SizesWithin(fleets, n) && n <= m
    ensures SizesWithin(fleets, m)
  {
  }

  lemma CannonsGrow(planets: PlanetMap, n: nat, m: nat)
    requires CannonsWithin(planets, n) && n <= m
    ensures CannonsWithin(planets, m)
  {
  }

  /** In every fight of the first 21474 rounds of such a run, whatever the fights
      before it in the round, the price differences of the experience rule are the
      true losses and never underflow. */
  lemma ReachableLossesExact(w: World, inputs: seq<RoundInput>, input: RoundInput, v: War, c: Coord, group: seq<Fighter>)
    requires ModestRun(w, inputs + [input]) && BeforeFights(Run(w, inputs), input).Done?
    requires w.galaxy.round + |inputs| < SAFE_COUNT
    requires WarSoFar(BeforeFights(Run(w, inputs), input).value, v)
    requires PlaceOf(BeforeFights(Run(w, inputs), input).value, v, c, group)
    requires FightResult(FleetsOf(v.fleets, FleetIds(group, input.escapes)), PlanetHere(v, c, group),
                         Hostilities(input.answers), input.draws(c)).Done?
    ensures var fleets, planet := FleetsOf(v.fleets, FleetIds(group, input.escapes)), PlanetHere(v, c, group);
      var (fs, planet') := FightResult(fleets, planet, Hostilities(input.answers), input.draws(c)).value;
      LossesExact(fleets, planet, fs, planet')
  {
    hide ModestRun, FightResult, BeforeFights, WarSoFar, SizesWithin, LossesExact, FleetIds, Hostilities, CannonsWithin, Run;
    ModestArmies(w, inputs, input);
    ArmiesWithin(BeforeFights(Run(w, inputs), input).value, v, c, group, input, SAFE_COUNT, SAFE_COUNT);
    FightLossesExact(FleetsOf(v.fleets, FleetIds(group, input.escapes)), PlanetHere(v, c, group),
                     Hostilities(input.answers), input.draws(c));
  }

  lemma NoFleetsSmall(w: World, n: nat)
    requires w.galaxy.fleets == map[]
    ensures SizesWithin(w.galaxy.fleets, n)
  {
  }

  lemma CapsAtTen(inputs: seq<RoundInput>, n: nat)
    requires forall i, p :: 0 <= i < |inputs| ==> CapsOf(inputs[i], p).cohesion <= 10
    requires n == MaxFleetSize(10)
    ensures n >= 1 && forall i :: 0 <= i < |inputs| ==> CapsWithin(inputs[i], n)
  {
    hide Pow;
    PowPositive(2, 14);
    forall i, p | 0 <= i < |inputs|
      ensures MaxFleetSize(CapsOf(inputs[i], p).cohesion) <= n
    {
      PowerOfTwoGrows(CapsOf(inputs[i], p).cohesion + 4, 14);
    }
  }

  lemma ArmiesWithin(g: Galaxy, v: War, c: Coord, group: seq<Fighter>, input: RoundInput, n: nat, m: nat)
    requires WarSoFar(g, v) && PlaceOf(g, v, c, group) && SizesWithin(g.fleets, n) && CannonsWithin(g.planets, m)
    ensures var fleets := FleetsOf(v.fleets, FleetIds(group, input.escapes));
      && (forall k :: 0 <= k < |fleets| ==> Sum(fleets[k].ships) <= n)
      && (PlanetHere(v, c, group).Some? ==> Sum(PlanetHere(v, c, group).value.cannons) <= m)
  {
    hide Sum, LossesSoFar;
    var ids := FleetIds(group, input.escapes);
    var fleets := FleetsOf(v.fleets, ids);
    forall k | 0 <= k < |fleets|
      ensures Sum(fleets[k].ships) <= n
    {
      assert FleetFought(g.fleets[ids[k]], v.fleets[ids[k]], ids[k] in v.dead);
      OnlyLostSum(g.fleets[ids[k]].ships, v.fleets[ids[k]].ships);
    }
    if PlanetHere(v, c, group).Some? {
      assert CannonsLost(g.planets[c], v.planets[c]);
      CannonsStayWithin(g.planets[c], v.planets[c]);
    }
  }
}
