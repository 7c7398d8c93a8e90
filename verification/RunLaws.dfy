/** Whole rounds and whole runs: the invariant of the universe, what each round
    keeps, and when a round completes. */
module RunLaws {
  import opened Basics
  import opened Model
  import opened Prices
  import opened Planets
  import opened Fleets
  import opened Multimap
  import opened Forest
  import opened Combat
  import opened Fight
  import opened FightLaws
  import opened Phases
  import opened PhaseLaws
  import opened WarLaws
  import opened BystanderLaws
  import opened BattleLaws
  import opened TaskLaws
  import opened BuildLaws

  // --------------------------------------------------------- invariant

  ghost predicate GalaxyOk(g: Galaxy, main: MainMap, rank: Rank) {
    && (forall c :: c in g.planets ==> InMap(c))
    && PlanetsOk(g.planets)
    && CannonsWithin(g.planets, g.round)
    && Ranked(g.planets, main, rank)
    && FleetsOk(g.fleets, g.planets, g.nextFleetId, g.round)
    && NoEmptyFleet(g.fleets)
  }

  /** What holds in every state a run can reach. */
  ghost predicate Inv(w: World) {
    exists rank :: GalaxyOk(w.galaxy, w.main, rank)
  }

  /** The new universe of `construct`: free, bare planets and nothing else. */
  ghost predicate Initial(w: World) {
    && w.galaxy.fleets == map[] && w.galaxy.round == 0 && w.main == map[]
    && forall c :: c in w.galaxy.planets ==>
         InMap(c) && w.galaxy.planets[c] ==
         Planet(NO_PLAYER, NO_BUILDINGS, None, w.galaxy.planets[c].stock, NO_CANNONS, c, NO_SHIPS)
  }

  lemma InitialInv(w: World)
    requires Initial(w)
    ensures Inv(w)
  {
    SumZero(NO_CANNONS);
    var rank: Rank := map c | c in w.galaxy.planets :: 0;
    assert Ranked(w.galaxy.planets, w.main, rank);
    assert GalaxyOk(w.galaxy, w.main, rank);
  }

  /** `construct` ends with the main planets of the first players, all drawn
      among the free planets: that universe satisfies the invariant too. */
  lemma ConstructedInv(w: World, creations: seq<(PlayerId, Coord)>)
    requires Initial(w) && ValidCreations(w.galaxy.planets, w.main, creations)
    ensures var (planets, main) := CreateMains(w.galaxy.planets, w.main, creations, |creations|);
      Inv(World(w.galaxy.(planets := planets), main))
  {
    hide PlanetOk, Ranked, CreateMains;
    InitialInv(w);
    var rank :| GalaxyOk(w.galaxy, w.main, rank);
    CreationsKeep(w.galaxy.planets, w.main, rank, creations, |creations|);
    var (planets, main) := CreateMains(w.galaxy.planets, w.main, creations, |creations|);
    assert GalaxyOk(w.galaxy.(planets := planets), main, rank);
  }

  /** The input of a round fits the world: the hash map lists each planet once,
      and new players are new and get free planets. */
  ghost predicate ValidInput(w: World, input: RoundInput) {
    && Enumerates(input.order, w.galaxy.planets.Keys)
    && ValidCreations(w.galaxy.planets, w.main, input.creations)
  }

  // ------------------------------------------------------ phase by phase

  /** The working copy at the start of the phases. */
  ghost function WorkingCopy(w: World, input: RoundInput): World {
    var (planets, main) := CreateMains(w.galaxy.planets, w.main, input.creations, |input.creations|);
    World(w.galaxy.(round := w.galaxy.round + 1, planets := planets), main)
  }

  /** Ready for the phases: everything in order, with the fleet orders of
      earlier rounds and one cannon less than allowed. */
  ghost predicate Ready(g: Galaxy, main: MainMap, rank: Rank, round: nat) {
    && g.round == round + 1
    && (forall c :: c in g.planets ==> InMap(c))
    && PlanetsOk(g.planets)
    && CannonsWithin(g.planets, round)
    && Ranked(g.planets, main, rank)
    && FleetsOk(g.fleets, g.planets, g.nextFleetId, round)
    && NoEmptyFleet(g.fleets)
  }

  lemma StartReady(w: World, input: RoundInput, rank: Rank)
    requires GalaxyOk(w.galaxy, w.main, rank) && ValidInput(w, input)
    ensures Ready(WorkingCopy(w, input).galaxy, WorkingCopy(w, input).main, rank, w.galaxy.round)
    ensures TreeGrows(w.galaxy.planets, WorkingCopy(w, input).galaxy.planets)
    ensures forall p :: p in w.main ==> p in WorkingCopy(w, input).main && WorkingCopy(w, input).main[p] == w.main[p]
    ensures WorkingCopy(w, input).galaxy.fleets == w.galaxy.fleets
  {
    hide PlanetOk, GoodFleet, Ranked, CreateMains;
    CreationsKeep(w.galaxy.planets, w.main, rank, input.creations, |input.creations|);
    var g := WorkingCopy(w, input).galaxy;
    forall id | id in g.fleets
      ensures id < g.nextFleetId && GoodFleet(id, g.fleets[id], g.planets, w.galaxy.round)
    {
      GoodFleetGrows(id, g.fleets[id], w.galaxy.planets, g.planets, w.galaxy.round);
    }
  }

  /** A galaxy whose planets and fleets are in order, in the middle of a round. */
  ghost predicate MidRound(g: Galaxy, main: MainMap, rank: Rank, orders: nat) {
    && (forall c :: c in g.planets ==> InMap(c))
    && PlanetsOk(g.planets)
    && CannonsWithin(g.planets, g.round)
    && Ranked(g.planets, main, rank)
    && FleetsOk(g.fleets, g.planets, g.nextFleetId, orders)
  }

  /** Owned planets are below the stock limit. */
  ghost predicate StocksLimited(planets: PlanetMap) {
    forall c, res :: Owned(planets, c) && 0 <= res < RESOURCES ==> planets[c].stock[res] <= STOCK_LIMIT
  }

  lemma PlanetTasksDone(g: Galaxy, main: MainMap, rank: Rank, input: RoundInput, round: nat)
    requires Ready(g, main, rank, round) && round < MAX32
    requires Enumerates(input.order, g.planets.Keys)
    ensures PlanetTasks(g, input, |input.order|).Done?
    ensures var g' := PlanetTasks(g, input, |input.order|).value;
      && MidRound(g', main, rank, round) && g'.round == g.round
      && SameTree(g.planets, g'.planets)
      && (forall c :: c in g.planets && !Owned(g.planets, c) ==> g'.planets[c] == g.planets[c])
      && StocksLimited(g'.planets)
      && NoEmptyFleet(g'.fleets)
      && (forall id :: id in g.fleets ==> id in g'.fleets && g'.fleets[id] == g.fleets[id])
      && (forall id :: id in g'.fleets && id !in g.fleets ==>
           g'.fleets[id].task == None && Sum(g'.fleets[id].ships) <= 1)
  {
    hide PlanetOk, GoodFleet, PlanetTasks, Linked;
    PlanetTasksKeep(g, input, |input.order|, round);
    var g' := PlanetTasks(g, input, |input.order|).value;
    SameTreeRanked(g.planets, g'.planets, main, rank);
    forall c | c in g'.planets
      ensures PlanetOk(c, g'.planets[c]) && Sum(g'.planets[c].cannons) <= g'.round
      ensures Owned(g'.planets, c) ==> forall res :: 0 <= res < RESOURCES ==> g'.planets[c].stock[res] <= STOCK_LIMIT
    {
      if Owned(g.planets, c) {
        var k :| 0 <= k < |input.order| && input.order[k] == c;
        assert PlanetPlayed(input.order[k], g.planets[input.order[k]], g'.planets[input.order[k]]);
      }
    }
  }

  lemma FleetTasksDone(g: Galaxy, main: MainMap, rank: Rank, input: RoundInput, round: nat) returns (rank': Rank)
    requires MidRound(g, main, rank, round) && g.round == round + 1
    ensures var ids := SortedKeys(g.fleets.Keys);
      && FleetTasks(g, input, ids, |ids|).Done?
      && var g' := FleetTasks(g, input, ids, |ids|).value;
         && MidRound(g', main, rank', round + 1) && g'.round == g.round
         && NoFleetTask(g'.fleets)
         && PlanetsVisited(g.planets, g'.planets)
         && g'.fleets.Keys == g.fleets.Keys
         && forall id :: id in g.fleets ==> FleetMoved(id, g.fleets[id], g'.fleets[id], g'.planets, g'.round)
  {
    hide PlanetOk, GoodFleet, FleetTasks, Ranked, PlanetVisited, FleetsMoved, FleetMoved;
    var ids := SortedKeys(g.fleets.Keys);
    rank' := FleetTasksKeep(g, input, ids, |ids|, round, main, rank);
    var g' := FleetTasks(g, input, ids, |ids|).value;
    AllFleetsMoved(g, g', ids);
    VisitedCannons(g.planets, g'.planets, g.round);
  }

  lemma AllFleetsMoved(g: Galaxy, g': Galaxy, ids: seq<FleetId>)
    requires FleetsMoved(g, g', ids, |ids|) && g.fleets.Keys == set id | id in ids
    requires forall id :: id in g.fleets ==> id < g.nextFleetId
    ensures g'.fleets.Keys == g.fleets.Keys && g'.round == g.round
    ensures forall id :: id in g.fleets ==> FleetMoved(id, g.fleets[id], g'.fleets[id], g'.planets, g'.round)
    ensures FleetsOk(g'.fleets, g'.planets, g'.nextFleetId, g'.round) && NoFleetTask(g'.fleets)
  {
    hide GoodFleet;
    forall id | id in g.fleets
      ensures FleetMoved(id, g.fleets[id], g'.fleets[id], g'.planets, g'.round)
    {
      var k :| 0 <= k < |ids| && ids[k] == id;
      assert FleetMoved(ids[k], g.fleets[ids[k]], g'.fleets[ids[k]], g'.planets, g'.round);
    }
  }

  lemma VisitedCannons(ps0: PlanetMap, ps: PlanetMap, bound: nat)
    requires PlanetsVisited(ps0, ps) && CannonsWithin(ps0, bound)
    ensures CannonsWithin(ps, bound) && ps.Keys == ps0.Keys
  {
    hide PlanetOk;
    forall c | c in ps
      ensures Sum(ps[c].cannons) <= bound
    {
      assert PlanetVisited(ps0[c], ps[c]);
    }
  }

  lemma ScriptsDone(g: Galaxy, main: MainMap, rank: Rank, input: RoundInput)
    requires MidRound(g, main, rank, g.round) && NoFleetTask(g.fleets)
    requires Enumerates(input.order, g.planets.Keys)
    requires PlanetScripts(g, input, |input.order|).Done?
    ensures var g' := PlanetScripts(g, input, |input.order|).value;
      && MidRound(g', main, rank, g.round) && g' == g.(planets := g'.planets)
      && SameTree(g.planets, g'.planets)
  {
    hide PlanetOk, GoodFleet, PlanetScripts, Ranked;
    PlanetScriptsKeep(g, input, |input.order|);
    var g' := PlanetScripts(g, input, |input.order|).value;
    forall c | c in g'.planets
      ensures PlanetOk(c, g'.planets[c]) && Sum(g'.planets[c].cannons) <= g'.round
      ensures g'.planets[c].owner == g.planets[c].owner && g'.planets[c].parent == g.planets[c].parent
    {
      assert PlanetScripted(c, g.planets[c], g'.planets[c]);
    }
    SameTreeRanked(g.planets, g'.planets, main, rank);
    FleetsGrow(g.fleets, g.planets, g'.planets, g.nextFleetId, g.round);
  }

  lemma FleetsGrow(fleets: FleetMap, planets: PlanetMap, planets': PlanetMap, nextId: FleetId, round: nat)
    requires FleetsOk(fleets, planets, nextId, round) && TreeGrows(planets, planets')
    ensures FleetsOk(fleets, planets', nextId, round)
  {
    hide GoodFleet;
    forall id | id in fleets
      ensures GoodFleet(id, fleets[id], planets', round)
    {
      GoodFleetGrows(id, fleets[id], planets, planets', round);
    }
  }

  lemma FleetPhaseDone(g: Galaxy, main: MainMap, rank: Rank, input: RoundInput)
    requires MidRound(g, main, rank, g.round) && NoFleetTask(g.fleets)
    requires Enumerates(input.order, g.planets.Keys)
    ensures var g' := FleetsPhase(g, input);
      && MidRound(g', main, rank, g.round) && g'.round == g.round
      && SameTree(g.planets, g'.planets)
      && NoEmptyFleet(g'.fleets)
      && OrdersOfRound(g'.fleets, g.round)
      && FleetsKept(g.fleets, g'.fleets)
  {
    hide GoodFleet, FleetsPhase, Ranked, PlanetOk;
    FleetsPhaseKeeps(g, input);
    var g' := FleetsPhase(g, input);
    forall c | c in g'.planets
      ensures PlanetOk(c, g'.planets[c])
      ensures Sum(g'.planets[c].cannons) <= g'.round
      ensures g'.planets[c].owner == g.planets[c].owner && g'.planets[c].parent == g.planets[c].parent
    {
      assert PlanetServed(g.planets[c], g'.planets[c]);
      ServedKeeps(c, g.planets[c], g'.planets[c]);
    }
    SameTreeRanked(g.planets, g'.planets, main, rank);
  }

  // ---------------------------------------------------- the fight phase

  lemma RollIs(g: Galaxy, order: seq<Coord>)
    requires Enumerates(order, g.planets.Keys)
    ensures IsRoll(g, Fighters(g, order))
  {
    FightersAre(g, order);
    var ids := SortedKeys(g.fleets.Keys);
    var ps, fs := PlanetFighters(g.planets, order), FleetFighters(g.fleets, ids);
    PlanetFightersDistinct(g.planets, order);
    PlanetFightersAre(g.planets, order);
    InsertAllNoDuplicates(ps + fs, At);
  }

  lemma {:induction false} PlanetFightersDistinct(planets: PlanetMap, order: seq<Coord>)
    requires NoDuplicates(order)
    ensures NoDuplicates(PlanetFighters(planets, order))
  {
    if order != [] {
      var front := order[..|order| - 1];
      PlanetFightersDistinct(planets, front);
      PlanetFightersAre(planets, front);
    }
  }

  /** The war the fights of a round amount to. */
  ghost function WarOf(g: Galaxy, input: RoundInput): Attempt<War> {
    FightersPresent(g, input.order);
    FightPlaces(War(g.planets, g.fleets, {}, []), Fighters(g, input.order), input, 0)
  }

  lemma PeaceSoFar(g: Galaxy)
    requires NoEmptyFleet(g.fleets)
    requires forall id :: id in g.fleets ==> Sum(g.fleets[id].ships) < TWO31
    ensures WarSoFar(g, War(g.planets, g.fleets, {}, []))
  {
    forall id | id in g.fleets
      ensures g.fleets[id].ships != NO_SHIPS
    {
      EmptyFleetIff(g.fleets[id]);
    }
  }

  lemma WarDone(g: Galaxy, main: MainMap, rank: Rank, input: RoundInput)
    requires MidRound(g, main, rank, g.round) && NoEmptyFleet(g.fleets) && g.round <= MAX32
    requires Enumerates(input.order, g.planets.Keys)
    requires WarOf(g, input).Done?
    ensures WarSoFar(g, WarOf(g, input).value)
  {
    hide PlanetOk, Ranked, FightPlaces, LossesSoFar, FleetFought, Fighters;
    ShipsCountable(g);
    PeaceSoFar(g);
    RollIs(g, input.order);
    FightersPresent(g, input.order);
    NoLossesYet(g.planets);
    FightPlacesKeep(g, War(g.planets, g.fleets, {}, []), Fighters(g, input.order), input, 0);
  }

  lemma NoLossesYet(planets: PlanetMap)
    ensures LossesSoFar(planets, [])
  {
  }

  lemma ShipsCountable(g: Galaxy)
    requires FleetsOk(g.fleets, g.planets, g.nextFleetId, g.round)
    ensures forall id :: id in g.fleets ==> Sum(g.fleets[id].ships) < TWO31
  {
    forall id | id in g.fleets
      ensures Sum(g.fleets[id].ships) < TWO31
    {
      assert GoodFleet(id, g.fleets[id], g.planets, g.round);
    }
  }

  lemma FoughtPlanetOk(c: Coord, p: Planet, q: Planet)
    requires PlanetOk(c, p) && CannonsLost(p, q)
    ensures PlanetOk(c, q)
  {
    if p.owner == NO_PLAYER {
      assert q.cannons == NO_CANNONS;
    }
  }

  lemma AbandonedOk(c: Coord, p: Planet)
    requires p.cannons == NO_CANNONS
    ensures PlanetOk(c, Abandoned(p, c))
  {
  }

  lemma ReparentedOk(c: Coord, p: Planet, q: Planet)
    requires PlanetOk(c, p) && p.owner != NO_PLAYER && q.(parent := p.parent) == p
    ensures PlanetOk(c, q)
  {
    var t := q.parent;
    assert q == p.(parent := t);
  }

  /** A war keeps the tree and the planets in it in order. */
  lemma PlanetsInWar(g: Galaxy, w: War, main: MainMap, rank: Rank)
    requires MidRound(g, main, rank, g.round) && WarSoFar(g, w)
    ensures Ranked(w.planets, main, rank) && DistinctOwned(w.planets, w.lost) && TreeGrows(g.planets, w.planets)
    ensures PlanetsOk(w.planets) && CannonsWithin(w.planets, g.round) && w.planets.Keys == g.planets.Keys
  {
    hide PlanetOk, Ranked, FleetsFought, FleetsOk;
    forall c | c in g.planets
      ensures PlanetOk(c, w.planets[c]) && Sum(w.planets[c].cannons) <= g.round
      ensures w.planets[c].owner == g.planets[c].owner && w.planets[c].parent == g.planets[c].parent
    {
      assert CannonsLost(g.planets[c], w.planets[c]);
      FoughtPlanetOk(c, g.planets[c], w.planets[c]);
      CannonsStayWithin(g.planets[c], w.planets[c]);
    }
    SameTreeRanked(g.planets, w.planets, main, rank);
  }

  /** The planets after a war and its losses. */
  lemma PlanetsAfterWar(g: Galaxy, w: War, main: MainMap, rank: Rank)
    requires MidRound(g, main, rank, g.round) && WarSoFar(g, w)
    ensures Ranked(w.planets, main, rank) && DistinctOwned(w.planets, w.lost) && TreeGrows(g.planets, w.planets)
    ensures var planets := PlanetsAfterLosses(w.planets, main, w.lost);
      && planets.Keys == g.planets.Keys
      && PlanetsOk(planets) && CannonsWithin(planets, g.round) && Ranked(planets, main, rank)
  {
    hide PlanetOk, Ranked, FleetsFought, PlanetsAfterLosses, MidRound, NearestSurvivor;
    PlanetsInWar(g, w, main, rank);
    LossesKeepForest(w.planets, main, rank, w.lost);
    var planets := PlanetsAfterLosses(w.planets, main, w.lost);
    forall c | c in planets
      ensures PlanetOk(c, planets[c]) && Sum(planets[c].cannons) <= g.round
    {
      if Gone(w.planets, main, w.lost, c) {
        var i :| 0 <= i < |w.lost| && w.lost[i] == c;
        assert w.planets[w.lost[i]].cannons == NO_CANNONS;
        AbandonedOk(c, w.planets[c]);
      } else if Owned(w.planets, c) {
        ReparentedOk(c, w.planets[c], planets[c]);
      }
    }
  }

  lemma GoodAfterWar(id: FleetId, f0: Fleet, f: Fleet, planets: PlanetMap, planets': PlanetMap, round: nat)
    requires GoodFleet(id, f0, planets, round) && planets'.Keys == planets.Keys
    requires FleetOnlyLost(f0, f.(origin := f0.origin)) && OriginOk(planets', f)
    ensures GoodFleet(id, f, planets', round)
  {
    OnlyLostSum(f0.ships, f.ships);
    var o := f.origin;
    assert f == f0.(ships := f.ships, origin := o);
  }

  /** `f` is `f0` with ships lost and perhaps another origin. */
  ghost predicate CameThroughWar(f0: Fleet, f: Fleet) {
    f == f0.(ships := f.ships, origin := f.origin)
  }

  ghost predicate FleetsThroughWar(fleets0: FleetMap, fleets: FleetMap) {
    forall id :: id in fleets ==> id in fleets0 && CameThroughWar(fleets0[id], fleets[id])
  }

  lemma FleetAfterWar(g: Galaxy, w: War, main: MainMap, rank: Rank, id: FleetId)
    requires MidRound(g, main, rank, g.round) && WarSoFar(g, w)
    requires Ranked(w.planets, main, rank) && DistinctOwned(w.planets, w.lost) && TreeGrows(g.planets, w.planets)
    requires PlanetsAfterLosses(w.planets, main, w.lost).Keys == g.planets.Keys
    requires id in w.fleets && id !in w.dead
    ensures id in g.fleets && id in FleetsAfterLosses(w.planets, w.fleets, main, w.lost)
    ensures var f := FleetsAfterLosses(w.planets, w.fleets, main, w.lost)[id];
      && id < g.nextFleetId
      && GoodFleet(id, f, PlanetsAfterLosses(w.planets, main, w.lost), g.round)
      && !EmptyFleet(f)
      && CameThroughWar(g.fleets[id], f)
  {
    hide PlanetOk, Ranked, PlanetsAfterLosses, FleetsAfterLosses, FleetOk, LossesSoFar, PlanetsFought;
    var planets := PlanetsAfterLosses(w.planets, main, w.lost);
    var f0 := g.fleets[id];
    assert FleetFought(f0, w.fleets[id], id in w.dead);
    assert GoodFleet(id, f0, g.planets, g.round);
    assert OriginOk(w.planets, w.fleets[id]);
    AllFleetsRemain(w, main);
    LossesKeepOrigin(w.planets, main, rank, w.lost, w.fleets, id);
    var f := FleetsAfterLosses(w.planets, w.fleets, main, w.lost)[id];
    GoodAfterWar(id, f0, f, g.planets, planets, g.round);
    StillShips(id, f, planets, g.round);
  }

  lemma FleetsAfterWar(g: Galaxy, w: War, main: MainMap, rank: Rank)
    requires MidRound(g, main, rank, g.round) && WarSoFar(g, w)
    ensures var planets := PlanetsAfterLosses(w.planets, main, w.lost);
      var fleets := FleetsAfterLosses(w.planets, w.fleets, main, w.lost) - w.dead;
      && FleetsOk(fleets, planets, g.nextFleetId, g.round) && NoEmptyFleet(fleets)
      && FleetsThroughWar(g.fleets, fleets)
  {
    hide MidRound, WarSoFar, Ranked, GoodFleet, PlanetsAfterLosses, FleetsAfterLosses, EmptyFleet, CameThroughWar;
    PlanetsAfterWar(g, w, main, rank);
    AllFleetsRemain(w, main);
    var all := FleetsAfterLosses(w.planets, w.fleets, main, w.lost);
    forall id | id in all && id !in w.dead
      ensures id in g.fleets && id < g.nextFleetId && !EmptyFleet(all[id]) && CameThroughWar(g.fleets[id], all[id])
      ensures GoodFleet(id, all[id], PlanetsAfterLosses(w.planets, main, w.lost), g.round)
    {
      FleetAfterWar(g, w, main, rank, id);
    }
  }

  lemma StillShips(id: FleetId, f: Fleet, planets: PlanetMap, round: nat)
    requires GoodFleet(id, f, planets, round) && f.ships != NO_SHIPS
    ensures !EmptyFleet(f)
  {
    EmptyFleetIff(f);
  }

  lemma AllFleetsRemain(w: War, main: MainMap)
    ensures FleetsAfterLosses(w.planets, w.fleets, main, w.lost).Keys == w.fleets.Keys
  {
  }

  lemma FightPhaseDone(g: Galaxy, main: MainMap, rank: Rank, input: RoundInput)
    requires MidRound(g, main, rank, g.round) && NoEmptyFleet(g.fleets) && g.round <= MAX32
    requires Enumerates(input.order, g.planets.Keys)
    requires FightsPhase(g, main, input).Done?
    ensures var g' := FightsPhase(g, main, input).value;
      GalaxyOk(g', main, rank) && g'.round == g.round && FleetsThroughWar(g.fleets, g'.fleets)
  {
    hide PlanetOk, Ranked, PlanetsAfterLosses, FleetsAfterLosses, GoodFleet, EmptyFleet, FightPlaces, Fighters, WarSoFar;
    if g.fleets != map[] {
      WarDone(g, main, rank, input);
      var w := WarOf(g, input).value;
      PlanetsAfterWar(g, w, main, rank);
      FleetsAfterWar(g, w, main, rank);
    }
  }

  // ------------------------------------------------------------- rounds

  /** How a fleet that comes out of a completed round got there: it is where the
      order it had before sent it, at most one cell away per axis, or it is new. */
  ghost predicate FleetsAdvanced(w: World, w': World) {
    forall id :: id in w'.galaxy.fleets && id in w.galaxy.fleets ==>
      && w'.galaxy.fleets[id].position == Destination(w.galaxy.fleets[id])
      && Adjacent(w.galaxy.fleets[id].position, w'.galaxy.fleets[id].position)
      && w'.galaxy.fleets[id].owner == w.galaxy.fleets[id].owner
  }

  /** The task phases of a round, which never throw. */
  lemma TaskPhases(w: World, input: RoundInput, rank: Rank) returns (g1: Galaxy, g2: Galaxy, rank': Rank)
    requires GalaxyOk(w.galaxy, w.main, rank) && ValidInput(w, input) && w.galaxy.round < MAX32
    ensures var s := WorkingCopy(w, input);
      && PlanetTasks(s.galaxy, input, |input.order|) == Done(g1)
      && FleetTasks(g1, input, SortedKeys(g1.fleets.Keys), |SortedKeys(g1.fleets.Keys)|) == Done(g2)
      && MidRound(g2, s.main, rank', g2.round) && NoFleetTask(g2.fleets)
      && g2.round == w.galaxy.round + 1
      && StocksLimited(g1.planets) && PlanetsVisited(g1.planets, g2.planets)
      && (FreeStocksModest(w.galaxy.planets) ==> FreeStocksModest(g1.planets))
      && Enumerates(input.order, g2.planets.Keys)
    ensures forall id :: id in w.galaxy.fleets ==>
      id in g2.fleets && FleetMoved(id, w.galaxy.fleets[id], g2.fleets[id], g2.planets, g2.round)
  {
    hide PlanetTasks, FleetTasks, CreateMains;
    hide PlanetOk, GoodFleet, Ranked, EmptyFleet, StocksLimited, PlanetsVisited, FreeStocksModest, SortedKeys;
    var s := WorkingCopy(w, input);
    StartReady(w, input, rank);
    PlanetTasksDone(s.galaxy, s.main, rank, input, w.galaxy.round);
    g1 := PlanetTasks(s.galaxy, input, |input.order|).value;
    rank' := FleetTasksDone(g1, s.main, rank, input, w.galaxy.round);
    var ids := SortedKeys(g1.fleets.Keys);
    g2 := FleetTasks(g1, input, ids, |ids|).value;
    VisitedKeys(g1.planets, g2.planets);
    if FreeStocksModest(w.galaxy.planets) {
      StartStocks(w, input, rank);
      FreeStocksKept(s.galaxy.planets, g1.planets);
    }
  }

  lemma MidRoundWaits(g: Galaxy, main: MainMap, rank: Rank, round: nat)
    requires MidRound(g, main, rank, round) && g.round == round + 1
    ensures AllWaiting(g, SortedKeys(g.fleets.Keys), round)
  {
    hide GoodFleet, PlanetOk, Ranked;
  }

  lemma StartBuilds(w: World, input: RoundInput, rank: Rank)
    requires Ready(WorkingCopy(w, input).galaxy, WorkingCopy(w, input).main, rank, w.galaxy.round)
    requires Enumerates(input.order, w.galaxy.planets.Keys) && w.galaxy.round < MAX32
    requires TreeGrows(w.galaxy.planets, WorkingCopy(w, input).galaxy.planets)
    ensures ReadyToBuild(WorkingCopy(w, input).galaxy, input)
  {
    hide PlanetOk, GoodFleet, Ranked;
  }

  /** In every round, whatever it comes to later, all orders given before it are
      carried out as the closed forms say: first those of the planets, then those
      of the fleets there were, on the free planets as they were. */
  lemma OrdersCarriedOut(w: World, input: RoundInput) returns (g1: Galaxy, g2: Galaxy)
    requires Inv(w) && ValidInput(w, input) && w.galaxy.round < MAX32
    ensures var s := WorkingCopy(w, input).galaxy;
      var ids := SortedKeys(g1.fleets.Keys);
      && PlanetTasks(s, input, |input.order|) == Done(g1)
      && FleetTasks(g1, input, ids, |ids|) == Done(g2)
      && TasksBuilt(s, g1, input, |input.order|)
      && AllWaiting(g1, ids, w.galaxy.round) && TasksDone(g1, g2, input, ids, |ids|)
      && g1.planets.Keys == s.planets.Keys
      && (forall id :: id in w.galaxy.fleets ==> id in g1.fleets && g1.fleets[id] == w.galaxy.fleets[id])
      && (forall id :: id in g1.fleets && id !in w.galaxy.fleets ==>
           g1.fleets[id].task == None && Sum(g1.fleets[id].ships) <= 1)
      && (forall c :: c in s.planets && !Owned(s.planets, c) ==> g1.planets[c] == s.planets[c])
  {
    hide PlanetTasks, FleetTasks, CreateMains, TasksDone, TasksBuilt, ReadyToBuild, AllWaiting;
    hide PlanetOk, GoodFleet, Ranked, EmptyFleet, StocksLimited, SortedKeys, NoEmptyFleet;
    var rank :| GalaxyOk(w.galaxy, w.main, rank);
    var s := WorkingCopy(w, input);
    StartReady(w, input, rank);
    StartBuilds(w, input, rank);
    PlanetTasksOutcome(s.galaxy, input, |input.order|);
    PlanetTasksDone(s.galaxy, s.main, rank, input, w.galaxy.round);
    g1 := PlanetTasks(s.galaxy, input, |input.order|).value;
    MidRoundWaits(g1, s.main, rank, w.galaxy.round);
    var ids := SortedKeys(g1.fleets.Keys);
    FleetTasksOutcome(g1, input, ids, |ids|, w.galaxy.round);
    g2 := FleetTasks(g1, input, ids, |ids|).value;
  }

  /** The script phases of a round, once no planet script has thrown. */
  lemma ScriptPhases(g: Galaxy, main: MainMap, rank: Rank, input: RoundInput) returns (g': Galaxy)
    requires MidRound(g, main, rank, g.round) && NoFleetTask(g.fleets)
    requires Enumerates(input.order, g.planets.Keys)
    requires PlanetScripts(g, input, |input.order|).Done?
    ensures g' == FleetsPhase(PlanetScripts(g, input, |input.order|).value, input)
    ensures MidRound(g', main, rank, g'.round) && g'.round == g.round
    ensures NoEmptyFleet(g'.fleets) && OrdersOfRound(g'.fleets, g'.round) && FleetsKept(g.fleets, g'.fleets)
    ensures g'.planets.Keys == g.planets.Keys
  {
    hide PlanetScripts, FleetsPhase, PlanetOk, GoodFleet, Ranked, EmptyFleet;
    ScriptsDone(g, main, rank, input);
    var g3 := PlanetScripts(g, input, |input.order|).value;
    FleetPhaseDone(g3, main, rank, input);
    g' := FleetsPhase(g3, input);
  }

  /** A completed round keeps the invariant; every move ordered before it is
      carried out, the orders left are its own, and fleets moved at most one cell. */
  lemma CompletedRound(w: World, input: RoundInput)
    requires Inv(w) && ValidInput(w, input) && w.galaxy.round < MAX32 && Completes(w, input)
    ensures var w' := Round(w, input);
      && Inv(w') && w'.galaxy.round == w.galaxy.round + 1
      && OrdersOfRound(w'.galaxy.fleets, w'.galaxy.round)
      && FleetsAdvanced(w, w')
  {
    hide PlanetTasks, FleetTasks, PlanetScripts, FleetsPhase, FightsPhase, CreateMains;
    hide PlanetOk, GoodFleet, Ranked, EmptyFleet, StocksLimited, PlanetsVisited, SortedKeys, FreeStocksModest, Enumerates;
    var rank :| GalaxyOk(w.galaxy, w.main, rank);
    var s := WorkingCopy(w, input);
    var g1, g2, rank' := TaskPhases(w, input, rank);
    var g4 := ScriptPhases(g2, s.main, rank', input);
    FightPhaseDone(g4, s.main, rank', input);
    var w' := Round(w, input);
    assert w'.galaxy == FightsPhase(g4, s.main, input).value;
    forall id | id in w'.galaxy.fleets && id in w.galaxy.fleets
      ensures w'.galaxy.fleets[id].position == Destination(w.galaxy.fleets[id])
      ensures Adjacent(w.galaxy.fleets[id].position, w'.galaxy.fleets[id].position)
      ensures w'.galaxy.fleets[id].owner == w.galaxy.fleets[id].owner
    {
      assert FleetMoved(id, w.galaxy.fleets[id], g2.fleets[id], g2.planets, g2.round);
    }
  }

  lemma VisitedKeys(ps0: PlanetMap, ps: PlanetMap)
    requires PlanetsVisited(ps0, ps)
    ensures ps.Keys == ps0.Keys
  {
  }

  /** A round that throws leaves the universe as it was, one round older. */
  lemma AbandonedRound(w: World, input: RoundInput)
    requires Inv(w) && ValidInput(w, input) && !Completes(w, input)
    ensures var w' := Round(w, input);
      Inv(w') && w'.galaxy == w.galaxy.(round := w.galaxy.round + 1)
  {
    hide RoundPhases, CreateMains, PlanetOk, Ranked;
    var rank :| GalaxyOk(w.galaxy, w.main, rank);
    StartReady(w, input, rank);
    MoreMainsRanked(w.galaxy.planets, w.main, WorkingCopy(w, input).main, rank);
    OlderFleetsOk(w.galaxy);
    assert GalaxyOk(Round(w, input).galaxy, Round(w, input).main, rank);
  }

  lemma OlderFleetsOk(g: Galaxy)
    requires FleetsOk(g.fleets, g.planets, g.nextFleetId, g.round)
    ensures FleetsOk(g.fleets, g.planets, g.nextFleetId, g.round + 1)
  {
  }

  // --------------------------------------------------------------- runs

  ghost function Run(w: World, inputs: seq<RoundInput>): World {
    if inputs == [] then w else Round(Run(w, inputs[..|inputs| - 1]), inputs[|inputs| - 1])
  }

  ghost predicate ValidRun(w: World, inputs: seq<RoundInput>) {
    inputs == [] ||
    (ValidRun(w, inputs[..|inputs| - 1]) && ValidInput(Run(w, inputs[..|inputs| - 1]), inputs[|inputs| - 1]))
  }

  /** The invariant holds in every state of every run, whatever scripts, dice
      and players do, for as long as the 32-bit round counter does not wrap. */
  lemma {:induction false} EveryRunKeepsInv(w: World, inputs: seq<RoundInput>)
    requires Inv(w) && ValidRun(w, inputs) && w.galaxy.round + |inputs| <= MAX32
    ensures Inv(Run(w, inputs))
    ensures Run(w, inputs).galaxy.round == w.galaxy.round + |inputs|
    decreases |inputs|
  {
    hide Round, Inv, Completes, ValidInput;
    if inputs != [] {
      var front, last := inputs[..|inputs| - 1], inputs[|inputs| - 1];
      EveryRunKeepsInv(w, front);
      if Completes(Run(w, front), last) {
        CompletedRound(Run(w, front), last);
      } else {
        AbandonedRound(Run(w, front), last);
      }
    }
  }

  // ------------------------------------------ what the invariant means

  /** In a reachable state every owned planet leads through planets of its owner
      to the owner's main planet, the only one that is its own parent. */
  lemma ReachableForest(w: World, c: Coord) returns (n: nat)
    requires Inv(w) && Owned(w.galaxy.planets, c)
    ensures w.galaxy.planets[c].owner in w.main
    ensures Ancestor(w.galaxy.planets, c, n) == w.main[w.galaxy.planets[c].owner]
    ensures forall k :: 0 <= k <= n ==>
      var a := Ancestor(w.galaxy.planets, c, k);
      && Owned(w.galaxy.planets, a)
      && w.galaxy.planets[a].owner == w.galaxy.planets[c].owner
      && (w.galaxy.planets[a].parent == a <==> k == n)
  {
    var rank :| GalaxyOk(w.galaxy, w.main, rank);
    assert Linked(w.galaxy.planets, w.main, rank, c);
    n := ChainReachesMain(w.galaxy.planets, w.main, rank, c);
  }

  /** In a reachable state a planet has no level above 23 and no upgrade pending
      beyond it, at most one ship in its hangar and none while one is being
      built; a free planet has nothing but its stock and is its own parent. */
  lemma ReachablePlanet(w: World, c: Coord)
    requires Inv(w) && c in w.galaxy.planets
    ensures var p := w.galaxy.planets[c];
      && (forall b :: 0 <= b < BUILDINGS ==> p.buildings[b] <= MAX_LEVEL)
      && Sum(p.hangar) <= 1
      && (p.task.Some? && p.task.value.kind == UpgradeBuilding ==>
           p.task.value.value < BUILDINGS && p.buildings[p.task.value.value] as int + 1 <= MAX_LEVEL)
      && (p.task.Some? && p.task.value.kind == MakeShip ==> p.hangar == NO_SHIPS)
      && (p.owner == NO_PLAYER ==>
           p.task == None && p.buildings == NO_BUILDINGS && p.cannons == NO_CANNONS &&
           p.hangar == NO_SHIPS && p.parent == c)
      && (p.owner != NO_PLAYER ==> p.buildings[COMMAND_CENTER] >= 1)
  {
    var rank :| GalaxyOk(w.galaxy, w.main, rank);
    NoShipsSum();
  }

  /** In a reachable state a fleet has ships, its own id below the next one, a
      place on the map, an origin its owner holds, and orders it can carry out. */
  lemma ReachableFleet(w: World, id: FleetId)
    requires Inv(w) && id in w.galaxy.fleets
    ensures var f := w.galaxy.fleets[id];
      && f.id == id < w.galaxy.nextFleetId
      && f.ships != NO_SHIPS && Sum(f.ships) < TWO31
      && InMap(f.position)
      && Owned(w.galaxy.planets, f.origin) && w.galaxy.planets[f.origin].owner == f.owner
      && (f.task.Some? ==> FleetTaskOk(f, f.task.value, w.galaxy.planets.Keys, w.galaxy.round))
  {
    var rank :| GalaxyOk(w.galaxy, w.main, rank);
    assert GoodFleet(id, w.galaxy.fleets[id], w.galaxy.planets, w.galaxy.round);
    EmptyFleetIff(w.galaxy.fleets[id]);
  }

  // -------------------------------------------------- when rounds complete

  /** No free planet holds so much metal that a colony on it could not pay. */
  ghost predicate FreeStocksModest(planets: PlanetMap) {
    forall c :: c in planets && !Owned(planets, c) ==> planets[c].stock[METAL] <= STRANGE_LIMIT - 2000
  }

  lemma ScriptsComplete(g0: Galaxy, g: Galaxy, input: RoundInput)
    requires PlanetsVisited(g0.planets, g.planets) && PlanetsOk(g.planets)
    requires StocksLimited(g0.planets) && FreeStocksModest(g0.planets)
    requires Enumerates(input.order, g.planets.Keys)
    ensures PlanetScripts(g, input, |input.order|).Done?
  {
    hide PlanetOk, PlanetScripts;
    PlanetScriptsKeep(g, input, |input.order|);
    forall c | Owned(g.planets, c)
      ensures g.planets[c].stock[METAL] <= STRANGE_LIMIT
    {
      assert PlanetVisited(g0.planets[c], g.planets[c]);
    }
  }

  lemma WarCompletes(g: Galaxy, main: MainMap, rank: Rank, input: RoundInput)
    requires MidRound(g, main, rank, g.round) && NoEmptyFleet(g.fleets) && g.round <= MAX32
    requires Enumerates(input.order, g.planets.Keys)
    requires NoBystanders(g, input)
    ensures FightsPhase(g, main, input).Done?
  {
    hide PlanetOk, Ranked, FightPlaces, LossesSoFar, FleetFought, Fighters, NoBystanders, PlanetsAfterLosses, FleetsAfterLosses;
    ShipsCountable(g);
    PeaceSoFar(g);
    RollIs(g, input.order);
    FightersPresent(g, input.order);
    NoLossesYet(g.planets);
    WarPlacesNeverThrow(g, War(g.planets, g.fleets, {}, []), Fighters(g, input.order), input, 0);
  }

  /** The universe as the fights of a round find it. */
  ghost function BeforeFights(w: World, input: RoundInput): Attempt<Galaxy> {
    match PlanetTasks(WorkingCopy(w, input).galaxy, input, |input.order|)
    case Throws => Throws
    case Done(g1) =>
      var ids := SortedKeys(g1.fleets.Keys);
      match FleetTasks(g1, input, ids, |ids|)
      case Throws => Throws
      case Done(g2) =>
        match PlanetScripts(g2, input, |input.order|)
        case Throws => Throws
        case Done(g3) => Done(FleetsPhase(g3, input))
  }

  /** Nothing before the fights throws while no free planet holds two billion
      metal, and a round whose fights find no bystander in any place completes. */
  lemma RoundCompletesInPlaces(w: World, input: RoundInput)
    requires Inv(w) && ValidInput(w, input) && w.galaxy.round < MAX32
    requires FreeStocksModest(w.galaxy.planets)
    ensures BeforeFights(w, input).Done?
    ensures NoBystanders(BeforeFights(w, input).value, input) ==> Completes(w, input)
    ensures forall c :: Owned(BeforeFights(w, input).value.planets, c) ==>
      BeforeFights(w, input).value.planets[c].owner in WorkingCopy(w, input).main
    ensures forall id :: id in BeforeFights(w, input).value.fleets ==>
      BeforeFights(w, input).value.fleets[id].owner in WorkingCopy(w, input).main
  {
    hide PlanetTasks, FleetTasks, PlanetScripts, FleetsPhase, FightsPhase, CreateMains, NoBystanders;
    hide PlanetOk, GoodFleet, EmptyFleet, StocksLimited, PlanetsVisited, SortedKeys, FreeStocksModest, Ranked, Enumerates;
    var rank :| GalaxyOk(w.galaxy, w.main, rank);
    var s := WorkingCopy(w, input);
    var g1, g2, rank' := TaskPhases(w, input, rank);
    ScriptsComplete(g1, g2, input);
    var g4 := ScriptPhases(g2, s.main, rank', input);
    OwnersHaveMains(g4.planets, s.main, rank');
    FleetOwnersHaveMains(g4, s.main, rank');
    if NoBystanders(g4, input) {
      WarCompletes(g4, s.main, rank', input);
    }
  }

  lemma FleetOwnersHaveMains(g: Galaxy, main: MainMap, rank: Rank)
    requires MidRound(g, main, rank, g.round)
    ensures forall id :: id in g.fleets ==> g.fleets[id].owner in main
  {
    forall id | id in g.fleets
      ensures g.fleets[id].owner in main
    {
      assert GoodFleet(id, g.fleets[id], g.planets, g.round);
      assert Linked(g.planets, main, rank, g.fleets[id].origin);
    }
  }

  lemma NoBystandersAnywhere(g: Galaxy, input: RoundInput, players: set<PlayerId>)
    requires NoBystander(players, Hostilities(input.answers))
    requires forall c :: Owned(g.planets, c) ==> g.planets[c].owner in players
    requires forall id :: id in g.fleets ==> g.fleets[id].owner in players
    ensures NoBystanders(g, input)
  {
    hide Hostilities, NoBystander;
    forall c
      ensures NoBystander(StayersAt(g, c, input.escapes), Hostilities(input.answers))
    {
      FewerBystanders(StayersAt(g, c, input.escapes), players, Hostilities(input.answers));
    }
  }

  /** In particular a round completes whenever no player of the game can be a
      bystander of two hostile others, allies included. */
  lemma RoundCompletes(w: World, input: RoundInput)
    requires Inv(w) && ValidInput(w, input) && w.galaxy.round < MAX32
    requires FreeStocksModest(w.galaxy.planets)
    requires NoBystander(WorkingCopy(w, input).main.Keys, Hostilities(input.answers))
    ensures Completes(w, input)
  {
    hide BeforeFights, NoBystanders, NoBystander, Hostilities, Completes, Inv, ValidInput, FreeStocksModest, WorkingCopy;
    RoundCompletesInPlaces(w, input);
    NoBystandersAnywhere(BeforeFights(w, input).value, input, WorkingCopy(w, input).main.Keys);
  }

  lemma OwnersHaveMains(planets: PlanetMap, main: MainMap, rank: Rank)
    requires Ranked(planets, main, rank)
    ensures forall c :: Owned(planets, c) ==> planets[c].owner in main
  {
    forall c | Owned(planets, c)
      ensures planets[c].owner in main
    {
      assert Linked(planets, main, rank, c);
    }
  }

  lemma FreeStocksKept(ps0: PlanetMap, ps: PlanetMap)
    requires SameTree(ps0, ps) && FreeStocksModest(ps0)
    requires forall c :: c in ps0 && !Owned(ps0, c) ==> ps[c] == ps0[c]
    ensures FreeStocksModest(ps)
  {
  }

  lemma StartStocks(w: World, input: RoundInput, rank: Rank)
    requires GalaxyOk(w.galaxy, w.main, rank) && ValidInput(w, input) && FreeStocksModest(w.galaxy.planets)
    ensures FreeStocksModest(WorkingCopy(w, input).galaxy.planets)
  {
    hide PlanetOk, Ranked;
    var n := |input.creations|;
    CreatedStocks(w.galaxy.planets, w.main, input.creations, n);
  }

  lemma {:induction false} CreatedStocks(planets: PlanetMap, main: MainMap, creations: seq<(PlayerId, Coord)>, i: nat)
    requires i <= |creations| && FreeStocksModest(planets)
    ensures FreeStocksModest(CreateMains(planets, main, creations, i).0)
  {
    if i > 0 {
      CreatedStocks(planets, main, creations, i - 1);
    }
  }
}
