/** A whole round told from the universe before it: new players, orders carried
    out, scripts obeyed, fights and losses, each phase in its closed form. */
module RoundLaws {
  import opened Basics
  import opened Model
  import opened Planets
  import opened Fleets
  import opened Gather
  import opened GatherLaws
  import opened Forest
  import opened Phases
  import opened PhaseLaws
  import opened WarLaws
  import opened BattleLaws
  import opened TaskLaws
  import opened BuildLaws
  import opened ScriptLaws
  import opened RunLaws
  import opened PlaceLaws
  import opened LossLaws

  // ------------------------------------------------------------- fights

  /** The universe once the losses of a war are settled: the dead fleets and the
      lost planets are gone, what is left is as the war left it, and hangs below
      its nearest ancestor that was not lost. */
  ghost predicate Settled(g: Galaxy, war: War, main: MainMap, g': Galaxy)
    requires SameKeys(g, war)
  {
    && g' == g.(planets := g'.planets, fleets := g'.fleets) && g'.planets.Keys == g.planets.Keys
    && (forall c :: c in g.planets ==>
         && PlanetSettled(g.planets, main, war.lost, c, g'.planets[c])
         && (!Gone(g.planets, main, war.lost, c) ==> g'.planets[c].cannons == war.planets[c].cannons))
    && (forall id :: id in g'.fleets <==> id in g.fleets && id !in war.dead)
    && forall id :: id in g'.fleets ==>
         && g'.fleets[id] == war.fleets[id].(origin := g'.fleets[id].origin)
         && NearestSurvivor(g.planets, main, war.lost, g.fleets[id].origin, g'.fleets[id].origin)
  }

  lemma EmptyOrNot(s: seq<Coord>)
    ensures s == [] || exists c :: c in s
  {
    if s != [] {
      assert s[0] in s;
    }
  }

  /** Without fleets nobody fights, and nothing is lost. */
  lemma NoFleetsNoWar(g: Galaxy, war: War, input: RoundInput)
    requires g.fleets == map[] && SameKeys(g, war) && forall c :: PlaceTold(g, war, c, input)
    ensures war.lost == [] && war.planets == g.planets && war.fleets == g.fleets
  {
    hide FightAt, Fought;
    forall c
      ensures Untouched(g, war, c) && c !in war.lost
    {
      assert PlaceTold(g, war, c, input);
    }
    EmptyOrNot(war.lost);
    forall c | c in g.planets
      ensures war.planets[c] == g.planets[c]
    {
      assert Untouched(g, war, c);
    }
  }

  lemma CannonsStay(g: Galaxy, war: War, main: MainMap, rank: Rank, c: Coord)
    requires WarSoFar(g, war) && Ranked(war.planets, main, rank) && c in g.planets
    ensures c in PlanetsAfterLosses(war.planets, main, war.lost) && c in war.planets
    ensures !Gone(g.planets, main, war.lost, c) ==>
      PlanetsAfterLosses(war.planets, main, war.lost)[c].cannons == war.planets[c].cannons
  {
    hide Ranked, FleetsFought, PlanetsAfterLosses, NearestSurvivor, LoseUpTo;
    WarKeepsTree(g, war);
    LossesKeepForest(war.planets, main, rank, war.lost);
    SameGone(g.planets, war.planets, main, war.lost);
  }

  lemma FleetsLeft(g: Galaxy, main: MainMap, input: RoundInput, war: War)
    requires FightsPhase(g, main, input).Done? && g.fleets != map[]
    requires WarOf(g, input) == Done(war) && SameKeys(g, war)
    ensures var g' := FightsPhase(g, main, input).value;
      && g' == g.(planets := g'.planets, fleets := g'.fleets)
      && (forall id :: id in g'.fleets <==> id in g.fleets && id !in war.dead)
      && (forall id :: id in g'.fleets ==> g'.fleets[id] == war.fleets[id].(origin := g'.fleets[id].origin))
      && g'.planets == PlanetsAfterLosses(war.planets, main, war.lost)
  {
    hide FightPlaces, Fighters, PlanetsAfterLosses, Resolve, LoseUpTo;
  }

  /** The fight phase, whole. */
  lemma FightsOutcome(g: Galaxy, main: MainMap, rank: Rank, input: RoundInput)
    requires MidRound(g, main, rank, g.round) && NoEmptyFleet(g.fleets) && g.round <= MAX32
    requires Enumerates(input.order, g.planets.Keys)
    ensures FightsPhase(g, main, input).Throws? <==> SomeFightThrows(g, input)
    ensures FightsPhase(g, main, input).Done? ==>
      && WarOf(g, input).Done? && SameKeys(g, WarOf(g, input).value)
      && (forall c :: PlaceTold(g, WarOf(g, input).value, c, input))
      && Settled(g, WarOf(g, input).value, main, FightsPhase(g, main, input).value)
  {
    PhaseThrowsIff(g, main, input);
    hide FightsPhase, WarOf, PlaceTold, MidRound, Settled, SomeFightThrows, Enumerates;
    WarOutcome(g, input);
    if FightsPhase(g, main, input).Done? {
      if g.fleets == map[] {
        NothingSettled(g, main, rank, input);
      } else {
        WarSettled(g, main, rank, input);
      }
    }
  }

  lemma PhaseThrowsIff(g: Galaxy, main: MainMap, input: RoundInput)
    requires Enumerates(input.order, g.planets.Keys)
    ensures FightsPhase(g, main, input).Throws? <==> SomeFightThrows(g, input)
  {
    hide FightPlaces, Fighters, FightAt, Enumerates, PlanetsAfterLosses, FleetsAfterLosses;
    WarOutcome(g, input);
    if g.fleets == map[] {
      forall c
        ensures !TwoPlayersAt(g, c, {})
      {
      }
    }
  }

  lemma NothingSettled(g: Galaxy, main: MainMap, rank: Rank, input: RoundInput)
    requires MidRound(g, main, rank, g.round) && g.fleets == map[] && Enumerates(input.order, g.planets.Keys)
    requires WarOf(g, input).Done? && SameKeys(g, WarOf(g, input).value)
    requires forall c :: PlaceTold(g, WarOf(g, input).value, c, input)
    ensures FightsPhase(g, main, input) == Done(g)
    ensures Settled(g, WarOf(g, input).value, main, g)
  {
    hide WarOf, PlaceTold, MidRound, PlanetSettled, Enumerates;
    var war := WarOf(g, input).value;
    NoFleetsNoWar(g, war, input);
    forall c | c in g.planets
      ensures PlanetSettled(g.planets, main, war.lost, c, g.planets[c])
    {
      NobodyFought(g, main, rank, c);
    }
  }

  lemma WarSettled(g: Galaxy, main: MainMap, rank: Rank, input: RoundInput)
    requires MidRound(g, main, rank, g.round) && NoEmptyFleet(g.fleets) && g.round <= MAX32 && g.fleets != map[]
    requires Enumerates(input.order, g.planets.Keys) && FightsPhase(g, main, input).Done?
    requires WarOf(g, input).Done? && SameKeys(g, WarOf(g, input).value)
    ensures Settled(g, WarOf(g, input).value, main, FightsPhase(g, main, input).value)
  {
    hide WarOf, FightsPhase, MidRound, PlanetSettled, NearestSurvivor, WarSoFar, Ranked, Enumerates, NoEmptyFleet;
    var war := WarOf(g, input).value;
    var lost := FightsSettle(g, main, rank, input);
    WarDone(g, main, rank, input);
    FleetsLeft(g, main, input, war);
    PlanetsInWar(g, war, main, rank);
    forall c | c in g.planets
      ensures c in PlanetsAfterLosses(war.planets, main, war.lost)
      ensures !Gone(g.planets, main, war.lost, c) ==>
        PlanetsAfterLosses(war.planets, main, war.lost)[c].cannons == war.planets[c].cannons
    {
      CannonsStay(g, war, main, rank, c);
    }
  }

  // ------------------------------------------------------------- rounds

  /** The script phase of the fleets: gathered, then acting. */
  ghost predicate FleetsPlayed(g: Galaxy, g': Galaxy, input: RoundInput) {
    var (gathered, planets) := GatherFrom(input.gather, FleetMultimap(g.fleets), g.planets, 0);
    && g' == g.(fleets := g'.fleets, planets := g'.planets)
    && AllIdle(gathered)
    && FleetsActed(gathered, g'.fleets, planets, input, g.round)
    && Stocked(gathered, planets, g'.planets, input, |gathered|)
  }

  /** The task phases, from the world with its new players on. */
  ghost predicate OrdersDone(w: World, s: World, g1: Galaxy, g2: Galaxy, input: RoundInput) {
    && s.galaxy == w.galaxy.(round := w.galaxy.round + 1, planets := s.galaxy.planets)
    && MainsCreated(w.galaxy.planets, w.main, input.creations, |input.creations|, s.galaxy.planets, s.main)
    && TasksBuilt(s.galaxy, g1, input, |input.order|)
    && TasksDone(g1, g2, input, SortedKeys(g1.fleets.Keys), |SortedKeys(g1.fleets.Keys)|)
  }

  lemma StartOutcome(w: World, input: RoundInput)
    requires Inv(w) && ValidInput(w, input)
    ensures var s := WorkingCopy(w, input);
      && s.galaxy == w.galaxy.(round := w.galaxy.round + 1, planets := s.galaxy.planets)
      && MainsCreated(w.galaxy.planets, w.main, input.creations, |input.creations|, s.galaxy.planets, s.main)
  {
    hide CreateMains, MainsCreated, Inv;
    CreationsOutcome(w.galaxy.planets, w.main, input.creations, |input.creations|);
  }

  /** A round from the universe before it.  The orders given before it are carried
      out first.  It is abandoned exactly when a planet accepts an order that
      leaves it too much metal or a fight throws, and then only counts.  Else
      planet and fleet scripts are obeyed, the places are fought over, and the
      losses settled. */
  lemma RoundOutcome(w: World, input: RoundInput) returns (s: World, g1: Galaxy, g2: Galaxy, g3: Galaxy, g4: Galaxy, war: War)
    requires Inv(w) && ValidInput(w, input) && w.galaxy.round < MAX32
    ensures OrdersDone(w, s, g1, g2, input)
    ensures !SomeLeavesTooMuch(g2, input, |input.order|) ==>
      ScriptsObeyed(g2, g3, input, |input.order|) && FleetsPlayed(g3, g4, input)
    ensures Completes(w, input) <==>
      !SomeLeavesTooMuch(g2, input, |input.order|) && !SomeFightThrows(g4, input)
    ensures Completes(w, input) ==>
      && SameKeys(g4, war) && (forall c :: PlaceTold(g4, war, c, input))
      && Settled(g4, war, s.main, Round(w, input).galaxy)
    ensures Round(w, input).main == s.main
    ensures !Completes(w, input) ==> Round(w, input).galaxy == w.galaxy.(round := w.galaxy.round + 1)
  {
    hide PlanetTasks, FleetTasks, PlanetScripts, FleetsPhase, FightsPhase, CreateMains;
    hide PlanetOk, GoodFleet, Ranked, EmptyFleet, StocksLimited, PlanetsVisited, SortedKeys, FreeStocksModest, Enumerates;
    hide MainsCreated, TasksBuilt, TasksDone, ScriptsObeyed, SomeLeavesTooMuch, SomeFightThrows, Settled, PlaceTold, AllWaiting;
    s := WorkingCopy(w, input);
    StartOutcome(w, input);
    g1, g2 := OrdersCarriedOut(w, input);
    var rank :| GalaxyOk(w.galaxy, w.main, rank);
    var h1, h2, rank' := TaskPhases(w, input, rank);
    assert g1 == h1 && g2 == h2;
    PlanetScriptsOutcome(g2, input, |input.order|);
    g3, g4, war := g2, g2, War(map[], map[], {}, []);
    if PlanetScripts(g2, input, |input.order|).Done? {
      g3 := PlanetScripts(g2, input, |input.order|).value;
      ScriptsDone(g2, s.main, rank', input);
      g4 := ScriptPhases(g2, s.main, rank', input);
      FleetsPhaseOutcome(g3, input);
      FightsOutcome(g4, s.main, rank', input);
      if FightsPhase(g4, s.main, input).Done? {
        war := WarOf(g4, input).value;
      }
    }
  }
}
