/** From the answer of a fleet script to the place of the fleet rounds later. */
module MarchLaws {
  import opened Basics
  import opened Model
  import opened Planets
  import opened Fleets
  import opened Gather
  import opened Forest
  import opened Phases
  import opened PhaseLaws
  import opened WarLaws
  import opened ScriptLaws
  import opened RunLaws

  /** What the script of a fleet left it to do in the universe `g`, before anybody
      fought: what it asked for if it could, and nothing else. */
  ghost predicate LeftWith(f: Fleet, g: Galaxy, input: RoundInput) {
    && f.id in g.fleets
    && if f.id !in input.fleetActions then f.task == None
       else
         var a := input.fleetActions[f.id];
         match a.kind
         case Nothing => f.task == None
         case Move =>
           && (forall to :: LeadsTo(f.position, a, to) ==> f.task == Some(FleetTask(MoveTask, g.round, 1, to, false)))
           && ((forall to :: !LeadsTo(f.position, a, to)) ==> f.task == None)
         case Harvest =>
           f.task == if OverFree(f, g.planets) then Some(FleetTask(HarvestTask, g.round, 1, f.position, false)) else None
         case Colonize =>
           var caps := CapsOf(input, f.owner);
           f.task == if OverFree(f, g.planets) && g.fleets[f.id].ships[QUEEN] > 0 && caps.planetCount < caps.maxPlanetCount
                     then Some(FleetTask(ColonizeTask, g.round, 1, f.position, false)) else None
         case Drop => f.task == None
  }

  lemma ActedLeaves(f: Fleet, f': Fleet, planets: PlanetMap, g: Galaxy, input: RoundInput)
    requires f.task == None && ScriptActed(f, f', planets, input, g.round)
    requires f.id in g.fleets && g.fleets[f.id] == f' && SameOwners(planets, g.planets)
    ensures f'.id == f.id && LeftWith(f', g, input)
  {
    hide LeadsTo;
    ActedFleet(f, f', planets, input, g.round);
  }

  lemma WarLeaves(f: Fleet, f': Fleet, g: Galaxy, input: RoundInput)
    requires LeftWith(f, g, input) && CameThroughWar(f, f')
    ensures f'.id == f.id && LeftWith(f', g, input)
  {
    hide LeadsTo;
  }

  /** The fleets that leave the fleet phase have the orders of their scripts. */
  lemma PhaseLeaves(g: Galaxy, input: RoundInput, id: FleetId)
    requires PlanetsOk(g.planets) && FleetsOk(g.fleets, g.planets, g.nextFleetId, g.round)
    requires NoFleetTask(g.fleets) && Enumerates(input.order, g.planets.Keys)
    requires id in FleetsPhase(g, input).fleets
    ensures FleetsPhase(g, input).fleets[id].id == id && LeftWith(FleetsPhase(g, input).fleets[id], FleetsPhase(g, input), input)
  {
    hide FleetsPhase, GatherFrom, FleetMultimap, PlanetOk, GoodFleet, Stocked, ScriptActed, LeftWith, SameOwners;
    FleetsPhaseOutcome(g, input);
    var (gathered, planets) := GatherFrom(input.gather, FleetMultimap(g.fleets), g.planets, 0);
    var g' := FleetsPhase(g, input);
    StockedOwners(gathered, planets, g'.planets, input, |gathered|);
    var k :| 0 <= k < |gathered| && gathered[k].id == id;
    ActedLeaves(gathered[k], g'.fleets[id], planets, g', input);
  }

  /** Every fleet that comes out of a completed round, from where the order it had
      before sent it, has what its script ordered there. */
  lemma OrdersGiven(w: World, input: RoundInput, id: FleetId)
    requires Inv(w) && ValidInput(w, input) && w.galaxy.round < MAX32 && Completes(w, input)
    requires id in Round(w, input).galaxy.fleets
    ensures BeforeFights(w, input).Done?
    ensures var f, g := Round(w, input).galaxy.fleets[id], BeforeFights(w, input).value;
      && f.id == id && g.round == Round(w, input).galaxy.round && LeftWith(f, g, input)
      && (id in w.galaxy.fleets ==> f.position == Destination(w.galaxy.fleets[id]))
  {
    hide PlanetTasks, FleetTasks, PlanetScripts, FleetsPhase, FightsPhase, CreateMains, LeftWith;
    hide PlanetOk, GoodFleet, Ranked, EmptyFleet, StocksLimited, PlanetsVisited, SortedKeys, FreeStocksModest, Enumerates;
    CompletedRound(w, input);
    var rank :| GalaxyOk(w.galaxy, w.main, rank);
    var s := WorkingCopy(w, input);
    var g1, g2, rank' := TaskPhases(w, input, rank);
    var g4 := ScriptPhases(g2, s.main, rank', input);
    ScriptsDone(g2, s.main, rank', input);
    var g3 := PlanetScripts(g2, input, |input.order|).value;
    FightPhaseDone(g4, s.main, rank', input);
    var w' := Round(w, input);
    assert w'.galaxy == FightsPhase(g4, s.main, input).value;
    PhaseLeaves(g3, input, id);
    WarLeaves(g4.fleets[id], w'.galaxy.fleets[id], g4, input);
  }

  /** None of these rounds completes. */
  ghost predicate AllAbandoned(w: World, inputs: seq<RoundInput>) {
    forall k :: 0 <= k < |inputs| ==> !Completes(Run(w, inputs[..k]), inputs[k])
  }

  lemma AbandonedFront(w: World, inputs: seq<RoundInput>)
    requires inputs != [] && AllAbandoned(w, inputs)
    ensures AllAbandoned(w, inputs[..|inputs| - 1])
    ensures !Completes(Run(w, inputs[..|inputs| - 1]), inputs[|inputs| - 1])
  {
    hide Run, Completes;
    var front := inputs[..|inputs| - 1];
    forall k | 0 <= k < |front|
      ensures !Completes(Run(w, front[..k]), front[k])
    {
      assert front[..k] == inputs[..k];
    }
  }

  /** Abandoned rounds leave every fleet as it was. */
  lemma {:induction false} AbandonedRounds(w: World, inputs: seq<RoundInput>)
    requires Inv(w) && ValidRun(w, inputs) && w.galaxy.round + |inputs| <= MAX32
    requires AllAbandoned(w, inputs)
    ensures Inv(Run(w, inputs))
    ensures Run(w, inputs).galaxy == w.galaxy.(round := w.galaxy.round + |inputs|)
    decreases |inputs|
  {
    hide Round, Inv, Completes, ValidInput, AllAbandoned;
    if inputs != [] {
      var front := inputs[..|inputs| - 1];
      AbandonedFront(w, inputs);
      AbandonedRounds(w, front);
      AbandonedRound(Run(w, front), inputs[|inputs| - 1]);
    }
  }

  /** A move that a script asks for in one completed round, if it leads to a cell
      of the map, has taken the fleet there after the next completed round,
      however many rounds were abandoned in between, if the fleet is still there:
      from where it was, or from where its order before that sent it. */
  lemma MoveArrives(w: World, input: RoundInput, abandoned: seq<RoundInput>, last: RoundInput, id: FleetId, to: Coord)
    requires Inv(w) && ValidInput(w, input) && Completes(w, input)
    requires w.galaxy.round + |abandoned| + 2 <= MAX32
    requires var w1 := Round(w, input);
      && ValidRun(w1, abandoned) && AllAbandoned(w1, abandoned)
      && ValidInput(Run(w1, abandoned), last) && Completes(Run(w1, abandoned), last)
      && id in w1.galaxy.fleets && id in Round(Run(w1, abandoned), last).galaxy.fleets
    requires id in input.fleetActions && input.fleetActions[id].kind == Move
    requires var from := if id in w.galaxy.fleets then Destination(w.galaxy.fleets[id]) else Round(w, input).galaxy.fleets[id].position;
      LeadsTo(from, input.fleetActions[id], to)
    ensures Round(Run(Round(w, input), abandoned), last).galaxy.fleets[id].position == to
  {
    hide Round, Inv, Completes, ValidInput, LeadsTo, AllAbandoned, ValidRun, Run, BeforeFights;
    OrdersGiven(w, input, id);
    var w1 := Round(w, input);
    CompletedRound(w, input);
    AbandonedRounds(w1, abandoned);
    CompletedRound(Run(w1, abandoned), last);
  }
}
