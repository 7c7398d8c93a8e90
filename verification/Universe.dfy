/** The universe as the simulation mutates it: each method does in place what the
    functions of `Planets`, `Fleets` and `Phases` say, phase after phase. */
module Universes {
  import opened Basics
  import opened Model
  import Prices
  import opened Planets
  import opened Fleets
  import opened Multimap
  import opened Gather
  import opened Forest
  import opened Combat
  import opened Fight
  import opened FightLaws
  import opened Phases
  import opened PhaseLaws
  import opened WarLaws
  import opened BattleLaws
  import opened RunLaws

  class Universe {
    var planets: PlanetMap
    var fleets: FleetMap
    var nextFleetId: FleetId
    var roundCount: nat

    ghost function State(): Galaxy
      reads this
    {
      Galaxy(planets, fleets, nextFleetId, roundCount)
    }

    constructor Copy(other: Universe)
      ensures State() == other.State()
    {
      planets, fleets := other.planets, other.fleets;
      nextFleetId, roundCount := other.nextFleetId, other.roundCount;
    }

    // ------------------------------------------------ one planet's work

    /** `pay` on the planet at `c`. */
    method PayFrom(c: Coord, price: Resources) returns (thrown: bool)
      requires c in planets
      modifies this`planets
      ensures thrown <==> Pay(old(planets)[c].stock, price).Throws?
      ensures !thrown ==>
        planets == old(planets)[c := old(planets)[c].(stock := Pay(old(planets)[c].stock, price).value)]
    {
      var p := planets[c];
      var affordable := CanPay(p.stock, price);
      if !affordable {
        return true;
      }
      var stock := p.stock;
      for i := 0 to RESOURCES
        invariant |stock| == RESOURCES && planets == old(planets)
        invariant forall k :: 0 <= k < i ==> stock[k] == Subtract(p.stock, price)[k]
        invariant forall k :: i <= k < RESOURCES ==> stock[k] == p.stock[k]
      {
        stock := stock[i := stock[i] - price[i]];
      }
      assert stock == Subtract(p.stock, price);
      planets := planets[c := p.(stock := stock)];
      return stock[METAL] > STRANGE_LIMIT;
    }

    /** Records a task, then pays for it. */
    method StartTask(c: Coord, task: PlanetTask) returns (thrown: bool)
      requires c in planets
      modifies this`planets
      ensures thrown <==> Start(old(planets)[c], task).Throws?
      ensures !thrown ==> planets == old(planets)[c := Start(old(planets)[c], task).value]
    {
      if planets[c].task.Some? {
        return true;
      }
      planets := planets[c := planets[c].(task := Some(task))];
      thrown := PayFrom(c, task.startCost);
    }

    /** `applyPlanetAction` on the planet at `c`, fall-through included. */
    method ActOnPlanet(c: Coord, action: PlanetAction, duration: nat) returns (thrown: bool)
      requires c in planets
      modifies this`planets
      ensures thrown <==> ApplyPlanetAction(old(planets)[c], action, roundCount, duration).Throws?
      ensures !thrown ==>
        planets == old(planets)[c := ApplyPlanetAction(old(planets)[c], action, roundCount, duration).value]
    {
      thrown := false;
      var p := planets[c];
      if action.Kind() == BuildBuilding {
        if CanBuildBuilding(p, action.Building()) == BuildOk {
          var price := Prices.BuildingPrice(p.buildings[action.Building()] as int + 1).value;
          thrown := StartTask(c, PlanetTask(UpgradeBuilding, action.Building(), 0, roundCount, duration, price, false));
        }
      } else if action.Kind() == BuildCannon {
        if CanBuildCannon(p, action.Cannon()) == BuildOk {
          var price := MetalOnly(CANNON_LIST[action.Cannon()].metal);
          thrown := StartTask(c, PlanetTask(MakeCannon, action.Cannon(), 1, roundCount, duration, price, false));
        }
      } else if action.Kind() != NoOrder {
        if action.Kind() == StopBuilding {
          planets := planets[c := StopTask(p, UpgradeBuilding, action.Building())];
        }
        if CanBuildShip(planets[c], action.Ship()) == BuildOk {
          var price := MetalOnly(SHIP_LIST[action.Ship()].metal);
          thrown := StartTask(c, PlanetTask(MakeShip, action.Ship(), 1, roundCount, duration, price, false));
        }
      }
      assert !thrown ==> planets == old(planets)[c := planets[c]];
    }

    /** `planetRound` on the planet at `c`. */
    method PlayPlanet(c: Coord, input: RoundInput) returns (thrown: bool)
      requires Owned(planets, c)
      modifies this
      ensures thrown <==> PlanetRound(old(State()), c, input).Throws?
      ensures !thrown ==> State() == PlanetRound(old(State()), c, input).value
    {
      var p := planets[c];
      if p.task.Some? {
        var r := ExecPlanetTask(p, roundCount);
        if r.Throws? {
          return true;
        }
        p := r.value;
      }
      var caps := CapsOf(input, p.owner);
      if caps.fleetCount < caps.maxFleetCount && AccumulateInt(p.hangar) != 0 {
        var f := Fleet(nextFleetId, p.owner, c, c, p.hangar, NO_RESOURCES, None);
        nextFleetId := nextFleetId + 1;
        p := p.(hangar := NO_SHIPS);
        fleets := InsertNew(fleets, f);
      }
      p := DropExpired(p);
      var stock := RunBuildings(p);
      stock := LimitStock(AddTab(stock, input.crystals(c)));
      planets := planets[c := p.(stock := stock)];
      return false;
    }

    /** `execPlanetTasks`. */
    method ExecPlanetTasks(input: RoundInput) returns (thrown: bool)
      modifies this
      ensures thrown <==> PlanetTasks(old(State()), input, |input.order|).Throws?
      ensures !thrown ==> Done(State()) == PlanetTasks(old(State()), input, |input.order|)
    {
      ghost var g := State();
      for i := 0 to |input.order|
        invariant PlanetTasks(g, input, i) == Done(State())
      {
        var c := input.order[i];
        if Owned(planets, c) {
          thrown := PlayPlanet(c, input);
          if thrown {
            PlanetTasksThrown(g, input, i + 1, |input.order|);
            return;
          }
        }
      }
      return false;
    }

    static lemma {:induction false} PlanetTasksThrown(g: Galaxy, input: RoundInput, i: nat, n: nat)
      requires i <= n <= |input.order| && PlanetTasks(g, input, i).Throws?
      ensures PlanetTasks(g, input, n).Throws?
      decreases n
    {
      if i < n {
        PlanetTasksThrown(g, input, i, n - 1);
      }
    }

    // ------------------------------------------------------- fleet tasks

    /** `fleetRound` on one fleet. */
    method PlayFleet(id: FleetId, caps: Caps) returns (thrown: bool)
      requires id in fleets
      modifies this`planets, this`fleets
      ensures var r := FleetRound(old(planets), old(fleets)[id], caps, roundCount);
        && (thrown <==> r.Throws?)
        && (!thrown ==> fleets == old(fleets)[id := r.value.0] && planets == r.value.1)
    {
      var f := fleets[id];
      if f.task.Some? {
        if Due(f.task.value, roundCount) {
          var r := ExecFleetTask(planets, f, f.task.value, caps);
          if r.Throws? {
            return true;
          }
          planets := r.value.1;
          f := r.value.0.(task := None);
        } else if f.task.value.expired {
          f := f.(task := None);
        }
      }
      var cargo := LimitStock(f.cargo);
      fleets := fleets[id := f.(cargo := cargo)];
      return false;
    }

    /** `execFleetTasks`, in the order of the fleet map. */
    method ExecFleetTasks(input: RoundInput) returns (thrown: bool)
      modifies this`planets, this`fleets
      ensures var ids := SortedKeys(old(fleets).Keys);
        && (thrown <==> FleetTasks(old(State()), input, ids, |ids|).Throws?)
        && (!thrown ==> Done(State()) == FleetTasks(old(State()), input, ids, |ids|))
    {
      hide FleetTasks, FleetStep, FleetRound, SortedKeys;
      ghost var g := State();
      var ids := SortedKeys(fleets.Keys);
      FleetTasksUnfold(g, input, ids, 0, g);
      for i := 0 to |ids|
        invariant FleetTasks(g, input, ids, i) == Done(State())
        invariant fleets.Keys == old(fleets).Keys
      {
        var id := ids[i];
        FleetTasksUnfold(g, input, ids, i, State());
        thrown := PlayFleet(id, CapsOf(input, fleets[id].owner));
        if thrown {
          FleetTasksThrown(g, input, ids, i + 1, |ids|);
          return;
        }
      }
      return false;
    }

    static lemma FleetTasksUnfold(g: Galaxy, input: RoundInput, ids: seq<FleetId>, i: nat, g': Galaxy)
      requires i <= |ids|
      ensures FleetTasks(g, input, ids, 0) == Done(g)
      ensures i < |ids| && ids[i] in g'.fleets && FleetTasks(g, input, ids, i) == Done(g') ==>
        var id := ids[i];
        var r := FleetRound(g'.planets, g'.fleets[id], CapsOf(input, g'.fleets[id].owner), g'.round);
        FleetTasks(g, input, ids, i + 1) ==
          match r
          case Throws => Throws
          case Done(v) => Done(g'.(fleets := g'.fleets[id := v.0], planets := v.1))
    {
    }

    static lemma {:induction false} FleetTasksThrown(g: Galaxy, input: RoundInput, ids: seq<FleetId>, i: nat, n: nat)
      requires i <= n <= |ids| && FleetTasks(g, input, ids, i).Throws?
      ensures FleetTasks(g, input, ids, n).Throws?
      decreases n
    {
      if i < n {
        FleetTasksThrown(g, input, ids, i, n - 1);
      }
    }

    // ------------------------------------------------------ script phases

    /** `execPlanets`: applies the actions of the planet scripts. */
    method ExecPlanets(input: RoundInput) returns (thrown: bool)
      modifies this`planets
      ensures thrown <==> PlanetScripts(old(State()), input, |input.order|).Throws?
      ensures !thrown ==> Done(State()) == PlanetScripts(old(State()), input, |input.order|)
    {
      ghost var g := State();
      for i := 0 to |input.order|
        invariant PlanetScripts(g, input, i) == Done(State())
      {
        var c := input.order[i];
        if Owned(planets, c) && c in input.planetActions {
          thrown := ActOnPlanet(c, input.planetActions[c], input.durations(c));
          if thrown {
            PlanetScriptsThrown(g, input, i + 1, |input.order|);
            return;
          }
        }
      }
      return false;
    }

    static lemma {:induction false} PlanetScriptsThrown(g: Galaxy, input: RoundInput, i: nat, n: nat)
      requires i <= n <= |input.order| && PlanetScripts(g, input, i).Throws?
      ensures PlanetScripts(g, input, n).Throws?
      decreases n
    {
      if i < n {
        PlanetScriptsThrown(g, input, i, n - 1);
      }
    }

    /** `execFleets`: fills the local multimap, gathers, applies the actions and
        rebuilds the fleet map without the empty fleets. */
    method ExecFleets(input: RoundInput)
      requires forall id :: id in fleets ==> fleets[id].id == id
      modifies this`planets, this`fleets
      ensures State() == FleetsPhase(old(State()), input)
    {
      hide GatherFrom, SortedKeys;
      var fs := Fill(FleetsById(fleets, SortedKeys(fleets.Keys)), Where);
      FleetMultimapSorted(fleets);
      assert fs == FleetMultimap(fleets);
      fs, planets := GatherFleets(input.gather, fs, planets);
      ghost var gathered, ps := fs, planets;
      for i := 0 to |fs|
        invariant |fs| == |gathered|
        invariant (fs, planets) == FleetScripts(gathered, ps, input, roundCount, i)
      {
        var f := fs[i];
        if f.id in input.fleetActions {
          var a := input.fleetActions[f.id];
          fs := fs[i := FleetAfterAction(f, planets, a, CapsOf(input, f.owner), roundCount)];
          planets := PlanetsAfterAction(f, planets, a);
        }
      }
      var newFleets: FleetMap := map[];
      for i := 0 to |fs|
        invariant newFleets == Rebuilt(fs[..i])
      {
        assert fs[..i + 1][..i] == fs[..i];
        if !EmptyFleet(fs[i]) {
          newFleets := InsertNew(newFleets, fs[i]);
        }
      }
      assert fs[..|fs|] == fs;
      fleets := newFleets;
    }

    // ------------------------------------------------------------ fights

    /** Writes the fleets of a fight back and lists the dead among them. */
    method Return(ids: seq<FleetId>, fs: array<Fleet>)
      requires fs.Length == |ids|
      modifies this`fleets
      ensures fleets == WriteBack(old(fleets), ids, fs[..], |ids|)
    {
      for k := 0 to |ids|
        invariant fleets == WriteBack(old(fleets), ids, fs[..], k)
      {
        fleets := fleets[ids[k] := fs[k]];
      }
    }

    /** One place of `execFights`. */
    method FightAt(c: Coord, group: seq<Fighter>, input: RoundInput, dead0: set<FleetId>, lost0: seq<Coord>)
      returns (thrown: bool, ghost w: War, lost: seq<Coord>, dead: set<FleetId>)
      requires Present(War(planets, fleets, dead0, lost0), group)
      modifies this`planets, this`fleets
      ensures var r := FightPlace(War(old(planets), old(fleets), dead0, lost0), c, group, input);
        && (thrown <==> r.Throws?)
        && (!thrown ==> r == Done(War(planets, fleets, dead, lost)) && w == War(planets, fleets, dead, lost))
    {
      hide FightResult, AnyFight, WriteBack, FleetIds, DeadPlanet, Hostilities, Contested;
      ghost var w0 := War(planets, fleets, dead0, lost0);
      thrown, dead, lost := false, dead0, lost0;
      w := w0;
      var planet := if HasPlanet(group) && c in planets then Some(planets[c]) else None;
      var all := FleetIds(group, {});
      var contested := TwoPlayers(FleetsOf(fleets, all), planet);
      if !contested {
        return;
      }
      var ids := FleetIds(group, input.escapes);
      contested := TwoPlayers(FleetsOf(fleets, ids), planet);
      if !contested {
        return;
      }
      var h := CloseHostility(input.answers);
      ClosureIsHostilities(input.answers, h);
      var armies := new Fleet[|ids|](k requires 0 <= k < |ids| && ids[k] in fleets reads this => fleets[ids[k]]);
      assert armies[..] == FleetsOf(fleets, ids);
      var planet';
      thrown, planet' := FightArmies(armies, planet, h, input.draws(c));
      if thrown {
        return;
      }
      Return(ids, armies);
      if planet'.Some? {
        planets := planets[c := planet'.value];
      }
      if AnyFight(h, armies[..], planet') {
        dead := AddDead(dead, ids, armies[..]);
        if planet'.Some? && DeadPlanet(planet'.value, armies[..]) {
          lost := lost + [c];
        }
      }
      w := War(planets, fleets, dead, lost);
      assert w == AfterFight(w0, c, ids, armies[..], planet', h);
    }

    static method AddDead(dead0: set<FleetId>, ids: seq<FleetId>, fs: seq<Fleet>) returns (dead: set<FleetId>)
      requires |ids| == |fs|
      ensures dead == dead0 + DeadAmong(ids, fs)
    {
      dead := dead0;
      for k := 0 to |ids|
        invariant dead == dead0 + set i | 0 <= i < k && DeadFleet(fs[i]) :: ids[i]
      {
        if DeadFleet(fs[k]) {
          dead := dead + {ids[k]};
        }
      }
    }

    /** Whether the set of players of these armies has two elements. */
    static method TwoPlayers(fs: seq<Fleet>, planet: Option<Planet>) returns (two: bool)
      ensures two <==> Contested(fs, planet)
    {
      var owners := Owners(fs, planet);
      for i := 0 to |owners|
        invariant forall k :: 0 <= k < i ==> owners[k] == owners[0]
      {
        if owners[i] != owners[0] {
          assert owners[i] in owners && owners[0] in owners;
          return true;
        }
      }
      return false;
    }

    /** `onPlanetLose` for one lost coordinate. */
    method LosePlanet(c: Coord, main: MainMap, np0: map<Coord, Coord>) returns (np: map<Coord, Coord>)
      requires c in planets
      modifies this`planets
      ensures if IsMain(old(planets), main, c) then planets == old(planets) && np == np0
              else planets == old(planets)[c := Abandoned(old(planets)[c], c)] && np == np0[c := old(planets)[c].parent]
    {
      np := np0;
      if !IsMain(planets, main, c) {
        var p := planets[c];
        p := p.(owner := NO_PLAYER, buildings := NO_BUILDINGS, task := None);
        np := np[c := p.parent];
        p := p.(parent := c, hangar := NO_SHIPS);
        planets := planets[c := p];
      }
    }

    /** `onPlanetLose` for every lost coordinate. */
    method LosePlanets(lost: seq<Coord>, main: MainMap) returns (np: map<Coord, Coord>)
      requires DistinctOwned(planets, lost)
      modifies this`planets
      ensures (planets, np) == LoseUpTo(old(planets), main, lost, |lost|)
      ensures planets.Keys == old(planets).Keys
    {
      np := map[];
      for i := 0 to |lost|
        invariant (planets, np) == LoseUpTo(old(planets), main, lost, i)
        invariant planets.Keys == old(planets).Keys
      {
        assert Owned(old(planets), lost[i]);
        np := LosePlanet(lost[i], main, np);
      }
    }

    /** The losses and the reassignment of the orphans at the end of `execFights`.
        The pointer chases stop because the planets are ranked. */
    method Lose(lost: seq<Coord>, main: MainMap, order: seq<Coord>, ghost rank: Rank)
      requires Ranked(planets, main, rank) && DistinctOwned(planets, lost)
      requires Enumerates(order, planets.Keys)
      modifies this`planets, this`fleets
      ensures planets == PlanetsAfterLosses(old(planets), main, lost)
      ensures fleets == FleetsAfterLosses(old(planets), old(fleets), main, lost)
    {
      hide Ranked, Resolve, LoseUpTo, Descends, DistinctOwned;
      LossesDescend(planets, main, rank, lost);
      var np := LosePlanets(lost, main);
      ReassignFleets(np, rank);
      ReassignPlanets(np, order, rank);
    }

    /** Every fleet whose origin is lost gets its nearest ancestor that is not. */
    method ReassignFleets(np: map<Coord, Coord>, ghost rank: Rank)
      requires Descends(np, rank)
      modifies this`fleets
      ensures fleets == map id | id in old(fleets) :: old(fleets)[id].(origin := Resolve(np, old(fleets)[id].origin))
    {
      hide Resolve, Resolves, Descends, SortedKeys;
      ghost var fs0 := fleets;
      var ids := SortedKeys(fleets.Keys);
      for i := 0 to |ids|
        invariant fleets.Keys == fs0.Keys
        invariant forall k :: 0 <= k < i ==> fleets[ids[k]] == fs0[ids[k]].(origin := Resolve(np, fs0[ids[k]].origin))
        invariant forall k :: i <= k < |ids| ==> fleets[ids[k]] == fs0[ids[k]]
      {
        var f := fleets[ids[i]];
        var origin := Reassign(np, f.origin, rank);
        fleets := fleets[ids[i] := f.(origin := origin)];
      }
      forall id | id in fs0
        ensures fleets[id] == fs0[id].(origin := Resolve(np, fs0[id].origin))
      {
        var k :| 0 <= k < |ids| && ids[k] == id;
      }
    }

    static function Rehung(p: Planet, parent: Coord): Planet {
      if p.owner == NO_PLAYER then p else p.(parent := parent)
    }

    /** Every owned planet whose parent is lost gets its nearest ancestor that is
        not. */
    method ReassignPlanets(np: map<Coord, Coord>, order: seq<Coord>, ghost rank: Rank)
      requires Descends(np, rank) && Enumerates(order, planets.Keys)
      modifies this`planets
      ensures planets == map c | c in old(planets) :: Rehung(old(planets)[c], Resolve(np, old(planets)[c].parent))
    {
      hide Resolve, Resolves, Descends;
      ghost var ps0 := planets;
      for i := 0 to |order|
        invariant planets.Keys == ps0.Keys
        invariant forall k :: 0 <= k < i ==>
          planets[order[k]] == Rehung(ps0[order[k]], Resolve(np, ps0[order[k]].parent))
        invariant forall k :: i <= k < |order| ==> planets[order[k]] == ps0[order[k]]
      {
        var p := planets[order[i]];
        if p.owner != NO_PLAYER {
          var parent := Reassign(np, p.parent, rank);
          planets := planets[order[i] := p.(parent := parent)];
        }
      }
      forall c | c in ps0
        ensures planets[c] == Rehung(ps0[c], Resolve(np, ps0[c].parent))
      {
        var k :| 0 <= k < |order| && order[k] == c;
      }
    }

    // ------------------------------------------------ all the fights

    /** The loop over the places, found one after the other with `nextNot`. */
    method FightEverywhere(input: RoundInput, ghost g: Galaxy) returns (thrown: bool, dead: set<FleetId>, lost: seq<Coord>)
      requires g == State() && Enumerates(input.order, planets.Keys)
      modifies this`planets, this`fleets
      ensures thrown <==> WarOf(g, input).Throws?
      ensures !thrown ==> WarOf(g, input) == Done(War(planets, fleets, dead, lost))
    {
      hide FightPlace, FightPlaces, SortedKeys;
      var fighters := Fill(PlanetFighters(planets, input.order) + FleetFighters(fleets, SortedKeys(fleets.Keys)), At);
      FightersPresent(g, input.order);
      assert fighters == Fighters(g, input.order);
      thrown, dead, lost := false, {}, [];
      var i := 0;
      ghost var w := War(planets, fleets, dead, lost);
      while i < |fighters|
        invariant 0 <= i <= |fighters|
        invariant w == War(planets, fleets, dead, lost)
        invariant planets.Keys == g.planets.Keys && fleets.Keys == g.fleets.Keys
        invariant Present(w, fighters)
        invariant WarOf(g, input) == FightPlaces(w, fighters, input, i)
        decreases |fighters| - i
      {
        var j := NextNot(fighters, At, i);
        var c := fighters[i].at;
        assert j == NextNotFrom(fighters, At, c, i + 1);
        ghost var w0 := w;
        FightPlacesUnfold(w, fighters, input, i);
        thrown, w, lost, dead := FightAt(c, fighters[i..j], input, dead, lost);
        if thrown {
          return;
        }
        FightPlaceKeepsKeys(w0, c, fighters[i..j], input);
        i := j;
      }
      FightPlacesUnfold(w, fighters, input, i);
    }

    static lemma FightPlacesUnfold(w: War, fighters: seq<Fighter>, input: RoundInput, i: nat)
      requires i <= |fighters| && Present(w, fighters)
      ensures i == |fighters| ==> FightPlaces(w, fighters, input, i) == Done(w)
      ensures i < |fighters| ==>
        var c := fighters[i].at;
        var j := NextNotFrom(fighters, At, c, i + 1);
        Present(w, fighters[i..j]) &&
        match FightPlace(w, c, fighters[i..j], input)
        case Throws => FightPlaces(w, fighters, input, i).Throws?
        case Done(w') => Present(w', fighters) && FightPlaces(w, fighters, input, i) == FightPlaces(w', fighters, input, j)
    {
      hide FightPlace;
      if i < |fighters| {
        var c := fighters[i].at;
        var j := NextNotFrom(fighters, At, c, i + 1);
        if FightPlace(w, c, fighters[i..j], input).Done? {
          FightPlaceKeepsKeys(w, c, fighters[i..j], input);
        }
      }
    }

    /** `execFights`. */
    method ExecFights(input: RoundInput, main: MainMap, ghost rank: Rank) returns (thrown: bool)
      requires MidRound(State(), main, rank, roundCount) && NoEmptyFleet(fleets) && roundCount <= MAX32
      requires Enumerates(input.order, planets.Keys)
      modifies this`planets, this`fleets
      ensures thrown <==> FightsPhase(old(State()), main, input).Throws?
      ensures !thrown ==> Done(State()) == FightsPhase(old(State()), main, input)
    {
      hide MidRound, WarSoFar, FightPlaces, Fighters, PlanetsAfterLosses, FleetsAfterLosses;
      if fleets == map[] {
        return false;
      }
      ghost var g := State();
      var dead, lost;
      thrown, dead, lost := FightEverywhere(input, g);
      if thrown {
        return;
      }
      ghost var w := War(planets, fleets, dead, lost);
      WarDone(g, main, rank, input);
      PlanetsAfterWar(g, w, main, rank);
      Lose(lost, main, input.order, rank);
      fleets := fleets - dead;
    }

    // ------------------------------------------------------- new players

    /** `createMainPlanet` once a free planet has been drawn. */
    method CreateMainPlanet(pid: PlayerId, c: Coord)
      requires c in planets
      modifies this`planets
      ensures planets == old(planets)[c := MainPlanet(old(planets)[c], pid)]
    {
      var p := planets[c];
      p := p.(owner := pid);
      p := p.(buildings := p.buildings[COMMAND_CENTER := 1]);
      planets := planets[c := p.(stock := [4000, 400, 0])];
    }
  }

  class Simulation {
    var univ: Universe
    var mainPlanets: MainMap   // the database's side

    constructor (univ: Universe, mainPlanets: MainMap)
      ensures this.univ == univ && this.mainPlanets == mainPlanets
    {
      this.univ, this.mainPlanets := univ, mainPlanets;
    }

    ghost function State(): World
      reads this, univ
    {
      World(univ.State(), mainPlanets)
    }

    /** `createNewPlayersPlanets` on the working copy. */
    method CreateNewPlayers(copy: Universe, creations: seq<(PlayerId, Coord)>)
      requires forall i :: 0 <= i < |creations| ==> creations[i].1 in copy.planets
      modifies copy`planets, this`mainPlanets
      ensures (copy.planets, mainPlanets) == CreateMains(old(copy.planets), old(mainPlanets), creations, |creations|)
    {
      for i := 0 to |creations|
        invariant copy.planets.Keys == old(copy.planets).Keys
        invariant (copy.planets, mainPlanets) == CreateMains(old(copy.planets), old(mainPlanets), creations, i)
      {
        var (pid, c) := creations[i];
        copy.CreateMainPlanet(pid, c);
        mainPlanets := mainPlanets[pid := c];
      }
    }

    /** The phases of a round on the working copy. */
    method RunPhases(copy: Universe, input: RoundInput, ghost w: World, ghost rank: Rank) returns (completed: bool)
      requires GalaxyOk(w.galaxy, w.main, rank) && ValidInput(w, input) && w.galaxy.round < MAX32
      requires World(copy.State(), mainPlanets) == WorkingCopy(w, input)
      modifies copy
      ensures completed <==> Completes(w, input)
      ensures completed ==> World(copy.State(), mainPlanets) == Round(w, input)
    {
      hide PlanetTasks, FleetTasks, PlanetScripts, FleetsPhase, FightsPhase, CreateMains, GalaxyOk;
      hide MidRound, Enumerates, SortedKeys, PlanetsVisited, StocksLimited, FreeStocksModest, FleetMoved;
      var thrown := copy.ExecPlanetTasks(input);
      if thrown {
        return false;
      }
      thrown := copy.ExecFleetTasks(input);
      if thrown {
        return false;
      }
      ghost var g1, g2, rank' := TaskPhases(w, input, rank);
      assert copy.State() == g2;
      thrown := copy.ExecPlanets(input);
      if thrown {
        return false;
      }
      ghost var g4 := ScriptPhases(g2, mainPlanets, rank', input);
      IdsMatch(g2, mainPlanets, rank', input);
      copy.ExecFleets(input);
      assert copy.State() == g4;
      thrown := copy.ExecFights(input, mainPlanets, rank');
      return !thrown;
    }

    static lemma IdsMatch(g: Galaxy, main: MainMap, rank: Rank, input: RoundInput)
      requires MidRound(g, main, rank, g.round) && NoFleetTask(g.fleets)
      requires Enumerates(input.order, g.planets.Keys)
      requires PlanetScripts(g, input, |input.order|).Done?
      ensures var g' := PlanetScripts(g, input, |input.order|).value;
        forall id :: id in g'.fleets ==> g'.fleets[id].id == id
    {
      hide PlanetScripts;
      ScriptsDone(g, main, rank, input);
      FleetIdsMatch(PlanetScripts(g, input, |input.order|).value);
    }

    /** `round`: every phase works on a copy; only a round that gets to the end
        replaces the universe. */
    method PlayRound(input: RoundInput) returns (completed: bool)
      requires Inv(State()) && ValidInput(State(), input) && univ.roundCount < MAX32
      modifies this, univ
      ensures State() == Round(old(State()), input)
      ensures completed <==> Completes(old(State()), input)
      ensures Inv(State())
    {
      hide RoundPhases, CreateMains, GalaxyOk, PlanetOk;
      ghost var w := State();
      ghost var rank :| GalaxyOk(w.galaxy, w.main, rank);
      univ.roundCount := univ.roundCount + 1;
      var copy := new Universe.Copy(univ);
      CreateNewPlayers(copy, input.creations);
      assert World(copy.State(), mainPlanets) == WorkingCopy(w, input);
      completed := RunPhases(copy, input, w, rank);
      if completed {
        univ := copy;
        CompletedRound(w, input);
      } else {
        AbandonedRound(w, input);
      }
    }
  }
}
