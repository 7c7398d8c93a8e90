/** What the task and script phases of a round keep: the planets stay well
    formed, the forest stays a forest, and no fleet keeps a task. */
module PhaseLaws {
  import opened Basics
  import opened Model
  import opened Planets
  import opened Fleets
  import opened Forest
  import opened Phases

  // --------------------------------------------------------- invariants

  ghost predicate PlanetsOk(planets: PlanetMap) {
    forall c :: c in planets ==> PlanetOk(c, planets[c])
  }

  /** No planet has more cannons than rounds were played. */
  ghost predicate CannonsWithin(planets: PlanetMap, bound: nat) {
    forall c :: c in planets ==> Sum(planets[c].cannons) <= bound
  }

  /** A fleet with its id, whose origin belongs to its owner, ordered about in
      round `round` or before. */
  ghost predicate GoodFleet(id: FleetId, f: Fleet, planets: PlanetMap, round: nat) {
    && f.id == id
    && FleetOk(f, planets.Keys, round)
    && OriginOk(planets, f)
  }

  ghost predicate FleetsOk(fleets: FleetMap, planets: PlanetMap, nextId: FleetId, round: nat) {
    forall id :: id in fleets ==> id < nextId && GoodFleet(id, fleets[id], planets, round)
  }

  ghost predicate NoEmptyFleet(fleets: FleetMap) {
    forall id :: id in fleets ==> !EmptyFleet(fleets[id])
  }

  ghost predicate NoFleetTask(fleets: FleetMap) {
    forall id :: id in fleets ==> fleets[id].task == None
  }

  /** The tree may gain planets but no owned planet leaves it or moves in it. */
  ghost predicate TreeGrows(planets: PlanetMap, planets': PlanetMap) {
    && planets'.Keys == planets.Keys
    && forall c :: Owned(planets, c) ==>
         planets'[c].owner == planets[c].owner && planets'[c].parent == planets[c].parent
  }

  lemma GoodFleetGrows(id: FleetId, f: Fleet, planets: PlanetMap, planets': PlanetMap, round: nat)
    requires GoodFleet(id, f, planets, round) && TreeGrows(planets, planets')
    ensures GoodFleet(id, f, planets', round)
  {
  }

  // -------------------------------------------------------- new players

  /** Every new player is really new, and gets a planet that is still free. */
  ghost predicate ValidCreations(planets: PlanetMap, main: MainMap, creations: seq<(PlayerId, Coord)>) {
    && (forall i :: 0 <= i < |creations| ==>
         && creations[i].0 != NO_PLAYER && creations[i].0 !in main
         && creations[i].1 in planets && !Owned(planets, creations[i].1))
    && (forall i, j :: 0 <= i < j < |creations| ==>
         creations[i].0 != creations[j].0 && creations[i].1 != creations[j].1)
  }

  lemma MainPlanetOk(c: Coord, p: Planet, pid: PlayerId)
    requires PlanetOk(c, p) && p.owner == NO_PLAYER && pid != NO_PLAYER
    ensures PlanetOk(c, MainPlanet(p, pid)) && p.parent == c
    ensures MainPlanet(p, pid).cannons == p.cannons
  {
    NoShipsSum();
  }

  /** The planets and main planets after some of the creations. */
  ghost predicate Created(planets: PlanetMap, main: MainMap, creations: seq<(PlayerId, Coord)>, i: nat,
                          ps: PlanetMap, m: MainMap)
    requires i <= |creations|
  {
    && PlanetsOk(ps) && TreeGrows(planets, ps)
    && (forall c :: c in planets ==> ps[c].cannons == planets[c].cannons)
    && (forall c :: c in planets && (forall k :: 0 <= k < i ==> creations[k].1 != c) ==> ps[c] == planets[c])
    && (forall p :: p in m ==> p in main || exists k :: 0 <= k < i && creations[k].0 == p)
    && (forall p :: p in main ==> p in m && m[p] == main[p])
  }

  lemma CreationStep(planets: PlanetMap, main: MainMap, creations: seq<(PlayerId, Coord)>, i: nat,
                     ps: PlanetMap, m: MainMap)
    requires i < |creations| && ValidCreations(planets, main, creations) && PlanetsOk(planets)
    requires Created(planets, main, creations, i, ps, m)
    ensures var (pid, c) := creations[i];
      && c in planets && c in ps && pid != NO_PLAYER && pid !in m
      && ps[c] == planets[c] && ps[c].owner == NO_PLAYER && ps[c].parent == c
      && Created(planets, main, creations, i + 1, ps[c := MainPlanet(ps[c], pid)], m[pid := c])
  {
    hide PlanetOk, MainPlanet;
    var (pid, c) := creations[i];
    assert ps[c] == planets[c];
    MainPlanetOk(c, ps[c], pid);
  }

  lemma {:induction false} CreationsKeep(planets: PlanetMap, main: MainMap, rank: Rank,
                                         creations: seq<(PlayerId, Coord)>, i: nat)
    requires i <= |creations| && ValidCreations(planets, main, creations)
    requires PlanetsOk(planets) && Ranked(planets, main, rank)
    ensures var (ps, m) := CreateMains(planets, main, creations, i);
      Created(planets, main, creations, i, ps, m) && Ranked(ps, m, rank)
  {
    hide Ranked, Created, MainPlanet;
    if i == 0 {
      NothingCreated(planets, main, creations);
    } else {
      CreationsKeep(planets, main, rank, creations, i - 1);
      var (ps, m) := CreateMains(planets, main, creations, i - 1);
      var (pid, c) := creations[i - 1];
      CreationStep(planets, main, creations, i - 1, ps, m);
      MainPlanetRanked(ps, m, rank, c, pid);
    }
  }

  ghost predicate Named(creations: seq<(PlayerId, Coord)>, i: nat, p: PlayerId) {
    exists k :: 0 <= k < i && k < |creations| && creations[k].0 == p
  }

  ghost predicate Drawn(creations: seq<(PlayerId, Coord)>, i: nat, c: Coord) {
    exists k :: 0 <= k < i && k < |creations| && creations[k].1 == c
  }

  /** The player has this planet as main planet, with a command centre and the
      first stock. */
  ghost predicate HasMain(planets: PlanetMap, pid: PlayerId, c: Coord, ps: PlanetMap, m: MainMap) {
    && pid in m && m[pid] == c && c in planets && c in ps
    && ps[c] == planets[c].(owner := pid, buildings := planets[c].buildings[0 := 1], stock := [4000, 400, 0])
  }

  /** Each new player has the planet drawn for it; nobody and nothing else has
      changed. */
  ghost predicate MainsCreated(planets: PlanetMap, main: MainMap, creations: seq<(PlayerId, Coord)>, i: nat,
                               ps: PlanetMap, m: MainMap)
    requires i <= |creations|
  {
    && ps.Keys == planets.Keys
    && (forall k :: 0 <= k < i ==> HasMain(planets, creations[k].0, creations[k].1, ps, m))
    && (forall c :: c in planets && !Drawn(creations, i, c) ==> ps[c] == planets[c])
    && (forall p :: !Named(creations, i, p) ==> (p in m <==> p in main) && (p in m ==> m[p] == main[p]))
  }

  /** Nobody is named twice and no planet drawn twice. */
  lemma NextIsNew(planets: PlanetMap, main: MainMap, creations: seq<(PlayerId, Coord)>, i: nat)
    requires i < |creations| && ValidCreations(planets, main, creations)
    ensures creations[i].1 in planets
    ensures !Named(creations, i, creations[i].0) && !Drawn(creations, i, creations[i].1)
    ensures forall p :: Named(creations, i + 1, p) <==> Named(creations, i, p) || p == creations[i].0
    ensures forall c :: Drawn(creations, i + 1, c) <==> Drawn(creations, i, c) || c == creations[i].1
    ensures forall k :: 0 <= k < i ==> creations[k].0 != creations[i].0 && creations[k].1 != creations[i].1
  {
  }

  lemma HasMainStays(planets: PlanetMap, pid: PlayerId, c: Coord, ps: PlanetMap, m: MainMap, ps': PlanetMap, m': MainMap)
    requires HasMain(planets, pid, c, ps, m)
    requires c in ps' && ps'[c] == ps[c] && pid in m' && m'[pid] == m[pid]
    ensures HasMain(planets, pid, c, ps', m')
  {
  }

  lemma NewMain(planets: PlanetMap, pid: PlayerId, c: Coord, ps: PlanetMap, m: MainMap)
    requires c in planets && c in ps && ps[c] == planets[c]
    ensures HasMain(planets, pid, c, ps[c := MainPlanet(ps[c], pid)], m[pid := c])
  {
  }

  /** The main planets there are stay when one more is created elsewhere. */
  lemma MainsStay(planets: PlanetMap, main: MainMap, creations: seq<(PlayerId, Coord)>, i: nat,
                  ps: PlanetMap, m: MainMap, p: Planet)
    requires i < |creations| && ValidCreations(planets, main, creations)
    requires MainsCreated(planets, main, creations, i, ps, m)
    ensures var (pid, c) := creations[i];
      forall k :: 0 <= k < i ==> HasMain(planets, creations[k].0, creations[k].1, ps[c := p], m[pid := c])
  {
    hide HasMain, Named, Drawn;
    var (pid, c) := creations[i];
    NextIsNew(planets, main, creations, i);
    forall k | 0 <= k < i
      ensures HasMain(planets, creations[k].0, creations[k].1, ps[c := p], m[pid := c])
    {
      MainThere(planets, creations[k].0, creations[k].1, ps, m);
      HasMainStays(planets, creations[k].0, creations[k].1, ps, m, ps[c := p], m[pid := c]);
    }
  }

  lemma MainsCreatedStep(planets: PlanetMap, main: MainMap, creations: seq<(PlayerId, Coord)>, i: nat,
                         ps: PlanetMap, m: MainMap)
    requires i < |creations| && ValidCreations(planets, main, creations)
    requires MainsCreated(planets, main, creations, i, ps, m)
    ensures var (pid, c) := creations[i];
      c in ps && MainsCreated(planets, main, creations, i + 1, ps[c := MainPlanet(ps[c], pid)], m[pid := c])
  {
    hide Named, Drawn, ValidCreations, HasMain, MainPlanet;
    var (pid, c) := creations[i];
    NextIsNew(planets, main, creations, i);
    assert c in ps && ps[c] == planets[c];
    NewMain(planets, pid, c, ps, m);
    MainsStay(planets, main, creations, i, ps, m, MainPlanet(ps[c], pid));
    OthersStay(planets, main, creations, i, ps, m, MainPlanet(ps[c], pid));
    hide MainsCreated;
    MainsTogether(planets, main, creations, i + 1, ps[c := MainPlanet(ps[c], pid)], m[pid := c]);
  }

  lemma OthersStay(planets: PlanetMap, main: MainMap, creations: seq<(PlayerId, Coord)>, i: nat,
                   ps: PlanetMap, m: MainMap, p: Planet)
    requires i < |creations| && ValidCreations(planets, main, creations)
    requires MainsCreated(planets, main, creations, i, ps, m)
    ensures var (pid, c) := creations[i];
      && ps[c := p].Keys == planets.Keys
      && (forall d :: d in planets && !Drawn(creations, i + 1, d) ==> ps[c := p][d] == planets[d])
      && (forall q :: !Named(creations, i + 1, q) ==>
           (q in m[pid := c] <==> q in main) && (q in m[pid := c] ==> m[pid := c][q] == main[q]))
  {
    hide HasMain, Named, Drawn, ValidCreations;
    NextIsNew(planets, main, creations, i);
  }

  lemma MainsTogether(planets: PlanetMap, main: MainMap, creations: seq<(PlayerId, Coord)>, i: nat,
                      ps: PlanetMap, m: MainMap)
    requires i <= |creations| && ps.Keys == planets.Keys
    requires forall k :: 0 <= k < i ==> HasMain(planets, creations[k].0, creations[k].1, ps, m)
    requires forall d :: d in planets && !Drawn(creations, i, d) ==> ps[d] == planets[d]
    requires forall q :: !Named(creations, i, q) ==> (q in m <==> q in main) && (q in m ==> m[q] == main[q])
    ensures MainsCreated(planets, main, creations, i, ps, m)
  {
    hide HasMain, Named, Drawn;
  }

  lemma MainThere(planets: PlanetMap, pid: PlayerId, c: Coord, ps: PlanetMap, m: MainMap)
    requires HasMain(planets, pid, c, ps, m)
    ensures c in ps && pid in m
  {
  }

  lemma {:induction false} CreationsOutcome(planets: PlanetMap, main: MainMap, creations: seq<(PlayerId, Coord)>, i: nat)
    requires i <= |creations| && ValidCreations(planets, main, creations)
    ensures var (ps, m) := CreateMains(planets, main, creations, i);
      MainsCreated(planets, main, creations, i, ps, m)
  {
    hide MainsCreated, ValidCreations, MainPlanet;
    if i > 0 {
      CreationsOutcome(planets, main, creations, i - 1);
      var (ps, m) := CreateMains(planets, main, creations, i - 1);
      MainsCreatedStep(planets, main, creations, i - 1, ps, m);
    } else {
      NoMainsCreated(planets, main, creations);
    }
  }

  lemma NoMainsCreated(planets: PlanetMap, main: MainMap, creations: seq<(PlayerId, Coord)>)
    ensures MainsCreated(planets, main, creations, 0, planets, main)
  {
  }

  lemma NothingCreated(planets: PlanetMap, main: MainMap, creations: seq<(PlayerId, Coord)>)
    requires PlanetsOk(planets)
    ensures Created(planets, main, creations, 0, planets, main)
  {
  }

  // ------------------------------------------------------- planet tasks

  /** What a round does to one owned planet, whatever its task. */
  ghost predicate PlanetPlayed(c: Coord, p: Planet, q: Planet) {
    && PlanetOk(c, q)
    && q.owner == p.owner && q.parent == p.parent
    && Sum(q.cannons) <= Sum(p.cannons) + 1
    && forall res :: 0 <= res < RESOURCES ==> q.stock[res] <= STOCK_LIMIT
  }

  lemma TaskAddsOneCannon(p: Planet, round: nat)
    requires p.task.Some? && ExecPlanetTask(p, round).Done?
    requires Sum(p.cannons) < MAX32
    ensures Sum(ExecPlanetTask(p, round).value.cannons) <= Sum(p.cannons) + 1
  {
    var t := p.task.value;
    if t.kind == MakeCannon && t.value < CANNONS {
      SumNonNegative(p.cannons);
      SumUpdate(p.cannons, t.value, p.cannons[t.value] + 1);
    }
  }

  /** A new fleet leaves a hangar with its one ship and no task. */
  ghost predicate IsNewFleet(f: Fleet, planets: PlanetMap) {
    && Owned(planets, f.origin) && planets[f.origin].owner == f.owner
    && f.position == f.origin
    && f.task == None && Sum(f.ships) <= 1 && !EmptyFleet(f)
  }

  /** The fleets are as before but for at most one new fleet with the next id. */
  ghost predicate MaybeNewFleet(g: Galaxy, g': Galaxy) {
    || (g'.fleets == g.fleets && g'.nextFleetId == g.nextFleetId)
    || exists f :: IsNewFleet(f, g.planets) && f.id == g.nextFleetId &&
                   g'.fleets == g.fleets[f.id := f] && g'.nextFleetId == f.id + 1
  }

  lemma EndKeepsPlanet(c: Coord, q: Planet, crystals: Crystals)
    requires q.owner != NO_PLAYER && PlanetOk(c, DropExpired(q))
    ensures var e := EndOfPlanetRound(q, crystals);
      && PlanetOk(c, e)
      && e.(stock := q.stock, task := q.task) == q
      && forall res :: 0 <= res < RESOURCES ==> e.stock[res] <= STOCK_LIMIT
  {
    hide Production, AddTab, PlanetTaskOk, MineYield;
    var d := DropExpired(q);
    assert EndOfPlanetRound(q, crystals) == d.(stock := EndOfPlanetRound(q, crystals).stock);
    TaskOkIgnoresStock(d, EndOfPlanetRound(q, crystals).stock);
  }

  lemma TaskOkIgnoresStock(p: Planet, stock: Resources)
    ensures p.task.Some? ==> (PlanetTaskOk(p, p.task.value) <==> PlanetTaskOk(p.(stock := stock), p.task.value))
  {
  }

  lemma EmptiedHangarOk(c: Coord, q: Planet)
    requires q.owner != NO_PLAYER && PlanetOk(c, DropExpired(q))
    ensures PlanetOk(c, DropExpired(q.(hangar := NO_SHIPS)))
  {
    NoShipsSum();
  }

  lemma TaskPhaseKeeps(c: Coord, p: Planet, round: nat)
    requires p.owner != NO_PLAYER && PlanetOk(c, p) && Sum(p.cannons) < MAX32
    ensures TaskDone(p, round).Done?
    ensures var q := TaskDone(p, round).value;
      && PlanetOk(c, DropExpired(q)) && q.owner == p.owner && q.parent == p.parent
      && Sum(q.hangar) <= 1 && Sum(q.cannons) <= Sum(p.cannons) + 1
  {
    if p.task.Some? {
      TaskKeepsPlanet(c, p, round);
      TaskAddsOneCannon(p, round);
    }
  }

  /** One planet round never throws, keeps the planet, and launches at most one
      fleet, with the one ship of the hangar. */
  lemma OnePlanetRound(g: Galaxy, c: Coord, input: RoundInput)
    requires Owned(g.planets, c) && PlanetOk(c, g.planets[c]) && Sum(g.planets[c].cannons) < MAX32
    requires g.nextFleetId !in g.fleets
    ensures PlanetRound(g, c, input).Done?
    ensures var g' := PlanetRound(g, c, input).value;
      && c in g'.planets && g'.planets == g.planets[c := g'.planets[c]]
      && PlanetPlayed(c, g.planets[c], g'.planets[c])
      && SameTree(g.planets, g'.planets)
      && g'.round == g.round
      && MaybeNewFleet(g, g')
  {
    hide TaskDone, PlanetOk, EndOfPlanetRound, DropExpired;
    var p := g.planets[c];
    TaskPhaseKeeps(c, p, g.round);
    var q := TaskDone(p, g.round).value;
    if Launches(CapsOf(input, q.owner), q) {
      EmptiedHangarOk(c, q);
      EndKeepsPlanet(c, q.(hangar := NO_SHIPS), input.crystals(c));
      assert IsNewFleet(NewFleet(g, c, q), g.planets);
    } else {
      EndKeepsPlanet(c, q, input.crystals(c));
    }
  }

  /** Half way through the planets: those visited have played, the others are
      untouched. */
  ghost predicate PlanetsPlayed(ps0: PlanetMap, ps: PlanetMap, order: seq<Coord>, i: nat)
    requires i <= |order|
  {
    && SameTree(ps0, ps)
    && (forall k :: 0 <= k < i && Owned(ps0, order[k]) ==> PlanetPlayed(order[k], ps0[order[k]], ps[order[k]]))
    && (forall k :: i <= k < |order| && order[k] in ps0 ==> ps[order[k]] == ps0[order[k]])
    && (forall c :: c in ps0 && !Owned(ps0, c) ==> ps[c] == ps0[c])
  }

  /** The fleets there were are untouched; the new ones have one ship and no
      task. */
  ghost predicate FleetsLaunched(g0: Galaxy, g: Galaxy, round: nat) {
    && g.round == g0.round
    && FleetsOk(g.fleets, g.planets, g.nextFleetId, round)
    && (NoEmptyFleet(g0.fleets) ==> NoEmptyFleet(g.fleets))
    && (forall id :: id in g0.fleets ==> id in g.fleets && g.fleets[id] == g0.fleets[id])
    && (forall id :: id in g.fleets && id !in g0.fleets ==> g.fleets[id].task == None && Sum(g.fleets[id].ships) <= 1)
  }

  lemma PlanetsPlayedStep(ps0: PlanetMap, ps: PlanetMap, q: Planet, order: seq<Coord>, i: nat)
    requires i < |order| && PlanetsPlayed(ps0, ps, order, i)
    requires forall j, k :: 0 <= j < k < |order| ==> order[j] != order[k]
    requires Owned(ps0, order[i]) && PlanetPlayed(order[i], ps0[order[i]], q)
    ensures PlanetsPlayed(ps0, ps[order[i] := q], order, i + 1)
  {
    hide PlanetOk;
  }

  lemma NewFleetGood(f: Fleet, planets: PlanetMap, round: nat)
    requires IsNewFleet(f, planets) && InMap(f.position)
    ensures GoodFleet(f.id, f, planets, round)
  {
  }

  lemma FleetsLaunchedStep(g0: Galaxy, g: Galaxy, g': Galaxy, round: nat)
    requires FleetsLaunched(g0, g, round) && SameTree(g.planets, g'.planets)
    requires forall c :: Owned(g.planets, c) ==> InMap(c)
    requires g'.round == g.round && MaybeNewFleet(g, g')
    ensures FleetsLaunched(g0, g', round)
  {
    hide GoodFleet, EmptyFleet, Sum;
    forall id | id in g'.fleets
      ensures id < g'.nextFleetId && GoodFleet(id, g'.fleets[id], g'.planets, round)
    {
      if id !in g.fleets {
        NewFleetGood(g'.fleets[id], g.planets, round);
      }
      GoodFleetGrows(id, g'.fleets[id], g.planets, g'.planets, round);
    }
  }

  lemma PlanetTaskStep(g0: Galaxy, g: Galaxy, input: RoundInput, i: nat, round: nat)
    requires i < |input.order| && Enumerates(input.order, g0.planets.Keys)
    requires PlanetsOk(g0.planets) && CannonsWithin(g0.planets, MAX32 - 1)
    requires forall c :: Owned(g0.planets, c) ==> InMap(c)
    requires PlanetsPlayed(g0.planets, g.planets, input.order, i) && FleetsLaunched(g0, g, round)
    ensures PlanetRound(g, input.order[i], input).Done?
    ensures var g' := PlanetRound(g, input.order[i], input).value;
      PlanetsPlayed(g0.planets, g'.planets, input.order, i + 1) && FleetsLaunched(g0, g', round)
  {
    hide PlanetPlayed, GoodFleet, PlanetOk, MaybeNewFleet;
    var c := input.order[i];
    assert g.planets[c] == g0.planets[c];
    if Owned(g.planets, c) {
      OnePlanetRound(g, c, input);
      var g' := PlanetRound(g, c, input).value;
      PlanetsPlayedStep(g0.planets, g.planets, g'.planets[c], input.order, i);
      FleetsLaunchedStep(g0, g, g', round);
    }
  }

  lemma NothingPlayed(g: Galaxy, input: RoundInput, round: nat)
    requires FleetsOk(g.fleets, g.planets, g.nextFleetId, round)
    ensures PlanetsPlayed(g.planets, g.planets, input.order, 0) && FleetsLaunched(g, g, round)
  {
  }

  /** The planet tasks never throw.  Every owned planet plays exactly once: its
      stock ends within the limit; every fleet is kept, and each new one leaves
      an owned planet with one ship. */
  lemma {:induction false} PlanetTasksKeep(g: Galaxy, input: RoundInput, i: nat, round: nat)
    requires i <= |input.order| && Enumerates(input.order, g.planets.Keys)
    requires PlanetsOk(g.planets) && CannonsWithin(g.planets, MAX32 - 1)
    requires forall c :: Owned(g.planets, c) ==> InMap(c)
    requires FleetsOk(g.fleets, g.planets, g.nextFleetId, round)
    ensures PlanetTasks(g, input, i).Done?
    ensures PlanetsPlayed(g.planets, PlanetTasks(g, input, i).value.planets, input.order, i)
    ensures FleetsLaunched(g, PlanetTasks(g, input, i).value, round)
  {
    hide PlanetRound, PlanetsPlayed, FleetsLaunched;
    if i == 0 {
      NothingPlayed(g, input, round);
    } else {
      PlanetTasksKeep(g, input, i - 1, round);
      PlanetTaskStep(g, PlanetTasks(g, input, i - 1).value, input, i - 1, round);
    }
  }

  // -------------------------------------------------------- fleet tasks

  /** What the fleet tasks may do to a planet: nothing when it is owned; a free
      one may be emptied or become a colony with 2000 metal more. */
  ghost predicate PlanetVisited(p: Planet, q: Planet) {
    && q.cannons == p.cannons
    && (p.owner != NO_PLAYER ==> q == p)
    && (q.owner == NO_PLAYER ==> q == p.(stock := q.stock) && q.stock[METAL] <= p.stock[METAL])
    && q.stock[METAL] as int <= p.stock[METAL] as int + 2000
  }

  ghost predicate PlanetsVisited(ps0: PlanetMap, ps: PlanetMap) {
    && ps.Keys == ps0.Keys
    && PlanetsOk(ps)
    && forall c :: c in ps0 ==> PlanetVisited(ps0[c], ps[c])
  }

  lemma ColonyVisited(p0: Planet, p: Planet, f: Fleet)
    requires PlanetVisited(p0, p) && p.owner == NO_PLAYER && f.owner != NO_PLAYER
    ensures PlanetVisited(p0, Colony(p, f))
  {
  }

  /** The fleet after its task: idle, in order, where its order sent it, which
      is at most one cell away. */
  ghost predicate FleetMoved(id: FleetId, f: Fleet, f': Fleet, planets: PlanetMap, round: nat) {
    && f'.task == None
    && GoodFleet(id, f', planets, round)
    && f'.position == Destination(f) && Adjacent(f.position, f'.position)
    && f'.owner == f.owner && f'.origin == f.origin
  }

  lemma FleetStepFleet(g: Galaxy, id: FleetId, input: RoundInput, round: nat)
    requires id in g.fleets && GoodFleet(id, g.fleets[id], g.planets, round)
    requires g.round == round + 1
    ensures FleetStep(g, id, input).Done?
    ensures var g' := FleetStep(g, id, input).value;
      && id in g'.fleets && g'.fleets == g.fleets[id := g'.fleets[id]]
      && g'.round == g.round && g'.nextFleetId == g.nextFleetId
      && (TreeGrows(g.planets, g'.planets) ==> FleetMoved(id, g.fleets[id], g'.fleets[id], g'.planets, g.round))
  {
    hide FleetRound;
    RoundKeepsFleet(g.planets, g.fleets[id], CapsOf(input, g.fleets[id].owner), round);
  }

  lemma FleetStepPlanets(g: Galaxy, id: FleetId, input: RoundInput, round: nat, main: MainMap, rank: Rank, ps0: PlanetMap)
    returns (rank': Rank)
    requires id in g.fleets && GoodFleet(id, g.fleets[id], g.planets, round)
    requires g.round == round + 1
    requires PlanetsOk(g.planets) && Ranked(g.planets, main, rank) && PlanetsVisited(ps0, g.planets)
    ensures FleetStep(g, id, input).Done?
    ensures var ps := FleetStep(g, id, input).value.planets;
      TreeGrows(g.planets, ps) && PlanetsVisited(ps0, ps) && Ranked(ps, main, rank')
  {
    hide FleetRound, PlanetOk, PlanetVisited;
    rank' := rank;
    var f := g.fleets[id];
    var c := f.position;
    RoundKeepsFleet(g.planets, f, CapsOf(input, f.owner), round);
    RoundOnPlanets(g.planets, f, CapsOf(input, f.owner), round);
    var ps := FleetStep(g, id, input).value.planets;
    if ps != g.planets {
      var p := g.planets[c];
      if ps == g.planets[c := p.(stock := NO_RESOURCES)] {
        HarvestedOk(c, ps0[c], p);
        SameTreeRanked(g.planets, ps, main, rank);
      } else {
        ColonyOk(c, p, f);
        ColonyVisited(ps0[c], p, f);
        MainIsOwned(g.planets, main, rank, f.origin);
        rank' := ColonyRanked(g.planets, main, rank, c, f);
      }
    }
  }

  lemma HarvestedOk(c: Coord, p0: Planet, p: Planet)
    requires PlanetOk(c, p) && PlanetVisited(p0, p) && p.owner == NO_PLAYER
    ensures PlanetOk(c, p.(stock := NO_RESOURCES)) && PlanetVisited(p0, p.(stock := NO_RESOURCES))
  {
  }

  /** Half way through the fleets: those visited have moved, the others wait. */
  ghost predicate FleetsMoved(g0: Galaxy, g: Galaxy, ids: seq<FleetId>, i: nat)
    requires i <= |ids|
  {
    && g.fleets.Keys == g0.fleets.Keys && g.nextFleetId == g0.nextFleetId && g.round == g0.round
    && TreeGrows(g0.planets, g.planets)
    && (forall k :: 0 <= k < i && ids[k] in g0.fleets ==>
         FleetMoved(ids[k], g0.fleets[ids[k]], g.fleets[ids[k]], g.planets, g.round))
    && (forall k :: i <= k < |ids| && ids[k] in g0.fleets ==> g.fleets[ids[k]] == g0.fleets[ids[k]])
  }

  lemma FleetsMovedStep(g0: Galaxy, g: Galaxy, g': Galaxy, ids: seq<FleetId>, i: nat)
    requires i < |ids| && ids[i] in g0.fleets && FleetsMoved(g0, g, ids, i)
    requires forall j, k :: 0 <= j < k < |ids| ==> ids[j] != ids[k]
    requires ids[i] in g'.fleets && g'.fleets == g.fleets[ids[i] := g'.fleets[ids[i]]]
    requires g'.round == g.round && g'.nextFleetId == g.nextFleetId
    requires TreeGrows(g.planets, g'.planets)
    requires FleetMoved(ids[i], g.fleets[ids[i]], g'.fleets[ids[i]], g'.planets, g.round)
    ensures FleetsMoved(g0, g', ids, i + 1)
  {
    hide FleetOk;
    forall k | 0 <= k < i && ids[k] in g0.fleets
      ensures FleetMoved(ids[k], g0.fleets[ids[k]], g'.fleets[ids[k]], g'.planets, g'.round)
    {
      GoodFleetGrows(ids[k], g.fleets[ids[k]], g.planets, g'.planets, g.round);
    }
  }

  lemma FleetTaskStep(g0: Galaxy, g: Galaxy, input: RoundInput, ids: seq<FleetId>, i: nat, round: nat,
                      main: MainMap, rank: Rank)
    returns (rank': Rank)
    requires i < |ids| && ids[i] in g0.fleets && FleetsMoved(g0, g, ids, i)
    requires forall j, k :: 0 <= j < k < |ids| ==> ids[j] != ids[k]
    requires g0.round == round + 1
    requires GoodFleet(ids[i], g0.fleets[ids[i]], g0.planets, round)
    requires Ranked(g.planets, main, rank) && PlanetsVisited(g0.planets, g.planets)
    ensures FleetStep(g, ids[i], input).Done?
    ensures var g' := FleetStep(g, ids[i], input).value;
      FleetsMoved(g0, g', ids, i + 1) && PlanetsVisited(g0.planets, g'.planets) && Ranked(g'.planets, main, rank')
  {
    hide FleetStep, Ranked, PlanetVisited, PlanetOk, GoodFleet;
    var id := ids[i];
    GoodFleetGrows(id, g.fleets[id], g0.planets, g.planets, round);
    FleetStepFleet(g, id, input, round);
    rank' := FleetStepPlanets(g, id, input, round, main, rank, g0.planets);
    FleetsMovedStep(g0, g, FleetStep(g, id, input).value, ids, i);
  }

  lemma NothingMoved(g: Galaxy, ids: seq<FleetId>)
    requires PlanetsOk(g.planets)
    ensures FleetsMoved(g, g, ids, 0) && PlanetsVisited(g.planets, g.planets)
  {
  }

  /** The fleet tasks never throw.  Each fleet carries out the order of an earlier
      round exactly once and ends idle, where the order sent it. */
  lemma {:induction false} FleetTasksKeep(g: Galaxy, input: RoundInput, ids: seq<FleetId>, i: nat, round: nat,
                                          main: MainMap, rank: Rank)
    returns (rank': Rank)
    requires i <= |ids| && (forall k :: 0 <= k < |ids| ==> ids[k] in g.fleets)
    requires forall j, k :: 0 <= j < k < |ids| ==> ids[j] != ids[k]
    requires g.round == round + 1
    requires PlanetsOk(g.planets) && Ranked(g.planets, main, rank)
    requires FleetsOk(g.fleets, g.planets, g.nextFleetId, round)
    ensures FleetTasks(g, input, ids, i).Done?
    ensures var g' := FleetTasks(g, input, ids, i).value;
      FleetsMoved(g, g', ids, i) && PlanetsVisited(g.planets, g'.planets) && Ranked(g'.planets, main, rank')
  {
    hide FleetStep, Ranked, FleetsMoved, PlanetsVisited, PlanetOk, GoodFleet;
    if i == 0 {
      NothingMoved(g, ids);
      rank' := rank;
    } else {
      rank' := FleetTasksKeep(g, input, ids, i - 1, round, main, rank);
      rank' := FleetTaskStep(g, FleetTasks(g, input, ids, i - 1).value, input, ids, i - 1, round, main, rank');
    }
  }

  // ------------------------------------------------------ planet scripts

  /** What the scripts may do to a planet: task and stock, within the rules. */
  ghost predicate PlanetScripted(c: Coord, p: Planet, q: Planet) {
    && PlanetOk(c, q)
    && q == p.(task := q.task, stock := q.stock)
  }

  ghost predicate PlanetsScripted(ps0: PlanetMap, ps: PlanetMap, order: seq<Coord>, i: nat)
    requires i <= |order|
  {
    && ps.Keys == ps0.Keys
    && (forall c :: c in ps0 ==> PlanetScripted(c, ps0[c], ps[c]))
    && (forall k :: i <= k < |order| && order[k] in ps0 ==> ps[order[k]] == ps0[order[k]])
  }

  lemma ScriptStepKeeps(g0: Galaxy, g: Galaxy, input: RoundInput, i: nat)
    requires i < |input.order| && Enumerates(input.order, g0.planets.Keys)
    requires PlanetsScripted(g0.planets, g.planets, input.order, i)
    ensures var r := ScriptStep(g, input.order[i], input);
      && (r.Throws? ==> Owned(g0.planets, input.order[i]) && g0.planets[input.order[i]].stock[METAL] > STRANGE_LIMIT)
      && (r.Done? ==> PlanetsScripted(g0.planets, r.value.planets, input.order, i + 1))
      && (r.Done? ==> r.value == g.(planets := r.value.planets))
  {
    hide ApplyPlanetAction, PlanetOk;
    var c := input.order[i];
    if Owned(g.planets, c) && c in input.planetActions {
      assert g.planets[c] == g0.planets[c];
      ActionKeepsPlanet(c, g.planets[c], input.planetActions[c], g.round, input.durations(c));
    }
  }

  /** The planet scripts keep the planets; they can only throw on a planet that
      starts the phase with more than two billion metal. */
  lemma {:induction false} PlanetScriptsKeep(g: Galaxy, input: RoundInput, i: nat)
    requires i <= |input.order| && Enumerates(input.order, g.planets.Keys)
    requires PlanetsOk(g.planets)
    ensures var r := PlanetScripts(g, input, i);
      && (r.Throws? ==> exists c :: Owned(g.planets, c) && g.planets[c].stock[METAL] > STRANGE_LIMIT)
      && (r.Done? ==> PlanetsScripted(g.planets, r.value.planets, input.order, i))
      && (r.Done? ==> r.value == g.(planets := r.value.planets))
  {
    hide ScriptStep, PlanetOk;
    if i > 0 {
      PlanetScriptsKeep(g, input, i - 1);
      if PlanetScripts(g, input, i - 1).Done? {
        ScriptStepKeeps(g, PlanetScripts(g, input, i - 1).value, input, i - 1);
      }
    }
  }
}
