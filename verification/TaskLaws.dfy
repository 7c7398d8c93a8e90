/** The fleet tasks of a round in closed form: what every order comes to, told
    from the universe before the phase, and the planet cap. */
module TaskLaws {
  import opened Basics
  import opened Model
  import opened Planets
  import opened Fleets
  import opened Forest
  import opened Phases
  import opened PhaseLaws

  predicate Harvests(g: Galaxy, id: FleetId, c: Coord) {
    && id in g.fleets && g.fleets[id].task.Some?
    && g.fleets[id].task.value.kind == HarvestTask && g.fleets[id].task.value.position == c
  }

  /** The fleet has an order to settle `c`, a queen, and the frozen count of its
      player below the cap. */
  predicate Colonizes(g: Galaxy, input: RoundInput, id: FleetId, c: Coord) {
    && id in g.fleets && g.fleets[id].task.Some?
    && g.fleets[id].task.value.kind == ColonizeTask && g.fleets[id].task.value.position == c
    && g.fleets[id].ships[QUEEN] > 0
    && CapsOf(input, g.fleets[id].owner).planetCount < CapsOf(input, g.fleets[id].owner).maxPlanetCount
  }

  /** Who has a free planet's stock and who has the planet, in the end. */
  datatype Visitors = Visitors(harvester: Option<FleetId>, settler: Option<FleetId>)

  /** Among the first `i` fleets: the first settler, and the first harvester that
      comes before any settler. */
  function VisitorsOf(g: Galaxy, input: RoundInput, ids: seq<FleetId>, i: nat, c: Coord): Visitors
    requires i <= |ids|
  {
    if i == 0 then Visitors(None, None)
    else
      var v := VisitorsOf(g, input, ids, i - 1, c);
      var id := ids[i - 1];
      if v.settler.Some? then v
      else if Colonizes(g, input, id, c) then v.(settler := Some(id))
      else if v.harvester.None? && Harvests(g, id, c) then v.(harvester := Some(id))
      else v
  }

  lemma {:induction false} VisitorsCame(g: Galaxy, input: RoundInput, ids: seq<FleetId>, i: nat, c: Coord)
    requires i <= |ids|
    ensures var v := VisitorsOf(g, input, ids, i, c);
      && (v.settler.Some? ==> v.settler.value in ids[..i] && Colonizes(g, input, v.settler.value, c))
      && (v.harvester.Some? ==> v.harvester.value in ids[..i] && Harvests(g, v.harvester.value, c))
      && (v.settler.None? ==> forall k :: 0 <= k < i ==> !Colonizes(g, input, ids[k], c))
      && (v.harvester.None? && v.settler.None? ==> forall k :: 0 <= k < i ==> !Harvests(g, ids[k], c))
  {
    hide Colonizes, Harvests;
    if i > 0 {
      VisitorsCame(g, input, ids, i - 1, c);
      assert ids[..i] == ids[..i - 1] + [ids[i - 1]];
    }
  }

  // ------------------------------------------------------- closed forms

  /** A planet after its visitors: owned planets are untouched, a free one loses
      its stock to its harvester and then goes to its settler. */
  function PlanetOutcome(g: Galaxy, p: Planet, v: Visitors): Planet {
    if p.owner != NO_PLAYER then p
    else
      var reaped := if v.harvester.Some? then p.(stock := NO_RESOURCES) else p;
      if v.settler.Some? && v.settler.value in g.fleets then Colony(reaped, g.fleets[v.settler.value]) else reaped
  }

  predicate Free(g: Galaxy, c: Coord) {
    c in g.planets && g.planets[c].owner == NO_PLAYER
  }

  /** What the order brings into the cargo hold of the fleet. */
  function Loaded(g: Galaxy, f: Fleet, v: Visitors): Resources {
    if f.task.Some? && f.task.value.kind == HarvestTask && Free(g, f.task.value.position) && v.harvester == Some(f.id)
    then AddTab(f.cargo, g.planets[f.task.value.position].stock)
    else f.cargo
  }

  /** The ships left once the fleet has settled, if it did. */
  function ShipsLeft(g: Galaxy, f: Fleet, v: Visitors): ShipTab {
    if f.task.Some? && f.task.value.kind == ColonizeTask && Free(g, f.task.value.position) && v.settler == Some(f.id) &&
       f.ships[QUEEN] > 0
    then f.ships[QUEEN := f.ships[QUEEN] - 1]
    else f.ships
  }

  /** A fleet after its order: where it was sent, with what it harvested, less
      the queen it settled with. */
  function FleetOutcome(g: Galaxy, f: Fleet, v: Visitors): Fleet {
    f.(position := Destination(f), cargo := Capped(Loaded(g, f, v)), ships := ShipsLeft(g, f, v), task := None)
  }

  /** The place an order is about. */
  function Aim(f: Fleet): Coord {
    if f.task.Some? then f.task.value.position else f.position
  }

  ghost predicate PlanetsSettled(g0: Galaxy, planets: PlanetMap, input: RoundInput, ids: seq<FleetId>, i: nat)
    requires i <= |ids|
  {
    && planets.Keys == g0.planets.Keys
    && forall c :: c in planets ==> planets[c] == PlanetOutcome(g0, g0.planets[c], VisitorsOf(g0, input, ids, i, c))
  }

  ghost predicate FleetsServed(g0: Galaxy, fleets: FleetMap, input: RoundInput, ids: seq<FleetId>, i: nat)
    requires i <= |ids|
  {
    && fleets.Keys == g0.fleets.Keys
    && (forall k :: 0 <= k < i && ids[k] in fleets ==>
         fleets[ids[k]] ==
         FleetOutcome(g0, g0.fleets[ids[k]], VisitorsOf(g0, input, ids, i, Aim(g0.fleets[ids[k]]))))
    && (forall k :: i <= k < |ids| && ids[k] in fleets ==> fleets[ids[k]] == g0.fleets[ids[k]])
  }

  ghost predicate TasksDone(g0: Galaxy, g: Galaxy, input: RoundInput, ids: seq<FleetId>, i: nat)
    requires i <= |ids|
  {
    && g == g0.(planets := g.planets, fleets := g.fleets)
    && PlanetsSettled(g0, g.planets, input, ids, i) && FleetsServed(g0, g.fleets, input, ids, i)
  }

  /** A fleet whose order is an order of the round before. */
  ghost predicate Waiting(g: Galaxy, id: FleetId, round: nat) {
    id in g.fleets && g.round == round + 1 && GoodFleet(id, g.fleets[id], g.planets, round)
  }

  // ----------------------------------------------------------- one fleet

  lemma NothingToLoad(cargo: Resources)
    ensures AddTab(cargo, NO_RESOURCES) == cargo
  {
  }

  /** A fleet without a visit to make changes nobody's visitors. */
  lemma NoVisit(g: Galaxy, input: RoundInput, ids: seq<FleetId>, i: nat, c: Coord)
    requires i < |ids| && !Colonizes(g, input, ids[i], c) && !Harvests(g, ids[i], c)
    ensures VisitorsOf(g, input, ids, i + 1, c) == VisitorsOf(g, input, ids, i, c)
  {
  }

  /** The outcome of one fleet round: the fleet and the planet it aims at end as
      the closed forms say, and no other planet changes. */
  ghost predicate RoundDone(g0: Galaxy, planets: PlanetMap, input: RoundInput, ids: seq<FleetId>, i: nat,
                            r: Attempt<(Fleet, PlanetMap)>)
    requires i < |ids| && ids[i] in g0.fleets && planets.Keys == g0.planets.Keys
  {
    var f := g0.fleets[ids[i]];
    var c := Aim(f);
    var v := VisitorsOf(g0, input, ids, i + 1, c);
    && r.Done?
    && r.value.0 == FleetOutcome(g0, f, v)
    && r.value.1 == if c in planets then planets[c := PlanetOutcome(g0, g0.planets[c], v)] else planets
  }

  lemma MoveOutcome(g0: Galaxy, planets: PlanetMap, input: RoundInput, ids: seq<FleetId>, i: nat, round: nat)
    requires i < |ids| && Waiting(g0, ids[i], round) && PlanetsSettled(g0, planets, input, ids, i)
    requires g0.fleets[ids[i]].task.Some? ==> g0.fleets[ids[i]].task.value.kind == MoveTask
    ensures RoundDone(g0, planets, input, ids, i,
                      FleetRound(planets, g0.fleets[ids[i]], CapsOf(input, g0.fleets[ids[i]].owner), g0.round))
  {
    hide Capped, AddTab, PlanetOutcome, VisitorsOf;
    var f := g0.fleets[ids[i]];
    var c := Aim(f);
    NoVisit(g0, input, ids, i, c);
    assert c in planets ==> planets[c := planets[c]] == planets;
  }

  lemma HarvestOutcome(g0: Galaxy, planets: PlanetMap, input: RoundInput, ids: seq<FleetId>, i: nat, round: nat)
    requires i < |ids| && Waiting(g0, ids[i], round) && PlanetsSettled(g0, planets, input, ids, i)
    requires g0.fleets[ids[i]].task.Some? && g0.fleets[ids[i]].task.value.kind == HarvestTask && ids[i] !in ids[..i]
    requires forall id :: id in g0.fleets ==> g0.fleets[id].owner != NO_PLAYER
    ensures RoundDone(g0, planets, input, ids, i,
                      FleetRound(planets, g0.fleets[ids[i]], CapsOf(input, g0.fleets[ids[i]].owner), g0.round))
  {
    hide Capped, AddTab, PlanetsOk;
    var f := g0.fleets[ids[i]];
    var c := Aim(f);
    VisitorsCame(g0, input, ids, i, c);
    NothingToLoad(f.cargo);
    var v := VisitorsOf(g0, input, ids, i, c);
    assert planets[c] == PlanetOutcome(g0, g0.planets[c], v);
    assert planets[c := planets[c]] == planets;
    OwnerOutcome(g0, input, ids, i, c);
  }

  /** A free planet stays free exactly as long as nobody settles it. */
  lemma OwnerOutcome(g: Galaxy, input: RoundInput, ids: seq<FleetId>, i: nat, c: Coord)
    requires i <= |ids| && c in g.planets
    requires forall id :: id in g.fleets ==> g.fleets[id].owner != NO_PLAYER
    ensures var v := VisitorsOf(g, input, ids, i, c);
      && (v.settler.Some? ==> v.settler.value in g.fleets)
      && PlanetOutcome(g, g.planets[c], v).owner ==
         if g.planets[c].owner != NO_PLAYER || v.settler.None? then g.planets[c].owner
         else g.fleets[v.settler.value].owner
  {
    VisitorsCame(g, input, ids, i, c);
  }

  lemma ColonizeOutcome(g0: Galaxy, planets: PlanetMap, input: RoundInput, ids: seq<FleetId>, i: nat, round: nat)
    requires i < |ids| && Waiting(g0, ids[i], round) && PlanetsSettled(g0, planets, input, ids, i)
    requires g0.fleets[ids[i]].task.Some? && g0.fleets[ids[i]].task.value.kind == ColonizeTask && ids[i] !in ids[..i]
    requires forall id :: id in g0.fleets ==> g0.fleets[id].owner != NO_PLAYER
    ensures RoundDone(g0, planets, input, ids, i,
                      FleetRound(planets, g0.fleets[ids[i]], CapsOf(input, g0.fleets[ids[i]].owner), g0.round))
  {
    hide Capped, AddTab, PlanetsOk, Colony;
    var f := g0.fleets[ids[i]];
    var c := Aim(f);
    VisitorsCame(g0, input, ids, i, c);
    OwnerOutcome(g0, input, ids, i, c);
    var v := VisitorsOf(g0, input, ids, i, c);
    assert planets[c] == PlanetOutcome(g0, g0.planets[c], v);
    assert planets[c := planets[c]] == planets;
  }

  // ---------------------------------------------------------- all fleets

  ghost predicate Distinct(ids: seq<FleetId>) {
    forall j, k :: 0 <= j < k < |ids| ==> ids[j] != ids[k]
  }

  /** All fleets wait with orders of the round before. */
  ghost predicate AllWaiting(g: Galaxy, ids: seq<FleetId>, round: nat) {
    && g.round == round + 1 && FleetsOk(g.fleets, g.planets, g.nextFleetId, round)
    && Distinct(ids) && forall k :: 0 <= k < |ids| ==> ids[k] in g.fleets
  }

  lemma OneRoundDone(g0: Galaxy, planets: PlanetMap, input: RoundInput, ids: seq<FleetId>, i: nat, round: nat)
    requires i < |ids| && AllWaiting(g0, ids, round) && PlanetsSettled(g0, planets, input, ids, i)
    ensures RoundDone(g0, planets, input, ids, i,
                      FleetRound(planets, g0.fleets[ids[i]], CapsOf(input, g0.fleets[ids[i]].owner), g0.round))
  {
    hide FleetRound, RoundDone, PlanetsSettled, FleetOk;
    var f := g0.fleets[ids[i]];
    assert forall id :: id in g0.fleets ==> GoodFleet(id, g0.fleets[id], g0.planets, round);
    OwnersReal(g0, round);
    assert ids[i] !in ids[..i];
    if f.task.None? || f.task.value.kind == MoveTask {
      MoveOutcome(g0, planets, input, ids, i, round);
    } else if f.task.value.kind == HarvestTask {
      HarvestOutcome(g0, planets, input, ids, i, round);
    } else {
      ColonizeOutcome(g0, planets, input, ids, i, round);
    }
  }

  lemma OwnersReal(g: Galaxy, round: nat)
    requires FleetsOk(g.fleets, g.planets, g.nextFleetId, round)
    ensures forall id :: id in g.fleets ==> g.fleets[id].owner != NO_PLAYER
  {
    forall id | id in g.fleets
      ensures g.fleets[id].owner != NO_PLAYER
    {
      assert GoodFleet(id, g.fleets[id], g.planets, round);
    }
  }

  lemma PlanetsSettledStep(g0: Galaxy, planets: PlanetMap, planets': PlanetMap, input: RoundInput, ids: seq<FleetId>, i: nat)
    requires i < |ids| && ids[i] in g0.fleets && PlanetsSettled(g0, planets, input, ids, i)
    requires var c := Aim(g0.fleets[ids[i]]);
      planets' ==
      if c in planets then planets[c := PlanetOutcome(g0, g0.planets[c], VisitorsOf(g0, input, ids, i + 1, c))] else planets
    ensures PlanetsSettled(g0, planets', input, ids, i + 1)
  {
    hide PlanetOutcome, VisitorsOf;
    forall c | c in planets'
      ensures planets'[c] == PlanetOutcome(g0, g0.planets[c], VisitorsOf(g0, input, ids, i + 1, c))
    {
      if c != Aim(g0.fleets[ids[i]]) {
        NoVisit(g0, input, ids, i, c);
      }
    }
  }

  /** The outcome of an earlier fleet does not depend on a later one. */
  lemma OutcomeStays(g0: Galaxy, input: RoundInput, ids: seq<FleetId>, i: nat, f: Fleet)
    requires i < |ids| && f.id != ids[i]
    ensures FleetOutcome(g0, f, VisitorsOf(g0, input, ids, i + 1, Aim(f))) ==
            FleetOutcome(g0, f, VisitorsOf(g0, input, ids, i, Aim(f)))
  {
    hide Capped, AddTab, Colonizes, Harvests;
  }

  lemma FleetsServedStep(g0: Galaxy, fleets: FleetMap, fleets': FleetMap, input: RoundInput, ids: seq<FleetId>, i: nat)
    requires i < |ids| && Distinct(ids) && ids[i] in g0.fleets && FleetsServed(g0, fleets, input, ids, i)
    requires forall id :: id in g0.fleets ==> g0.fleets[id].id == id
    requires fleets' == fleets[ids[i] := FleetOutcome(g0, g0.fleets[ids[i]],
                                           VisitorsOf(g0, input, ids, i + 1, Aim(g0.fleets[ids[i]])))]
    ensures FleetsServed(g0, fleets', input, ids, i + 1)
  {
    hide FleetOutcome, VisitorsOf;
    forall k | 0 <= k < i && ids[k] in fleets
      ensures fleets'[ids[k]] ==
              FleetOutcome(g0, g0.fleets[ids[k]], VisitorsOf(g0, input, ids, i + 1, Aim(g0.fleets[ids[k]])))
    {
      OutcomeStays(g0, input, ids, i, g0.fleets[ids[k]]);
    }
  }

  lemma NothingDone(g: Galaxy, input: RoundInput, ids: seq<FleetId>)
    ensures TasksDone(g, g, input, ids, 0)
  {
  }

  lemma TaskStep(g0: Galaxy, g: Galaxy, input: RoundInput, ids: seq<FleetId>, i: nat, round: nat)
    requires i < |ids| && AllWaiting(g0, ids, round) && TasksDone(g0, g, input, ids, i)
    ensures FleetStep(g, ids[i], input).Done? && TasksDone(g0, FleetStep(g, ids[i], input).value, input, ids, i + 1)
  {
    hide FleetRound, FleetOutcome, PlanetOutcome, VisitorsOf, PlanetsSettled, FleetOk;
    var id := ids[i];
    OneRoundDone(g0, g.planets, input, ids, i, round);
    KeysKept(g0, g, input, ids, i);
    assert g.fleets[id] == g0.fleets[id];
    var g' := FleetStep(g, id, input).value;
    PlanetsSettledStep(g0, g.planets, g'.planets, input, ids, i);
    assert forall d :: d in g0.fleets ==> GoodFleet(d, g0.fleets[d], g0.planets, round);
    FleetsServedStep(g0, g.fleets, g'.fleets, input, ids, i);
  }

  lemma KeysKept(g0: Galaxy, g: Galaxy, input: RoundInput, ids: seq<FleetId>, i: nat)
    requires i <= |ids| && TasksDone(g0, g, input, ids, i)
    ensures g.planets.Keys == g0.planets.Keys && g.fleets.Keys == g0.fleets.Keys && g.round == g0.round
  {
  }

  /** The fleet tasks of a round, whole: each fleet and each planet ends as the
      closed forms say.  Who comes first in id order gets the stock or the planet;
      a move arrives; nothing else changes. */
  lemma {:induction false} FleetTasksOutcome(g: Galaxy, input: RoundInput, ids: seq<FleetId>, i: nat, round: nat)
    requires i <= |ids| && AllWaiting(g, ids, round)
    ensures FleetTasks(g, input, ids, i).Done?
    ensures TasksDone(g, FleetTasks(g, input, ids, i).value, input, ids, i)
  {
    hide FleetStep, TasksDone, AllWaiting;
    if i == 0 {
      NothingDone(g, input, ids);
    } else {
      FleetTasksOutcome(g, input, ids, i - 1, round);
      TaskStep(g, FleetTasks(g, input, ids, i - 1).value, input, ids, i - 1, round);
    }
  }

  // ---------------------------------------------------------- planet cap

  /** The planets of a player. */
  function Holdings(planets: PlanetMap, p: PlayerId): set<Coord> {
    set c | c in planets && planets[c].owner == p
  }

  /** The free planets whose first settler, in the order of the fleets, is this
      player's. */
  function Claims(g: Galaxy, input: RoundInput, ids: seq<FleetId>, p: PlayerId): set<Coord> {
    set c | c in g.planets && g.planets[c].owner == NO_PLAYER &&
            var v := VisitorsOf(g, input, ids, |ids|, c);
            v.settler.Some? && v.settler.value in g.fleets && g.fleets[v.settler.value].owner == p
  }

  /** The fleet tasks add to a player's planets exactly the player's claims. */
  lemma HoldingsAfterTasks(g: Galaxy, input: RoundInput, ids: seq<FleetId>, round: nat, p: PlayerId)
    requires AllWaiting(g, ids, round) && p != NO_PLAYER
    ensures FleetTasks(g, input, ids, |ids|).Done?
    ensures Holdings(FleetTasks(g, input, ids, |ids|).value.planets, p) == Holdings(g.planets, p) + Claims(g, input, ids, p)
    ensures Holdings(g.planets, p) !! Claims(g, input, ids, p)
  {
    hide VisitorsOf, PlanetOutcome, FleetOutcome;
    FleetTasksOutcome(g, input, ids, |ids|, round);
    OwnersReal(g, round);
    var planets := FleetTasks(g, input, ids, |ids|).value.planets;
    forall c | c in g.planets
      ensures c in Holdings(planets, p) <==> c in Holdings(g.planets, p) || c in Claims(g, input, ids, p)
    {
      OwnerOutcome(g, input, ids, |ids|, c);
    }
  }

  /** A player ends the fleet tasks within a number of planets exactly when the
      planets held before and the claims are within it together; the test against
      the frozen count bounds each claim, not their number. */
  lemma CapKeptIff(g: Galaxy, input: RoundInput, ids: seq<FleetId>, round: nat, p: PlayerId, cap: nat)
    requires AllWaiting(g, ids, round) && p != NO_PLAYER
    ensures FleetTasks(g, input, ids, |ids|).Done?
    ensures |Holdings(FleetTasks(g, input, ids, |ids|).value.planets, p)| <= cap <==>
            |Holdings(g.planets, p)| + |Claims(g, input, ids, p)| <= cap
  {
    hide Holdings, Claims, FleetTasks;
    HoldingsAfterTasks(g, input, ids, round, p);
    DisjointUnion(Holdings(g.planets, p), Claims(g, input, ids, p));
  }

  lemma DisjointUnion(a: set<Coord>, b: set<Coord>)
    requires a !! b
    ensures |a + b| == |a| + |b|
  {
  }

  /** Nobody claims a planet while the frozen count is at the cap. */
  lemma NoClaimAtCap(g: Galaxy, input: RoundInput, ids: seq<FleetId>, p: PlayerId)
    requires CapsOf(input, p).planetCount >= CapsOf(input, p).maxPlanetCount
    ensures Claims(g, input, ids, p) == {}
  {
    hide VisitorsOf;
    forall c | c in g.planets
      ensures c !in Claims(g, input, ids, p)
    {
      VisitorsCame(g, input, ids, |ids|, c);
    }
  }

  // -------------------------------------------------- the cap exceeded

  function Cell(x: int): Coord {
    Coord(x, 0, 0)
  }

  const HELD: set<Coord> := {Cell(0), Cell(1), Cell(2), Cell(3), Cell(4), Cell(5), Cell(6)}
  const UNHELD: set<Coord> := {Cell(7), Cell(8)}

  function HeldPlanet(c: Coord): Planet {
    Planet(1, NO_BUILDINGS[0 := 1], None, NO_RESOURCES, NO_CANNONS, Cell(0), NO_SHIPS)
  }

  function UnheldPlanet(c: Coord): Planet {
    Planet(NO_PLAYER, NO_BUILDINGS, None, NO_RESOURCES, NO_CANNONS, c, NO_SHIPS)
  }

  /** A queen of player 1 with the order to settle a cell. */
  function QueenOver(id: FleetId, c: Coord): Fleet {
    Fleet(id, 1, c, Cell(0), NO_SHIPS[QUEEN := 1], NO_RESOURCES, Some(FleetTask(ColonizeTask, 0, 1, c, false)))
  }

  /** Player 1 holds seven planets, and has a queen over each of two free ones. */
  function TwoQueens(): Galaxy {
    Galaxy((map c | c in HELD :: HeldPlanet(c)) + (map c | c in UNHELD :: UnheldPlanet(c)),
           map[1 := QueenOver(1, Cell(7)), 2 := QueenOver(2, Cell(8))], 3, 1)
  }

  lemma QueenWaits(id: FleetId, c: Coord)
    requires c in UNHELD && (id == 1 || id == 2)
    ensures GoodFleet(id, QueenOver(id, c), TwoQueens().planets, 0)
  {
    NoShipsSum();
    SumUpdate(NO_SHIPS, QUEEN, 1);
    assert Cell(0) in HELD && Cell(0) !in UNHELD;
  }

  lemma QueensWait()
    ensures AllWaiting(TwoQueens(), [1, 2], 0)
  {
    hide GoodFleet;
    QueenWaits(1, Cell(7));
    QueenWaits(2, Cell(8));
  }

  lemma QueensClaim(input: RoundInput)
    requires CapsOf(input, 1).planetCount == 7 && CapsOf(input, 1).maxPlanetCount == 8
    ensures Claims(TwoQueens(), input, [1, 2], 1) == UNHELD
  {
    var g := TwoQueens();
    assert NO_SHIPS[QUEEN := 1][QUEEN] == 1;
    assert Colonizes(g, input, 1, Cell(7)) && !Colonizes(g, input, 1, Cell(8)) && Colonizes(g, input, 2, Cell(8));
    assert VisitorsOf(g, input, [1, 2], 1, Cell(7)).settler == Some(1);
    assert VisitorsOf(g, input, [1, 2], 2, Cell(7)).settler == Some(1);
    assert VisitorsOf(g, input, [1, 2], 1, Cell(8)).settler == None;
    assert VisitorsOf(g, input, [1, 2], 2, Cell(8)).settler == Some(2);
  }

  lemma HeldBefore()
    ensures Holdings(TwoQueens().planets, 1) == HELD && |HELD| == 7 && |UNHELD| == 2
  {
    SevenAndTwo();
    assert Cell(7) !in HELD && Cell(8) !in HELD;
    assert forall c :: c in TwoQueens().planets <==> c in HELD || c in UNHELD;
  }

  lemma SevenAndTwo()
    ensures |HELD| == 7 && |UNHELD| == 2
  {
  }

  /** The cap is no invariant: with the Conquest skill at 0, whose cap is 8, and
      a true count of 7, one round of orders leaves the player with 9 planets. */
  lemma CapExceeded(input: RoundInput)
    requires CapsOf(input, 1).planetCount == 7 && CapsOf(input, 1).maxPlanetCount == 8
    ensures |Holdings(TwoQueens().planets, 1)| == CapsOf(input, 1).planetCount
    ensures FleetTasks(TwoQueens(), input, [1, 2], 2).Done?
    ensures |Holdings(FleetTasks(TwoQueens(), input, [1, 2], 2).value.planets, 1)| == 9
  {
    hide TwoQueens, FleetTasks, Claims, Holdings, AllWaiting;
    QueensWait();
    QueensClaim(input);
    HeldBefore();
    HoldingsAfterTasks(TwoQueens(), input, [1, 2], 0, 1);
    DisjointUnion(HELD, UNHELD);
  }
}
