/** What the fleet phase and the fights of a round keep. */
module WarLaws {
  import opened Basics
  import opened Model
  import opened Planets
  import opened Fleets
  import opened Multimap
  import opened Gather
  import opened GatherLaws
  import opened Forest
  import opened Combat
  import opened Fight
  import opened FightLaws
  import opened Phases
  import opened PhaseLaws

  // --------------------------------------------------------- gathering

  /** `f` is one of the fleets before the pass, with other ships and cargo. */
  ghost predicate StemsFrom(f: Fleet, before: FleetList) {
    exists o :: o in before && f == o.(ships := f.ships, cargo := f.cargo)
  }

  ghost predicate AllStem(fs: FleetList, before: FleetList) {
    && DistinctIds(fs)
    && forall k :: 0 <= k < |fs| ==> StemsFrom(fs[k], before)
  }

  lemma {:induction false} MergeRunStems(input: GatherInput, before: FleetList, fs: FleetList, i: nat, j: nat)
    requires i < j <= |fs| && AllStem(fs, before)
    ensures AllStem(MergeRun(input, fs, i, j), before)
    decreases |fs| - j
  {
    hide StemsFrom;
    if j == |fs| || fs[j].position != fs[i].position {
    } else if Willing(input, fs[i], fs[j]) {
      SwallowStems(before, fs, i, j);
      MergeRunStems(input, before, Swallow(fs, i, j), i, j);
    } else {
      MergeRunStems(input, before, fs, i, j + 1);
    }
  }

  lemma ChangedStems(f: Fleet, f': Fleet, before: FleetList)
    requires StemsFrom(f, before) && f' == f.(ships := f'.ships, cargo := f'.cargo)
    ensures StemsFrom(f', before)
  {
    var o :| o in before && f == o.(ships := f.ships, cargo := f.cargo);
    assert f' == o.(ships := f'.ships, cargo := f'.cargo);
  }

  lemma SwallowStems(before: FleetList, fs: FleetList, i: nat, j: nat)
    requires i < j < |fs| && AllStem(fs, before)
    ensures AllStem(Swallow(fs, i, j), before)
  {
    hide StemsFrom;
    var r := Swallow(fs, i, j);
    ChangedStems(fs[i], Merge(fs[i], fs[j]), before);
    forall k | 0 <= k < |r|
      ensures StemsFrom(r[k], before) && r[k].id == fs[if k < j then k else k + 1].id
    {
      assert k != i ==> r[k] == fs[if k < j then k else k + 1];
    }
  }

  /** What gathering may do to a planet: empty its hangar. */
  ghost predicate HangarServed(p: Planet, q: Planet) {
    && q == p.(hangar := q.hangar)
    && (q.hangar == p.hangar || q.hangar == NO_SHIPS)
  }

  ghost predicate HangarsServed(ps0: PlanetMap, ps: PlanetMap) {
    && ps.Keys == ps0.Keys
    && forall c :: c in ps0 ==> HangarServed(ps0[c], ps[c])
  }

  /** After the pass every fleet has the identity, place and orders of one of the
      fleets before it, and planets have lost nothing but their hangar ship. */
  lemma {:induction false} GatherStems(input: GatherInput, before: FleetList, fs: FleetList, ps0: PlanetMap, planets: PlanetMap, i: nat)
    requires i <= |fs| && AllStem(fs, before) && HangarsServed(ps0, planets)
    ensures var (fs', planets') := GatherFrom(input, fs, planets, i);
      AllStem(fs', before) && HangarsServed(ps0, planets')
    decreases |fs| - i
  {
    hide StemsFrom, PicksUp, MergeRun;
    if i < |fs| {
      var merged := MergeRun(input, fs, i, i + 1);
      MergeRunStems(input, before, fs, i, i + 1);
      var (fs1, planets1) := GatherAt(input, fs, planets, i);
      PickupStems(input, before, merged, ps0, planets, i);
      GatherStems(input, before, fs1, ps0, planets1, i + 1);
    }
  }

  lemma PickupStems(input: GatherInput, before: FleetList, fs: FleetList, ps0: PlanetMap, planets: PlanetMap, i: nat)
    requires i < |fs| && AllStem(fs, before) && HangarsServed(ps0, planets)
    ensures var (f, planets') := AfterPickup(input, fs[i], planets);
      AllStem(fs[i := f], before) && HangarsServed(ps0, planets')
  {
    hide StemsFrom;
    ChangedStems(fs[i], AfterPickup(input, fs[i], planets).0, before);
  }

  // ------------------------------------------------------ fleet scripts

  /** What the whole fleet phase may do to a planet. */
  ghost predicate PlanetServed(p: Planet, q: Planet) {
    && q == p.(hangar := q.hangar, stock := q.stock)
    && (q.hangar == p.hangar || q.hangar == NO_SHIPS)
  }

  ghost predicate PlanetsServed(ps0: PlanetMap, ps: PlanetMap) {
    && ps.Keys == ps0.Keys
    && forall c :: c in ps0 ==> PlanetServed(ps0[c], ps[c])
  }

  lemma ServedKeeps(c: Coord, p: Planet, q: Planet)
    requires PlanetOk(c, p) && PlanetServed(p, q)
    ensures PlanetOk(c, q)
  {
    NoShipsSum();
  }

  /** Fleets waiting for orders, or with the orders of this round. */
  ghost predicate InOrder(fs: FleetList, planets: PlanetMap, round: nat) {
    && DistinctIds(fs)
    && forall k :: 0 <= k < |fs| ==> GoodFleet(fs[k].id, fs[k], planets, round)
  }

  ghost predicate AllIdle(fs: FleetList) {
    forall k :: 0 <= k < |fs| ==> fs[k].task == None
  }

  /** Whatever orders there are were given in this round. */
  ghost predicate JustOrdered(fs: FleetList, round: nat) {
    forall k :: 0 <= k < |fs| ==> fs[k].task.Some? ==> fs[k].task.value.launch == round
  }

  ghost predicate OrdersOfRound(fleets: FleetMap, round: nat) {
    forall id :: id in fleets ==> fleets[id].task.Some? ==> fleets[id].task.value.launch == round
  }

  /** The fleets keep who and where they are. */
  ghost predicate SameFleets(fs0: FleetList, fs: FleetList) {
    && |fs| == |fs0|
    && forall k :: 0 <= k < |fs| ==> fs[k] == fs0[k].(task := fs[k].task, cargo := fs[k].cargo)
  }

  lemma FleetScriptStep(fs0: FleetList, fs: FleetList, ps0: PlanetMap, planets: PlanetMap, a: FleetAction, caps: Caps, round: nat, i: nat)
    requires i < |fs| && InOrder(fs, ps0, round) && SameFleets(fs0, fs) && PlanetsServed(ps0, planets)
    requires JustOrdered(fs, round)
    ensures var fs' := fs[i := FleetAfterAction(fs[i], planets, a, caps, round)];
      InOrder(fs', ps0, round) && SameFleets(fs0, fs') && JustOrdered(fs', round)
  {
    hide FleetAfterAction, FleetOk;
    var f := fs[i];
    ActionKeepsFleet(f, planets, a, caps, round);
    NewOrderIsFresh(f, planets, a, caps, round);
    var f' := FleetAfterAction(f, planets, a, caps, round);
    assert f' == f.(task := f'.task, cargo := f'.cargo);
  }

  lemma NewOrderIsFresh(f: Fleet, planets: PlanetMap, a: FleetAction, caps: Caps, round: nat)
    ensures var t := FleetAfterAction(f, planets, a, caps, round).task;
      t == f.task || (t.Some? && t.value.launch == round)
  {
  }

  lemma {:induction false} FleetScriptsKeep(fs: FleetList, ps0: PlanetMap, planets: PlanetMap, input: RoundInput, round: nat, i: nat)
    requires i <= |fs| && InOrder(fs, ps0, round) && PlanetsServed(ps0, planets) && JustOrdered(fs, round)
    ensures var (fs', planets') := FleetScripts(fs, planets, input, round, i);
      InOrder(fs', ps0, round) && SameFleets(fs, fs') && PlanetsServed(ps0, planets') && JustOrdered(fs', round)
  {
    hide FleetAfterAction, GoodFleet, CanDrop, PlanetServed, PlanetsAfterAction;
    if i > 0 {
      FleetScriptsKeep(fs, ps0, planets, input, round, i - 1);
      var (fs1, planets1) := FleetScripts(fs, planets, input, round, i - 1);
      var f := fs1[i - 1];
      if f.id in input.fleetActions {
        var a := input.fleetActions[f.id];
        FleetScriptStep(fs, fs1, ps0, planets1, a, CapsOf(input, f.owner), round, i - 1);
        DropServes(f, ps0, planets1, a);
      }
    }
  }

  lemma DropServes(f: Fleet, ps0: PlanetMap, planets: PlanetMap, a: FleetAction)
    requires PlanetsServed(ps0, planets)
    ensures PlanetsServed(ps0, PlanetsAfterAction(f, planets, a))
  {
  }

  lemma {:induction false} RebuiltIs(fs: FleetList)
    requires DistinctIds(fs)
    ensures forall id :: id in Rebuilt(fs) ==> exists k :: 0 <= k < |fs| && fs[k].id == id && fs[k] == Rebuilt(fs)[id]
    ensures forall k :: 0 <= k < |fs| ==>
      (fs[k].id in Rebuilt(fs) <==> !EmptyFleet(fs[k])) && (!EmptyFleet(fs[k]) ==> Rebuilt(fs)[fs[k].id] == fs[k])
  {
    hide EmptyFleet;
    if fs != [] {
      var front := fs[..|fs| - 1];
      RebuiltIs(front);
      assert forall k :: 0 <= k < |front| ==> front[k] == fs[k];
    }
  }

  /** The fleets left by the phase are fleets it found, in the same place. */
  ghost predicate FleetsKept(fleets0: FleetMap, fleets: FleetMap) {
    forall id :: id in fleets ==>
      && id in fleets0
      && fleets[id].owner == fleets0[id].owner
      && fleets[id].position == fleets0[id].position
      && fleets[id].origin == fleets0[id].origin
  }

  lemma GatheredInOrder(fs0: FleetList, fs: FleetList, fleets: FleetMap, planets: PlanetMap, ps: PlanetMap,
                        nextId: FleetId, round: nat)
    requires AllStem(fs, fs0) && Countable(fs, ps)
    requires forall f :: f in fs0 <==> f.id in fleets && fleets[f.id] == f
    requires FleetsOk(fleets, planets, nextId, round)
    ensures InOrder(fs, planets, round)
    ensures forall k :: 0 <= k < |fs| ==>
      && fs[k].id in fleets
      && fs[k] == fleets[fs[k].id].(ships := fs[k].ships, cargo := fs[k].cargo)
  {
    forall k | 0 <= k < |fs|
      ensures fs[k].id in fleets && fs[k] == fleets[fs[k].id].(ships := fs[k].ships, cargo := fs[k].cargo)
      ensures GoodFleet(fs[k].id, fs[k], planets, round)
    {
      assert StemsFrom(fs[k], fs0);
    }
  }

  lemma HangarsCountable(planets: PlanetMap)
    requires PlanetsOk(planets)
    ensures forall c :: c in planets ==> Sum(planets[c].hangar) <= 1
  {
    NoShipsSum();
  }

  /** `fs` are fleets of the map, with other ships, cargo and orders. */
  ghost predicate FromMap(fs: FleetList, fleets: FleetMap) {
    forall k :: 0 <= k < |fs| ==>
      && fs[k].id in fleets
      && fs[k].owner == fleets[fs[k].id].owner
      && fs[k].position == fleets[fs[k].id].position
      && fs[k].origin == fleets[fs[k].id].origin
  }

  lemma GatherPhaseKeeps(g: Galaxy, input: RoundInput)
    requires PlanetsOk(g.planets) && FleetsOk(g.fleets, g.planets, g.nextFleetId, g.round)
    requires NoFleetTask(g.fleets)
    requires Enumerates(input.order, g.planets.Keys)
    ensures var (fs, planets) := GatherFrom(input.gather, FleetMultimap(g.fleets), g.planets, 0);
      InOrder(fs, g.planets, g.round) && FromMap(fs, g.fleets) && HangarsServed(g.planets, planets) && AllIdle(fs)
  {
    hide GoodFleet, PlanetOk, FleetMultimap, GatherFrom;
    var fs := FleetMultimap(g.fleets);
    FleetIdsMatch(g);
    FleetMultimapSorted(g.fleets);
    HangarsCountable(g.planets);
    CountableFleets(g, fs);
    PassConservesShips(input.gather, fs, g.planets, input.order, NO_PLAYER, 0);
    AllStemSelf(fs);
    GatherStems(input.gather, fs, fs, g.planets, g.planets, 0);
    var (gathered, planets) := GatherFrom(input.gather, fs, g.planets, 0);
    GatheredInOrder(fs, gathered, g.fleets, g.planets, planets, g.nextFleetId, g.round);
  }

  lemma RebuildKeeps(fs: FleetList, g: Galaxy, planets: PlanetMap)
    requires InOrder(fs, g.planets, g.round) && FromMap(fs, g.fleets) && JustOrdered(fs, g.round)
    requires FleetsOk(g.fleets, g.planets, g.nextFleetId, g.round)
    requires TreeGrows(g.planets, planets)
    ensures FleetsOk(Rebuilt(fs), planets, g.nextFleetId, g.round)
    ensures OrdersOfRound(Rebuilt(fs), g.round)
    ensures NoEmptyFleet(Rebuilt(fs)) && FleetsKept(g.fleets, Rebuilt(fs))
  {
    hide GoodFleet, EmptyFleet, Rebuilt;
    RebuiltIs(fs);
    forall id | id in Rebuilt(fs)
      ensures id < g.nextFleetId && GoodFleet(id, Rebuilt(fs)[id], planets, g.round)
      ensures id in g.fleets && Rebuilt(fs)[id].owner == g.fleets[id].owner
      ensures Rebuilt(fs)[id].position == g.fleets[id].position && Rebuilt(fs)[id].origin == g.fleets[id].origin
      ensures !EmptyFleet(Rebuilt(fs)[id])
      ensures Rebuilt(fs)[id].task.Some? ==> Rebuilt(fs)[id].task.value.launch == g.round
    {
      var k :| 0 <= k < |fs| && fs[k].id == id && fs[k] == Rebuilt(fs)[id];
      GoodFleetGrows(id, fs[k], g.planets, planets, g.round);
    }
  }

  /** The fleet phase starts with idle fleets, so merging discards no order.
      Every fleet it leaves is a fleet it found, in its place, with ships, and
      with no order but one of this round; the planets lose at most their hangar
      ship. */
  lemma FleetsPhaseKeeps(g: Galaxy, input: RoundInput)
    requires PlanetsOk(g.planets) && FleetsOk(g.fleets, g.planets, g.nextFleetId, g.round)
    requires NoFleetTask(g.fleets)
    requires Enumerates(input.order, g.planets.Keys)
    ensures var g' := FleetsPhase(g, input);
      && PlanetsServed(g.planets, g'.planets)
      && FleetsOk(g'.fleets, g'.planets, g'.nextFleetId, g'.round)
      && NoEmptyFleet(g'.fleets)
      && OrdersOfRound(g'.fleets, g.round)
      && FleetsKept(g.fleets, g'.fleets)
      && g'.nextFleetId == g.nextFleetId && g'.round == g.round
  {
    hide GoodFleet, PlanetOk, FleetsOk, FleetMultimap, GatherFrom, FleetScripts, Rebuilt;
    GatherPhaseKeeps(g, input);
    var (gathered, planets) := GatherFrom(input.gather, FleetMultimap(g.fleets), g.planets, 0);
    assert PlanetsServed(g.planets, planets);
    FleetScriptsKeep(gathered, g.planets, planets, input, g.round, |gathered|);
    var (acted, planets') := FleetScripts(gathered, planets, input, g.round, |gathered|);
    assert FromMap(acted, g.fleets);
    RebuildKeeps(acted, g, planets');
  }

  lemma FleetIdsMatch(g: Galaxy)
    requires FleetsOk(g.fleets, g.planets, g.nextFleetId, g.round)
    ensures forall id :: id in g.fleets ==> g.fleets[id].id == id && Sum(g.fleets[id].ships) < TWO31
  {
    assert forall id :: id in g.fleets ==> GoodFleet(id, g.fleets[id], g.planets, g.round);
  }

  lemma CountableFleets(g: Galaxy, fs: FleetList)
    requires forall f :: f in fs <==> f.id in g.fleets && g.fleets[f.id] == f
    requires forall id :: id in g.fleets ==> Sum(g.fleets[id].ships) < TWO31
    requires forall c :: c in g.planets ==> Sum(g.planets[c].hangar) <= 1
    ensures Countable(fs, g.planets)
  {
    forall k | 0 <= k < |fs|
      ensures Sum(fs[k].ships) < TWO31
    {
      assert fs[k] in fs;
    }
  }

  lemma AllStemSelf(fs: FleetList)
    requires DistinctIds(fs)
    ensures AllStem(fs, fs)
  {
    forall k | 0 <= k < |fs|
      ensures StemsFrom(fs[k], fs)
    {
      assert fs[k] in fs && fs[k] == fs[k].(ships := fs[k].ships, cargo := fs[k].cargo);
    }
  }
}
