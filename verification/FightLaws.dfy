/** What a fight promises to the armies, its report, and the experience rule that
    reads the report (`calcExp` in Rules.cpp). */
module FightLaws {
  import opened Basics
  import opened Model
  import opened Fleets
  import opened Combat
  import opened Fight

  // -------------------------------------------------------- the armies

  ghost predicate AtMost(after: seq<uint32>, before: seq<uint32>) {
    && |after| == |before|
    && forall t :: 0 <= t < |after| ==> after[t] <= before[t]
  }

  /** The fleet or planet lost some units and changed in nothing else. */
  ghost predicate FleetOnlyLost(before: Fleet, after: Fleet) {
    AtMost(after.ships, before.ships) && after == before.(ships := after.ships)
  }

  ghost predicate PlanetOnlyLost(before: Option<Planet>, after: Option<Planet>) {
    && (before.Some? <==> after.Some?)
    && (before.Some? ==>
      && AtMost(after.value.cannons, before.value.cannons)
      && after.value == before.value.(cannons := after.value.cannons))
  }

  /** A cell of a refilled table is the exact number of surviving units, and at
      most what the army had. */
  lemma SurvivorsOfCell(fleets: seq<Fleet>, planet: Option<Planet>, h: FightingSet, draws: Draws, army: int, typ: UnitType)
    requires FightFrom(AllUnits(fleets, planet), h, draws, 0).Done?
    ensures var left := CountUnits(FightFrom(AllUnits(fleets, planet), h, draws, 0).value, army, typ);
      && (0 <= army < |fleets| && typ < SHIPS ==> left <= fleets[army].ships[typ])
      && (army == PLANET_ARMY && planet.Some? && typ >= SHIPS ==> left <= planet.value.cannons[typ - SHIPS])
      && ((0 <= army < |fleets| && typ < SHIPS) || (army == PLANET_ARMY && planet.Some? && typ >= SHIPS) ==>
           left % TWO32 == left)
  {
    hide FightFrom;
    FightOnlyLoses(AllUnits(fleets, planet), h, draws, 0, army, typ);
    CountAll(fleets, planet, army, typ);
  }

  /** Whoever fights whom, an army leaves a fight with at most what it had of
      each type, and is otherwise as it was. */
  lemma FightOnlyLosesShips(fleets: seq<Fleet>, planet: Option<Planet>, h: FightingSet, draws: Draws)
    requires FightResult(fleets, planet, h, draws).Done?
    ensures var (fleets', planet') := FightResult(fleets, planet, h, draws).value;
      && |fleets'| == |fleets|
      && (forall i :: 0 <= i < |fleets| ==> FleetOnlyLost(fleets[i], fleets'[i]))
      && PlanetOnlyLost(planet, planet')
  {
    hide FightFrom, AllUnits;
    var (fleets', planet') := FightResult(fleets, planet, h, draws).value;
    forall i, t | 0 <= i < |fleets| && 0 <= t < SHIPS
      ensures fleets'[i].ships[t] <= fleets[i].ships[t]
    {
      SurvivorsOfCell(fleets, planet, h, draws, i, t);
    }
    forall t | 0 <= t < CANNONS && planet.Some?
      ensures planet'.value.cannons[t] <= planet.value.cannons[t]
    {
      SurvivorsOfCell(fleets, planet, h, draws, PLANET_ARMY, SHIPS + t);
    }
  }

  /** The players of the armies of a fight. */
  function Owners(fleets: seq<Fleet>, planet: Option<Planet>): seq<PlayerId> {
    seq(|fleets|, i requires 0 <= i < |fleets| => fleets[i].owner) +
    if planet.Some? then [planet.value.owner] else []
  }

  ghost predicate NobodyHostile(fleets: seq<Fleet>, planet: Option<Planet>, h: FightingSet) {
    forall p, q :: p in Owners(fleets, planet) && q in Owners(fleets, planet) ==> !Hostile(h, p, q)
  }

  /** Reloaded units counted back give every army its own table. */
  lemma ReloadedCountBack(fleets: seq<Fleet>, planet: Option<Planet>)
    ensures var loaded := LoadShield(AllUnits(fleets, planet));
      RefilledFleets(fleets, loaded) == fleets && RefilledPlanet(planet, loaded) == planet
  {
    hide AllUnits;
    var units := AllUnits(fleets, planet);
    var loaded := LoadShield(units);
    forall i | 0 <= i < |fleets|
      ensures RefilledFleet(fleets[i], loaded, i) == fleets[i]
    {
      forall t | 0 <= t < SHIPS
        ensures CountUnits(loaded, i, t) == fleets[i].ships[t]
      {
        CountSameKinds(units, loaded, i, t);
        CountAll(fleets, planet, i, t);
      }
      assert Refill(loaded, 0, SHIPS, i) == fleets[i].ships;
    }
    if planet.Some? {
      forall t | 0 <= t < CANNONS
        ensures CountUnits(loaded, PLANET_ARMY, SHIPS + t) == planet.value.cannons[t]
      {
        CountSameKinds(units, loaded, PLANET_ARMY, SHIPS + t);
        CountAll(fleets, planet, PLANET_ARMY, SHIPS + t);
      }
      assert Refill(loaded, SHIPS, CANNONS, PLANET_ARMY) == planet.value.cannons;
    }
  }

  /** The units of a fight belong to the owners of its armies. */
  lemma UnitOwners(fleets: seq<Fleet>, planet: Option<Planet>)
    ensures forall u :: u in AllUnits(fleets, planet) ==> u.owner in Owners(fleets, planet)
  {
    hide AllUnits;
    AllEnrolled(fleets, planet);
    var owners := Owners(fleets, planet);
    forall u | u in AllUnits(fleets, planet)
      ensures u.owner in owners
    {
      if u.army == PLANET_ARMY {
        assert owners[|fleets|] == u.owner;
      } else {
        assert owners[u.army] == u.owner;
      }
    }
  }

  /** Without a hostile pair a fight leaves every army exactly as it was. */
  lemma PeaceChangesNothing(fleets: seq<Fleet>, planet: Option<Planet>, h: FightingSet, draws: Draws)
    requires NobodyHostile(fleets, planet, h)
    ensures FightResult(fleets, planet, h, draws) == Done((fleets, planet))
  {
    hide AllUnits, TakeTurn;
    var units := AllUnits(fleets, planet);
    UnitOwners(fleets, planet);
    assert forall i :: 0 <= i < |units| ==> units[i] in units;
    TurnThrowsIff(units, h, draws(0));
    ReloadedCountBack(fleets, planet);
  }

  lemma OnlyLostSum(before: seq<uint32>, after: seq<uint32>)
    requires AtMost(after, before)
    ensures Sum(after) <= Sum(before)
  {
    SumMonotone(after, before);
  }

  // ------------------------------------------------------------ reports

  /** The enemy set of one army's report: the indices of the hostile fleets, and
      -1 for a hostile planet. */
  ghost function EnemySet(h: FightingSet, owner: PlayerId, fleets: seq<Fleet>, planet: Option<Planet>): set<int> {
    (set k | 0 <= k < |fleets| && Hostile(h, owner, fleets[k].owner)) +
    if planet.Some? && Hostile(h, owner, planet.value.owner) then {PLANET_ARMY} else {}
  }

  /** `fillReport`: meets every other army once; an army has fought exactly when
      some army of the place belongs to a hostile player. */
  method FillReport(h: FightingSet, owner: PlayerId, fleets: seq<Fleet>, planet: Option<Planet>)
    returns (enemies: set<int>, hasFight: bool)
    ensures enemies == EnemySet(h, owner, fleets, planet)
    ensures hasFight <==> HasFight(h, owner, fleets, planet)
  {
    enemies, hasFight := {}, false;
    for k := 0 to |fleets|
      invariant enemies == set i | 0 <= i < k && Hostile(h, owner, fleets[i].owner)
      invariant hasFight <==> exists i :: 0 <= i < k && Hostile(h, owner, fleets[i].owner)
    {
      if Hostile(h, owner, fleets[k].owner) {
        enemies, hasFight := enemies + {k}, true;
      }
    }
    if planet.Some? && Hostile(h, owner, planet.value.owner) {
      enemies, hasFight := enemies + {PLANET_ARMY}, true;
    }
    var owners := Owners(fleets, planet);
    if hasFight {
      if i :| 0 <= i < |fleets| && Hostile(h, owner, fleets[i].owner) {
        assert owners[i] in owners;
      } else {
        assert owners[|fleets|] in owners;
      }
    }
  }

  predicate HasFight(h: FightingSet, owner: PlayerId, fleets: seq<Fleet>, planet: Option<Planet>) {
    exists q :: q in Owners(fleets, planet) && Hostile(h, owner, q)
  }

  /** Somebody fought somebody in this place. */
  predicate AnyFight(h: FightingSet, fleets: seq<Fleet>, planet: Option<Planet>) {
    exists p :: p in Owners(fleets, planet) && HasFight(h, p, fleets, planet)
  }

  lemma NoReportNoFight(h: FightingSet, fleets: seq<Fleet>, planet: Option<Planet>)
    ensures AnyFight(h, fleets, planet) <==> !NobodyHostile(fleets, planet, h)
  {
    if !NobodyHostile(fleets, planet, h) {
      var p, q :| p in Owners(fleets, planet) && q in Owners(fleets, planet) && Hostile(h, p, q);
      assert HasFight(h, p, fleets, planet);
    }
  }

  predicate DeadFleet(f: Fleet) {
    EmptyFleet(f)
  }

  /** A planet without cannons is dead unless a fleet of its owner survives. */
  predicate DeadPlanet(p: Planet, fleets: seq<Fleet>) {
    && AccumulateInt(p.cannons) == 0
    && forall i :: 0 <= i < |fleets| ==> fleets[i].owner == p.owner ==> DeadFleet(fleets[i])
  }

  lemma AccumulateZeroes()
    ensures AccumulateInt(NO_CANNONS) == 0
  {
    SumZero(NO_CANNONS);
  }

  // --------------------------------------------------------- experience

  function Wrapped(count: uint32, price: uint32): nat {
    count as int * price as int % TWO32
  }

  /** `armyPrice`: each product is a 32-bit one, their sum is not. */
  function ArmyPrice(tab: seq<uint32>, list: seq<UnitStats>): nat
    requires |tab| == |list|
  {
    if tab == [] then 0
    else
      var last := |tab| - 1;
      ArmyPrice(tab[..last], list[..last]) + Wrapped(tab[last], list[last].metal)
  }

  function TruePrice(tab: seq<uint32>, list: seq<UnitStats>): nat
    requires |tab| == |list|
  {
    if tab == [] then 0
    else
      var last := |tab| - 1;
      TruePrice(tab[..last], list[..last]) + tab[last] as int * list[last].metal as int
  }

  /** Every product of the price of this table fits in 32 bits. */
  ghost predicate ProductsFit(tab: seq<uint32>, list: seq<UnitStats>)
    requires |tab| == |list|
  {
    forall t :: 0 <= t < |tab| ==> tab[t] as int * list[t].metal as int < TWO32
  }

  lemma SmallerProduct(a: nat, b: nat, price: nat)
    requires a <= b
    ensures a * price <= b * price
  {
  }

  lemma CellIsExact(before: uint32, after: uint32, price: uint32)
    requires after <= before && before as int * price as int < TWO32
    ensures Wrapped(before, price) == before as int * price as int
    ensures Wrapped(after, price) == after as int * price as int <= before as int * price as int
  {
    SmallerProduct(after, before, price);
  }

  /** While the products of the army before the fight fit in 32 bits, the loss is
      the true price of what was lost, and never underflows. */
  lemma {:induction false} LossIsExact(before: seq<uint32>, after: seq<uint32>, list: seq<UnitStats>)
    requires |before| == |list| && AtMost(after, before) && ProductsFit(before, list)
    ensures ArmyPrice(before, list) == TruePrice(before, list)
    ensures ArmyPrice(after, list) == TruePrice(after, list) <= TruePrice(before, list)
  {
    hide Wrapped;
    if before != [] {
      var last := |before| - 1;
      LossIsExact(before[..last], after[..last], list[..last]);
      CellIsExact(before[last], after[last], list[last].metal);
    }
  }

  /** Fleets of at most `n` ships of each type never make the loss underflow. */
  ghost predicate SafeCount(n: nat) {
    forall before: ShipTab, after: ShipTab ::
      AtMost(after, before) && (forall t :: 0 <= t < SHIPS ==> before[t] <= n) ==>
      ArmyPrice(after, SHIP_LIST) <= ArmyPrice(before, SHIP_LIST)
  }

  const DEAREST := 5
  const SAFE_COUNT := 21474

  lemma OneTypePrice(count: uint32)
    ensures ArmyPrice(NO_SHIPS[DEAREST := count], SHIP_LIST) == Wrapped(count, 200000)
  {
    var tab := NO_SHIPS[DEAREST := count];
    var k := 0;
    while k < SHIPS
      invariant 0 <= k <= SHIPS
      invariant ArmyPrice(tab[..k], SHIP_LIST[..k]) == if k > DEAREST then Wrapped(count, 200000) else 0
    {
      assert tab[..k + 1][..k] == tab[..k] && SHIP_LIST[..k + 1][..k] == SHIP_LIST[..k];
      assert 0 * SHIP_LIST[k].metal == 0;
      k := k + 1;
    }
    assert tab[..SHIPS] == tab && SHIP_LIST[..SHIPS] == SHIP_LIST;
  }

  /** The experience rule is safe exactly up to 21474 ships of a type: one more
      ship of the dearest type and a lost ship can raise the wrapped price. */
  lemma SafeCountIff(n: nat)
    ensures SafeCount(n) <==> n <= SAFE_COUNT
  {
    if n <= SAFE_COUNT {
      forall before: ShipTab, after: ShipTab |
        AtMost(after, before) && (forall t :: 0 <= t < SHIPS ==> before[t] <= n)
        ensures ArmyPrice(after, SHIP_LIST) <= ArmyPrice(before, SHIP_LIST)
      {
        forall t | 0 <= t < SHIPS
          ensures before[t] as int * SHIP_LIST[t].metal as int < TWO32
        {
          assert SHIP_LIST[t].metal <= 200000;
          SmallerProduct(before[t], SAFE_COUNT, SHIP_LIST[t].metal);
          SmallerProduct(SHIP_LIST[t].metal, 200000, SAFE_COUNT);
        }
        LossIsExact(before, after, SHIP_LIST);
      }
    } else {
      var before: ShipTab := NO_SHIPS[DEAREST := SAFE_COUNT + 1];
      var after: ShipTab := NO_SHIPS[DEAREST := SAFE_COUNT];
      OneTypePrice(SAFE_COUNT + 1);
      OneTypePrice(SAFE_COUNT);
      assert AtMost(after, before);
    }
  }

  /** In terms of the game: with the Cohesion skill at 10 or less no fleet grown
      by gathering can reach an unsafe count, from 11 on it can. */
  lemma SafeCohesionIff(cohesion: SkillLevel)
    ensures SafeCount(MaxFleetSize(cohesion)) <==> cohesion <= 10
  {
    SafeCountIff(MaxFleetSize(cohesion));
    assert Pow(2, 7) == 128;
    PowSum(2, 7, 7);
    PowSum(2, 14, 1);
    if cohesion <= 10 {
      PowerOfTwoGrows(cohesion + 4, 14);
    } else {
      PowerOfTwoGrows(15, cohesion + 4);
    }
  }
}
