/** What a volley does to a lone unit, told from the two tables of ships and
    cannons: all the fire of the others against its life and shield. */
module DuelLaws {
  import opened Basics
  import opened Model
  import opened Combat
  import opened Fight
  import opened FightLaws
  import opened BystanderLaws

  /** What the units of a table fire in one volley. */
  function FirePower(tab: seq<uint32>, list: seq<UnitStats>): nat
    requires |tab| == |list|
  {
    if tab == [] then 0
    else
      var last := |tab| - 1;
      FirePower(tab[..last], list[..last]) + tab[last] as int * list[last].power as int
  }

  function FleetsFire(fleets: seq<Fleet>): nat {
    if fleets == [] then 0
    else FleetsFire(fleets[..|fleets| - 1]) + FirePower(fleets[|fleets| - 1].ships, SHIP_LIST)
  }

  /** What all the armies of a place fire in one volley. */
  function TotalFire(fleets: seq<Fleet>, planet: Option<Planet>): nat {
    FleetsFire(fleets) + if planet.Some? then FirePower(planet.value.cannons, CANNON_LIST) else 0
  }

  // ------------------------------------------------ the powers of all units

  lemma {:induction false} PowersJoin(a: seq<Unit>, b: seq<Unit>)
    ensures Sum(Powers(a + b)) == Sum(Powers(a)) + Sum(Powers(b))
  {
    hide PowerOf;
    if b == [] {
      assert a + b == a;
    } else {
      var front := b[..|b| - 1];
      PowersJoin(a, front);
      assert Powers(a + b)[..|a + b| - 1] == Powers(a + front);
      assert Powers(b)[..|b| - 1] == Powers(front);
    }
  }

  lemma {:induction false} PowersOfCopies(n: nat, u: Unit)
    ensures Sum(Powers(Copies(n, u))) == n * PowerOf(u)
  {
    hide PowerOf;
    if n > 0 {
      PowersOfCopies(n - 1, u);
      assert Powers(Copies(n, u))[..n - 1] == Powers(Copies(n - 1, u));
      OneTimesMore(n, PowerOf(u));
    }
  }

  lemma OneTimesMore(n: nat, x: nat)
    requires n > 0
    ensures (n - 1) * x + x == n * x
  {
  }

  /** The stats of a type are its line of the ship table, then of the cannon table. */
  predicate Listed(list: seq<UnitStats>, base: nat) {
    (list == SHIP_LIST && base == 0) || (list == CANNON_LIST && base == SHIPS)
  }

  lemma {:induction false} PowersOfTable(tab: seq<uint32>, list: seq<UnitStats>, base: nat, army: int, owner: PlayerId, k: nat)
    requires |tab| == |list| && Listed(list, base) && k <= |tab|
    ensures Sum(Powers(TableUnits(tab, base, army, owner, k))) == FirePower(tab[..k], list[..k])
  {
    if k > 0 {
      hide Powers, FirePower;
      var u := NewUnit(base + k - 1, army, owner);
      PowersOfTable(tab, list, base, army, owner, k - 1);
      PowersOfCopies(tab[k - 1], u);
      PowersJoin(TableUnits(tab, base, army, owner, k - 1), Copies(tab[k - 1], u));
      assert PowerOf(u) == list[k - 1].power;
      FirePowerStep(tab, list, k);
    } else {
      assert Powers([]) == [];
    }
  }

  lemma FirePowerStep(tab: seq<uint32>, list: seq<UnitStats>, k: nat)
    requires |tab| == |list| && 0 < k <= |tab|
    ensures FirePower(tab[..k], list[..k]) ==
            FirePower(tab[..k - 1], list[..k - 1]) + tab[k - 1] as int * list[k - 1].power as int
  {
    assert tab[..k][..k - 1] == tab[..k - 1] && list[..k][..k - 1] == list[..k - 1];
  }

  lemma PowersOfArmy(tab: seq<uint32>, list: seq<UnitStats>, base: nat, army: int, owner: PlayerId)
    requires |tab| == |list| && Listed(list, base)
    ensures Sum(Powers(TableUnits(tab, base, army, owner, |tab|))) == FirePower(tab, list)
  {
    hide Powers, FirePower, TableUnits;
    PowersOfTable(tab, list, base, army, owner, |tab|);
    assert tab[..|tab|] == tab && list[..|tab|] == list;
  }

  lemma {:induction false} PowersOfFleets(fleets: seq<Fleet>, n: nat)
    requires n <= |fleets|
    ensures Sum(Powers(FleetsUnits(fleets, n))) == FleetsFire(fleets[..n])
  {
    hide Powers, FirePower, TableUnits;
    if n > 0 {
      PowersOfFleets(fleets, n - 1);
      PowersOfArmy(fleets[n - 1].ships, SHIP_LIST, 0, n - 1, fleets[n - 1].owner);
      PowersJoin(FleetsUnits(fleets, n - 1), FleetUnits(fleets[n - 1], n - 1));
      assert fleets[..n][..n - 1] == fleets[..n - 1];
    } else {
      NoPowers();
    }
  }

  lemma NoPowers()
    ensures Sum(Powers([])) == 0
  {
    assert Powers([]) == [];
  }

  /** Every unit fires the power its line of the table gives. */
  lemma PowersAreFire(fleets: seq<Fleet>, planet: Option<Planet>)
    ensures Sum(Powers(AllUnits(fleets, planet))) == TotalFire(fleets, planet)
  {
    hide Powers, FirePower, TableUnits;
    PowersOfFleets(fleets, |fleets|);
    assert fleets[..|fleets|] == fleets;
    if planet.Some? {
      PowersOfArmy(planet.value.cannons, CANNON_LIST, SHIPS, PLANET_ARMY, planet.value.owner);
      PowersJoin(FleetsUnits(fleets, |fleets|), PlanetUnits(planet.value));
    } else {
      assert AllUnits(fleets, planet) == FleetsUnits(fleets, |fleets|);
    }
  }

  // -------------------------------------------------- all against one unit

  /** Everybody else is hostile to the owner of unit `j`, and to nobody else. */
  ghost predicate AllAgainst(units: seq<Unit>, h: FightingSet, j: nat) {
    && j < |units| && |units| > 1
    && !Hostile(h, units[j].owner, units[j].owner)
    && forall i :: 0 <= i < |units| && i != j ==>
         && units[i].owner != units[j].owner
         && Hostile(h, units[i].owner, units[j].owner) && Hostile(h, units[j].owner, units[i].owner)
         && forall k :: 0 <= k < |units| && k != j ==> !Hostile(h, units[k].owner, units[i].owner)
  }

  lemma AllFindTargets(units: seq<Unit>, h: FightingSet, j: nat)
    requires AllAgainst(units, h, j)
    ensures MustFight(units, h) && AllHaveTargets(units, h)
  {
    hide AllHaveTargets;
    var i := if j == 0 then 1 else 0;
    assert HostilePair(units, h, i, j);
    TargetsForAll(units, h);
  }

  lemma OnlyTarget(units: seq<Unit>, h: FightingSet, draw: Draw, j: nat, i: nat)
    requires AllAgainst(units, h, j) && i < |units| && AllHaveTargets(units, h)
    ensures TargetOf(units, h, draw, i) == j <==> i != j
  {
    hide TargetOf, EnemiesOf;
    var t := TargetOf(units, h, draw, i);
    assert Hostile(h, units[t].owner, units[i].owner);
  }

  lemma {:induction false} AllFireAtOne(units: seq<Unit>, h: FightingSet, draw: Draw, j: nat, n: nat)
    requires AllAgainst(units, h, j) && AllHaveTargets(units, h) && n <= |units|
    ensures DamageTo(units, h, draw, n, j) == Sum(Powers(units)[..n]) - if j < n then PowerOf(units[j]) else 0
  {
    hide AllAgainst, AllHaveTargets, TargetOf, PowerOf;
    if n > 0 {
      AllFireAtOne(units, h, draw, j, n - 1);
      OnlyTarget(units, h, draw, j, n - 1);
      SumPrefix(Powers(units), n);
    }
  }

  // ----------------------------------------------- one unit of its kind

  lemma {:induction false} CountAtLeastTwo(units: seq<Unit>, i: nat, j: nat)
    requires i < j < |units| && Is(units[i], units[j].army, units[j].typ)
    ensures CountUnits(units, units[j].army, units[j].typ) >= 2
  {
    var last := |units| - 1;
    if j == last {
      PresentIsCounted(units[..last], i);
    } else {
      CountAtLeastTwo(units[..last], i, j);
    }
  }

  lemma {:induction false} SoleSurvivor(units: seq<Unit>, j: nat, army: int, typ: UnitType)
    requires j < |units| && forall i :: 0 <= i < |units| ==> (Is(units[i], army, typ) <==> i == j)
    ensures CountUnits(Survivors(units), army, typ) == if units[j].life > 0 then 1 else 0
  {
    var front, u := units[..|units| - 1], units[|units| - 1];
    if j < |front| {
      SoleSurvivor(front, j, army, typ);
    } else {
      NoneSurvives(front, army, typ);
    }
    CountConcat(Survivors(front), if u.life > 0 then [u] else [], army, typ);
    CountSingle(u, army, typ);
  }

  lemma {:induction false} NoneSurvives(units: seq<Unit>, army: int, typ: UnitType)
    requires forall i :: 0 <= i < |units| ==> !Is(units[i], army, typ)
    ensures CountUnits(Survivors(units), army, typ) == 0
  {
    if units != [] {
      var front, u := units[..|units| - 1], units[|units| - 1];
      NoneSurvives(front, army, typ);
      CountConcat(Survivors(front), if u.life > 0 then [u] else [], army, typ);
      CountSingle(u, army, typ);
    }
  }

  lemma {:induction false} TableFresh(tab: seq<uint32>, base: nat, army: int, owner: PlayerId, k: nat)
    requires k <= |tab| && base + |tab| <= SHIPS + CANNONS
    ensures forall u :: u in TableUnits(tab, base, army, owner, k) ==> u.life == StatsOf(u.typ).life
  {
    hide StatsOf;
    if k > 0 {
      TableFresh(tab, base, army, owner, k - 1);
    }
  }

  lemma {:induction false} FleetsFresh(fleets: seq<Fleet>, n: nat)
    requires n <= |fleets|
    ensures forall u :: u in FleetsUnits(fleets, n) ==> u.life == StatsOf(u.typ).life
  {
    hide StatsOf, TableUnits;
    if n > 0 {
      FleetsFresh(fleets, n - 1);
      TableFresh(fleets[n - 1].ships, 0, n - 1, fleets[n - 1].owner, SHIPS);
    }
  }

  /** Every unit enters a fight with the life its line of the table gives. */
  lemma AllFresh(fleets: seq<Fleet>, planet: Option<Planet>)
    ensures forall u :: u in AllUnits(fleets, planet) ==> u.life == StatsOf(u.typ).life
  {
    hide StatsOf, TableUnits;
    FleetsFresh(fleets, |fleets|);
    if planet.Some? {
      TableFresh(planet.value.cannons, SHIPS, PLANET_ARMY, planet.value.owner, CANNONS);
    }
  }

  /** A turn of all against one: the one is left exactly when the fire of the
      others is less than its shield and life together. */
  lemma OneTurn(units: seq<Unit>, h: FightingSet, draw: Draw, j: nat)
    requires j < |units| && AllAgainst(units, h, j) && units[j].life > 0
    requires forall i :: 0 <= i < |units| ==> (Is(units[i], units[j].army, units[j].typ) <==> i == j)
    ensures TakeTurn(units, h, draw).Continue?
    ensures var u := units[j];
      CountUnits(TakeTurn(units, h, draw).units, u.army, u.typ) ==
      if Sum(Powers(units)) - PowerOf(u) < StatsOf(u.typ).shield as int + u.life then 1 else 0
  {
    hide AllAgainst, DamageTo, Survivors, MustFight, AllHaveTargets, StatsOf, Hostile;
    var u, loaded := units[j], LoadShield(units);
    ReloadedAllAgainst(units, loaded, h, j);
    AllFindTargets(loaded, h, j);
    AllFireAtOne(loaded, h, draw, j, |loaded|);
    assert Powers(loaded)[..|loaded|] == Powers(units);
    var fired := AfterVolley(loaded, h, draw);
    assert fired[j] == Wounded(Reloaded(u), DamageTo(loaded, h, draw, |loaded|, j));
    ReloadedWound(u, DamageTo(loaded, h, draw, |loaded|, j));
    SoleSurvivor(fired, j, u.army, u.typ);
  }

  lemma ReloadedAllAgainst(units: seq<Unit>, loaded: seq<Unit>, h: FightingSet, j: nat)
    requires AllAgainst(units, h, j)
    requires |loaded| == |units| && forall i :: 0 <= i < |units| ==> loaded[i].owner == units[i].owner
    ensures AllAgainst(loaded, h, j)
  {
    hide Hostile;
  }

  // -------------------------------------------------------- whole armies

  /** The armies of a place but one: each is hostile to that one's owner, and to
      nobody else there; one of them can fire. */
  ghost predicate OneTarget(fleets: seq<Fleet>, planet: Option<Planet>, h: FightingSet, army: int, q: PlayerId) {
    && !Hostile(h, q, q)
    && (forall k :: 0 <= k < |fleets| && k != army ==> Against(fleets, planet, h, army, q, fleets[k].owner))
    && (planet.Some? && army != PLANET_ARMY ==> Against(fleets, planet, h, army, q, planet.value.owner))
    && ((exists k :: 0 <= k < |fleets| && k != army && fleets[k].ships != NO_SHIPS) ||
        (planet.Some? && army != PLANET_ARMY && planet.value.cannons != NO_CANNONS))
  }

  ghost predicate Against(fleets: seq<Fleet>, planet: Option<Planet>, h: FightingSet, army: int, q: PlayerId, p: PlayerId) {
    && p != q && Hostile(h, p, q) && Hostile(h, q, p)
    && (forall k :: 0 <= k < |fleets| && k != army ==> !Hostile(h, fleets[k].owner, p))
    && (planet.Some? && army != PLANET_ARMY ==> !Hostile(h, planet.value.owner, p))
  }

  /** The one unit of army `army`. */
  ghost predicate Lone(fleets: seq<Fleet>, planet: Option<Planet>, army: int, typ: UnitType) {
    if typ < SHIPS then 0 <= army < |fleets| && fleets[army].ships == NO_SHIPS[typ := 1]
    else army == PLANET_ARMY && planet.Some? && planet.value.cannons == NO_CANNONS[typ - SHIPS := 1]
  }

  ghost function LoneOwner(fleets: seq<Fleet>, planet: Option<Planet>, army: int): PlayerId {
    if 0 <= army < |fleets| then fleets[army].owner else if planet.Some? then planet.value.owner else NO_PLAYER
  }

  lemma LoneCounts(fleets: seq<Fleet>, planet: Option<Planet>, army: int, typ: UnitType, t: UnitType)
    requires Lone(fleets, planet, army, typ)
    ensures CountUnits(AllUnits(fleets, planet), army, t) == if t == typ then 1 else 0
  {
    hide AllUnits, CountUnits;
    CountAll(fleets, planet, army, t);
  }

  /** The lone unit among all units. */
  lemma FindLone(fleets: seq<Fleet>, planet: Option<Planet>, h: FightingSet, army: int, typ: UnitType) returns (j: nat)
    requires Lone(fleets, planet, army, typ)
    requires OneTarget(fleets, planet, h, army, LoneOwner(fleets, planet, army))
    ensures var units := AllUnits(fleets, planet);
      && j < |units| && AllAgainst(units, h, j) && units[j].army == army && units[j].typ == typ
      && forall i :: 0 <= i < |units| ==> (Is(units[i], army, typ) <==> i == j)
  {
    hide AllUnits, CountUnits, Hostile;
    var units := AllUnits(fleets, planet);
    LoneCounts(fleets, planet, army, typ, typ);
    j := CountedIsThere(units, army, typ);
    AllEnrolled(fleets, planet);
    forall i | 0 <= i < |units| && i != j
      ensures units[i].army != army
    {
      if units[i].army == army {
        PresentIsCounted(units, i);
        LoneCounts(fleets, planet, army, typ, units[i].typ);
        CountAtLeastTwo(units, if i < j then i else j, if i < j then j else i);
      }
    }
    assert forall i :: 0 <= i < |units| ==> units[i] in units;
    var other;
    if k :| 0 <= k < |fleets| && k != army && fleets[k].ships != NO_SHIPS {
      other := FleetIsThereInArmy(fleets, planet, k);
    } else {
      other := CannonIsThere(fleets, planet);
    }
    assert other != j;
  }

  lemma FleetIsThereInArmy(fleets: seq<Fleet>, planet: Option<Planet>, k: nat) returns (i: nat)
    requires k < |fleets| && fleets[k].ships != NO_SHIPS
    ensures i < |AllUnits(fleets, planet)| && AllUnits(fleets, planet)[i].army == k
  {
    hide AllUnits;
    var t :| 0 <= t < SHIPS && fleets[k].ships[t] != 0;
    CountAll(fleets, planet, k, t);
    i := CountedIsThere(AllUnits(fleets, planet), k, t);
  }

  lemma CannonIsThere(fleets: seq<Fleet>, planet: Option<Planet>) returns (i: nat)
    requires planet.Some? && planet.value.cannons != NO_CANNONS
    ensures i < |AllUnits(fleets, planet)| && AllUnits(fleets, planet)[i].army == PLANET_ARMY
  {
    hide AllUnits;
    var t :| 0 <= t < CANNONS && planet.value.cannons[t] != 0;
    CountAll(fleets, planet, PLANET_ARMY, SHIPS + t);
    i := CountedIsThere(AllUnits(fleets, planet), PLANET_ARMY, SHIPS + t);
  }

  /** The line of the tables for a unit. */
  function LineOf(typ: UnitType): UnitStats {
    if typ < SHIPS then SHIP_LIST[typ] else CANNON_LIST[typ - SHIPS]
  }

  lemma LivesPositive(typ: UnitType)
    ensures LineOf(typ).life > 0
  {
    var i := if typ < SHIPS then typ else typ - SHIPS;
    assert i == 0 || i == 1 || i == 2 || i == 3 || i == 4 || i == 5 || i == 6 || i == 7 || i == 8;
  }

  /** A lone unit survives the first turn exactly when all the fire of the others,
      as the tables give it, is less than its life and shield in the tables. */
  lemma LoneUnitSurvivesIff(fleets: seq<Fleet>, planet: Option<Planet>, h: FightingSet, draw: Draw, army: int, typ: UnitType)
    requires Lone(fleets, planet, army, typ)
    requires OneTarget(fleets, planet, h, army, LoneOwner(fleets, planet, army))
    ensures var turn := TakeTurn(AllUnits(fleets, planet), h, draw);
      && turn.Continue?
      && CountUnits(turn.units, army, typ) ==
         if TotalFire(fleets, planet) - LineOf(typ).power as int < LineOf(typ).life as int + LineOf(typ).shield as int then 1 else 0
  {
    hide AllUnits, CountUnits, TakeTurn, TotalFire, OneTarget, Lone, AllAgainst, Powers;
    var units := AllUnits(fleets, planet);
    var j := FindLone(fleets, planet, h, army, typ);
    AllFresh(fleets, planet);
    LivesPositive(typ);
    assert units[j] in units;
    PowersAreFire(fleets, planet);
    OneTurn(units, h, draw, j);
  }

  // ---------------------------------------------------- the whole fight

  lemma LostArmyCounts(fleets: seq<Fleet>, planet: Option<Planet>, h: FightingSet, draws: Draws, army: int, typ: UnitType, t: UnitType)
    requires Lone(fleets, planet, army, typ)
    requires TakeTurn(AllUnits(fleets, planet), h, draws(0)).Continue?
    requires CountUnits(TakeTurn(AllUnits(fleets, planet), h, draws(0)).units, army, typ) == 0
    requires FightFrom(AllUnits(fleets, planet), h, draws, 0).Done?
    ensures CountUnits(FightFrom(AllUnits(fleets, planet), h, draws, 0).value, army, t) == 0
  {
    hide AllUnits, CountUnits, TakeTurn;
    var units := AllUnits(fleets, planet);
    if t == typ {
      FightOnlyLoses(TakeTurn(units, h, draws(0)).units, h, draws, 1, army, t);
    } else {
      LoneCounts(fleets, planet, army, typ, t);
      FightOnlyLoses(units, h, draws, 0, army, t);
    }
  }

  lemma OneTargetNoBystander(fleets: seq<Fleet>, planet: Option<Planet>, h: FightingSet, draws: Draws, army: int, typ: UnitType)
    requires Lone(fleets, planet, army, typ)
    requires OneTarget(fleets, planet, h, army, LoneOwner(fleets, planet, army))
    ensures FightResult(fleets, planet, h, draws).Done?
  {
    hide FightResult, Hostile;
    var q := LoneOwner(fleets, planet, army);
    var players := (set p | p in Owners(fleets, planet));
    OwnersOfArmies(fleets, planet, players);
    assert Lone(fleets, planet, army, typ);
    forall p | p in players && p != q
      ensures Against(fleets, planet, h, army, q, p)
    {
      var k :| 0 <= k < |Owners(fleets, planet)| && Owners(fleets, planet)[k] == p;
    }
    forall p, r | p in players && r in players && p != q && r != q
      ensures !Hostile(h, p, r)
    {
      assert Against(fleets, planet, h, army, q, r);
      var k :| 0 <= k < |Owners(fleets, planet)| && Owners(fleets, planet)[k] == p;
    }
    ArmiesNeverThrow(fleets, planet, h, draws, players);
  }

  /** A lone ship under at least that much fire is gone at the end of the fight,
      whatever the draws; so is a lone cannon. */
  lemma LoneUnitDestroyed(fleets: seq<Fleet>, planet: Option<Planet>, h: FightingSet, draws: Draws, army: int, typ: UnitType)
    requires Lone(fleets, planet, army, typ)
    requires OneTarget(fleets, planet, h, army, LoneOwner(fleets, planet, army))
    requires TotalFire(fleets, planet) - LineOf(typ).power as int >= LineOf(typ).life as int + LineOf(typ).shield as int
    ensures FightResult(fleets, planet, h, draws).Done?
    ensures var (fleets', planet') := FightResult(fleets, planet, h, draws).value;
      if typ < SHIPS then |fleets'| == |fleets| && fleets'[army].ships == NO_SHIPS
      else planet'.Some? && planet'.value.cannons == NO_CANNONS
  {
    hide AllUnits, CountUnits, TakeTurn, TotalFire, OneTarget, FightFrom;
    OneTargetNoBystander(fleets, planet, h, draws, army, typ);
    LoneUnitSurvivesIff(fleets, planet, h, draws(0), army, typ);
    forall t: UnitType
      ensures CountUnits(FightFrom(AllUnits(fleets, planet), h, draws, 0).value, army, t) == 0
    {
      LostArmyCounts(fleets, planet, h, draws, army, typ, t);
    }
  }

  // --------------------------------------------------- one type of shooter

  lemma {:induction false} SumPowerOneType(tab: seq<uint32>, list: seq<UnitStats>, t: nat)
    requires |tab| == |list| && t < |tab| && forall i :: 0 <= i < |tab| && i != t ==> tab[i] == 0
    ensures FirePower(tab, list) == tab[t] as int * list[t].power as int
  {
    var last := |tab| - 1;
    if t < last {
      SumPowerOneType(tab[..last], list[..last], t);
      assert 0 * list[last].power as int == 0;
    } else {
      NoPower(tab[..last], list[..last]);
    }
  }

  lemma {:induction false} NoPower(tab: seq<uint32>, list: seq<UnitStats>)
    requires |tab| == |list| && forall i :: 0 <= i < |tab| ==> tab[i] == 0
    ensures FirePower(tab, list) == 0
  {
    if tab != [] {
      var last := |tab| - 1;
      NoPower(tab[..last], list[..last]);
      assert 0 * list[last].power as int == 0;
    }
  }

  /** `n` ships of one type against a single ship of a hostile player: it is gone
      after the first turn exactly when their powers add up to its life and
      shield, and then at the end of the fight whatever the draws. */
  lemma ShipsAgainstShip(a: Fleet, b: Fleet, t: nat, n: uint32, u: nat, h: FightingSet, draws: Draws)
    requires t < SHIPS && u < SHIPS && n > 0
    requires a.ships == NO_SHIPS[t := n] && b.ships == NO_SHIPS[u := 1] && a.owner != b.owner
    requires forall p, q :: Hostile(h, p, q) <==> (p == a.owner && q == b.owner) || (p == b.owner && q == a.owner)
    ensures var turn := TakeTurn(AllUnits([a, b], None), h, draws(0));
      && turn.Continue?
      && (CountUnits(turn.units, 1, u) == 1 <==>
          n as int * SHIP_LIST[t].power as int < SHIP_LIST[u].life as int + SHIP_LIST[u].shield as int)
    ensures n as int * SHIP_LIST[t].power as int >= SHIP_LIST[u].life as int + SHIP_LIST[u].shield as int ==>
      FightResult([a, b], None, h, draws).Done? && FightResult([a, b], None, h, draws).value.0[1].ships == NO_SHIPS
  {
    hide TakeTurn, AllUnits, CountUnits, FightResult, Hostile, FirePower;
    var fleets := [a, b];
    assert fleets[..1][..0] == [] && fleets[..1] == [a];
    SumPowerOneType(a.ships, SHIP_LIST, t);
    SumPowerOneType(b.ships, SHIP_LIST, u);
    assert FleetsFire([a]) == FirePower(a.ships, SHIP_LIST) by { assert [a][..0] == []; }
    assert a.ships[t] == n && NO_SHIPS[t] == 0;
    assert 1 * SHIP_LIST[u].power as int == SHIP_LIST[u].power as int;
    assert OneTarget(fleets, None, h, 1, b.owner);
    LoneUnitSurvivesIff(fleets, None, h, draws(0), 1, u);
    if n as int * SHIP_LIST[t].power as int >= SHIP_LIST[u].life as int + SHIP_LIST[u].shield as int {
      LoneUnitDestroyed(fleets, None, h, draws, 1, u);
    }
  }

  /** The same of `n` ships over a planet with a single cannon. */
  lemma ShipsAgainstCannon(a: Fleet, p: Planet, t: nat, n: uint32, u: nat, h: FightingSet, draws: Draws)
    requires t < SHIPS && u < CANNONS && n > 0
    requires a.ships == NO_SHIPS[t := n] && p.cannons == NO_CANNONS[u := 1] && a.owner != p.owner
    requires forall x, y :: Hostile(h, x, y) <==> (x == a.owner && y == p.owner) || (x == p.owner && y == a.owner)
    ensures var turn := TakeTurn(AllUnits([a], Some(p)), h, draws(0));
      && turn.Continue?
      && (CountUnits(turn.units, PLANET_ARMY, SHIPS + u) == 1 <==>
          n as int * SHIP_LIST[t].power as int < CANNON_LIST[u].life as int + CANNON_LIST[u].shield as int)
    ensures n as int * SHIP_LIST[t].power as int >= CANNON_LIST[u].life as int + CANNON_LIST[u].shield as int ==>
      FightResult([a], Some(p), h, draws).Done? &&
      FightResult([a], Some(p), h, draws).value.1 == Some(p.(cannons := NO_CANNONS))
  {
    hide TakeTurn, AllUnits, CountUnits, FightResult, Hostile, FirePower;
    SumPowerOneType(a.ships, SHIP_LIST, t);
    SumPowerOneType(p.cannons, CANNON_LIST, u);
    assert FleetsFire([a]) == FirePower(a.ships, SHIP_LIST) by { assert [a][..0] == []; }
    assert a.ships[t] == n && NO_SHIPS[t] == 0;
    assert 1 * CANNON_LIST[u].power as int == CANNON_LIST[u].power as int;
    assert OneTarget([a], Some(p), h, PLANET_ARMY, p.owner);
    LoneUnitSurvivesIff([a], Some(p), h, draws(0), PLANET_ARMY, SHIPS + u);
    if n as int * SHIP_LIST[t].power as int >= CANNON_LIST[u].life as int + CANNON_LIST[u].shield as int {
      LoneUnitDestroyed([a], Some(p), h, draws, PLANET_ARMY, SHIPS + u);
      FightOnlyLosesShips([a], Some(p), h, draws);
    }
  }

  /** And of a planet's `n` cannons of one type against a single ship. */
  lemma CannonsAgainstShip(p: Planet, b: Fleet, t: nat, n: uint32, u: nat, h: FightingSet, draws: Draws)
    requires t < CANNONS && u < SHIPS && n > 0
    requires p.cannons == NO_CANNONS[t := n] && b.ships == NO_SHIPS[u := 1] && p.owner != b.owner
    requires forall x, y :: Hostile(h, x, y) <==> (x == p.owner && y == b.owner) || (x == b.owner && y == p.owner)
    ensures var turn := TakeTurn(AllUnits([b], Some(p)), h, draws(0));
      && turn.Continue?
      && (CountUnits(turn.units, 0, u) == 1 <==>
          n as int * CANNON_LIST[t].power as int < SHIP_LIST[u].life as int + SHIP_LIST[u].shield as int)
    ensures n as int * CANNON_LIST[t].power as int >= SHIP_LIST[u].life as int + SHIP_LIST[u].shield as int ==>
      FightResult([b], Some(p), h, draws).Done? && FightResult([b], Some(p), h, draws).value.0[0].ships == NO_SHIPS
  {
    hide TakeTurn, AllUnits, CountUnits, FightResult, Hostile, FirePower;
    SumPowerOneType(b.ships, SHIP_LIST, u);
    SumPowerOneType(p.cannons, CANNON_LIST, t);
    assert FleetsFire([b]) == FirePower(b.ships, SHIP_LIST) by { assert [b][..0] == []; }
    assert p.cannons[t] == n && NO_CANNONS[t] == 0;
    assert 1 * SHIP_LIST[u].power as int == SHIP_LIST[u].power as int;
    assert OneTarget([b], Some(p), h, 0, b.owner);
    LoneUnitSurvivesIff([b], Some(p), h, draws(0), 0, u);
    if n as int * CANNON_LIST[t].power as int >= SHIP_LIST[u].life as int + SHIP_LIST[u].shield as int {
      LoneUnitDestroyed([b], Some(p), h, draws, 0, u);
    }
  }
}
