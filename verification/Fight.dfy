/** A whole fight of `fighting.cpp`: armies become units, units fight for at most
    five volleys, and the survivors are counted back into the armies. */
module Fight {
  import opened Basics
  import opened Model
  import opened Combat

  const MAX_VOLLEYS := 5

  // -------------------------------------------------- armies into units

  function Copies(n: nat, u: Unit): seq<Unit> {
    seq(n, _ => u)
  }

  /** A unit fresh from the tables. */
  function NewUnit(typ: UnitType, army: int, owner: PlayerId): Unit {
    Unit(typ, StatsOf(typ).life, StatsOf(typ).shield, army, owner)
  }

  /** The units of the first `k` cells of a table whose types start at `base`. */
  function TableUnits(tab: seq<uint32>, base: nat, army: int, owner: PlayerId, k: nat): seq<Unit>
    requires k <= |tab| && base + |tab| <= SHIPS + CANNONS
  {
    if k == 0 then []
    else TableUnits(tab, base, army, owner, k - 1) + Copies(tab[k - 1], NewUnit(base + k - 1, army, owner))
  }

  function FleetUnits(f: Fleet, army: int): seq<Unit> {
    TableUnits(f.ships, 0, army, f.owner, SHIPS)
  }

  function PlanetUnits(p: Planet): seq<Unit> {
    TableUnits(p.cannons, SHIPS, PLANET_ARMY, p.owner, CANNONS)
  }

  function FleetsUnits(fleets: seq<Fleet>, n: nat): seq<Unit>
    requires n <= |fleets|
  {
    if n == 0 then [] else FleetsUnits(fleets, n - 1) + FleetUnits(fleets[n - 1], n - 1)
  }

  function AllUnits(fleets: seq<Fleet>, planet: Option<Planet>): seq<Unit> {
    FleetsUnits(fleets, |fleets|) + if planet.Some? then PlanetUnits(planet.value) else []
  }

  /** `fillShipList`: appends the units of one table, type by type. */
  method FillShipList(units0: seq<Unit>, tab: seq<uint32>, base: nat, army: int, owner: PlayerId)
    returns (units: seq<Unit>)
    requires base + |tab| <= SHIPS + CANNONS
    ensures units == units0 + TableUnits(tab, base, army, owner, |tab|)
  {
    units := units0;
    for k := 0 to |tab|
      invariant units == units0 + TableUnits(tab, base, army, owner, k)
    {
      units := units + Copies(tab[k], NewUnit(base + k, army, owner));
    }
  }

  // ------------------------------------------------------------ counting

  predicate Is(u: Unit, army: int, typ: UnitType) {
    u.army == army && u.typ == typ
  }

  function CountUnits(units: seq<Unit>, army: int, typ: UnitType): nat {
    if units == [] then 0
    else CountUnits(units[..|units| - 1], army, typ) + if Is(units[|units| - 1], army, typ) then 1 else 0
  }

  lemma {:induction false} CountConcat(a: seq<Unit>, b: seq<Unit>, army: int, typ: UnitType)
    ensures CountUnits(a + b, army, typ) == CountUnits(a, army, typ) + CountUnits(b, army, typ)
  {
    if b == [] {
      assert a + b == a;
    } else {
      assert (a + b)[..|a + b| - 1] == a + b[..|b| - 1];
      CountConcat(a, b[..|b| - 1], army, typ);
    }
  }

  lemma {:induction false} CountCopies(n: nat, u: Unit, army: int, typ: UnitType)
    ensures CountUnits(Copies(n, u), army, typ) == if Is(u, army, typ) then n else 0
  {
    if n > 0 {
      assert Copies(n, u)[..n - 1] == Copies(n - 1, u);
      CountCopies(n - 1, u, army, typ);
    }
  }

  lemma {:induction false} CountTable(tab: seq<uint32>, base: nat, a: int, owner: PlayerId, k: nat, army: int, typ: UnitType)
    requires k <= |tab| && base + |tab| <= SHIPS + CANNONS
    ensures CountUnits(TableUnits(tab, base, a, owner, k), army, typ) ==
            if a == army && base <= typ < base + k then tab[typ - base] else 0
  {
    if k > 0 {
      var u := NewUnit(base + k - 1, a, owner);
      CountTable(tab, base, a, owner, k - 1, army, typ);
      CountCopies(tab[k - 1], u, army, typ);
      CountConcat(TableUnits(tab, base, a, owner, k - 1), Copies(tab[k - 1], u), army, typ);
    }
  }

  lemma {:induction false} CountFleets(fleets: seq<Fleet>, n: nat, army: int, typ: UnitType)
    requires n <= |fleets|
    ensures CountUnits(FleetsUnits(fleets, n), army, typ) ==
            if 0 <= army < n && typ < SHIPS then fleets[army].ships[typ] else 0
  {
    hide TableUnits;
    if n > 0 {
      CountFleets(fleets, n - 1, army, typ);
      CountTable(fleets[n - 1].ships, 0, n - 1, fleets[n - 1].owner, SHIPS, army, typ);
      CountConcat(FleetsUnits(fleets, n - 1), FleetUnits(fleets[n - 1], n - 1), army, typ);
    }
  }

  /** Each army enters the fight with exactly the units of its table. */
  lemma CountAll(fleets: seq<Fleet>, planet: Option<Planet>, army: int, typ: UnitType)
    ensures CountUnits(AllUnits(fleets, planet), army, typ) ==
            if 0 <= army < |fleets| && typ < SHIPS then fleets[army].ships[typ]
            else if army == PLANET_ARMY && planet.Some? && typ >= SHIPS then planet.value.cannons[typ - SHIPS]
            else 0
  {
    hide TableUnits;
    CountFleets(fleets, |fleets|, army, typ);
    if planet.Some? {
      CountTable(planet.value.cannons, SHIPS, PLANET_ARMY, planet.value.owner, CANNONS, army, typ);
      CountConcat(FleetsUnits(fleets, |fleets|), PlanetUnits(planet.value), army, typ);
    } else {
      assert AllUnits(fleets, planet) == FleetsUnits(fleets, |fleets|);
    }
  }

  // ------------------------------------------------------- the volleys

  function Reloaded(u: Unit): Unit {
    u.(shield := StatsOf(u.typ).shield)
  }

  function LoadShield(units: seq<Unit>): (r: seq<Unit>)
    ensures |r| == |units|
    ensures forall i :: 0 <= i < |r| ==> r[i] == Reloaded(units[i])
  {
    seq(|units|, i requires 0 <= i < |units| => Reloaded(units[i]))
  }

  function Survivors(units: seq<Unit>): seq<Unit> {
    if units == [] then []
    else
      var u := units[|units| - 1];
      Survivors(units[..|units| - 1]) + if u.life > 0 then [u] else []
  }

  /** The draws of each volley. */
  type Draws = nat -> Draw

  /** The units left after one volley. */
  ghost function Volley(loaded: seq<Unit>, h: FightingSet, draw: Draw): seq<Unit>
    requires AllHaveTargets(loaded, h)
  {
    Survivors(AfterVolley(loaded, h, draw))
  }

  datatype Turn = Stop(units: seq<Unit>) | Miss | Continue(units: seq<Unit>)

  /** One turn of the loop: reload, see whether anybody must fight, fire. */
  ghost function TakeTurn(units: seq<Unit>, h: FightingSet, draw: Draw): Turn {
    var loaded := LoadShield(units);
    if !MustFight(loaded, h) then Stop(loaded)
    else if !AllHaveTargets(loaded, h) then Miss
    else Continue(Volley(loaded, h, draw))
  }

  /** The units left when the fight stops, from volley `k` on. */
  ghost function FightFrom(units: seq<Unit>, h: FightingSet, draws: Draws, k: nat): Attempt<seq<Unit>>
    requires k <= MAX_VOLLEYS
    decreases MAX_VOLLEYS - k
  {
    if k == MAX_VOLLEYS then Done(units)
    else match TakeTurn(units, h, draws(k))
      case Stop(left) => Done(left)
      case Miss => Throws
      case Continue(left) => FightFrom(left, h, draws, k + 1)
  }

  /** `b` has units of the kinds of `a`, place by place. */
  ghost predicate SameKinds(a: seq<Unit>, b: seq<Unit>) {
    && |a| == |b|
    && forall i :: 0 <= i < |a| ==> a[i].typ == b[i].typ && a[i].army == b[i].army && a[i].owner == b[i].owner
  }

  lemma {:induction false} CountSameKinds(a: seq<Unit>, b: seq<Unit>, army: int, typ: UnitType)
    requires SameKinds(a, b)
    ensures CountUnits(a, army, typ) == CountUnits(b, army, typ)
  {
    if a != [] {
      CountSameKinds(a[..|a| - 1], b[..|b| - 1], army, typ);
    }
  }

  lemma {:induction false} CountSurvivors(units: seq<Unit>, army: int, typ: UnitType)
    ensures CountUnits(Survivors(units), army, typ) <= CountUnits(units, army, typ)
    ensures forall u :: u in Survivors(units) ==> u in units && u.life > 0
  {
    if units != [] {
      var front, u := units[..|units| - 1], units[|units| - 1];
      CountSurvivors(front, army, typ);
      CountConcat(Survivors(front), if u.life > 0 then [u] else [], army, typ);
      CountSingle(u, army, typ);
    }
  }

  lemma CountSingle(u: Unit, army: int, typ: UnitType)
    ensures CountUnits([u], army, typ) == if Is(u, army, typ) then 1 else 0
    ensures CountUnits([], army, typ) == 0
  {
    assert [u][..0] == [];
  }

  /** What a turn leaves of each kind is at most what it found. */
  lemma TurnOnlyLoses(units: seq<Unit>, h: FightingSet, draw: Draw, army: int, typ: UnitType)
    requires !TakeTurn(units, h, draw).Miss?
    ensures CountUnits(TakeTurn(units, h, draw).units, army, typ) <= CountUnits(units, army, typ)
  {
    var loaded := LoadShield(units);
    CountSameKinds(units, loaded, army, typ);
    if MustFight(loaded, h) {
      var fired := AfterVolley(loaded, h, draw);
      CountSameKinds(loaded, fired, army, typ);
      CountSurvivors(fired, army, typ);
    }
  }

  /** Exactly the living are kept, as many times as they occur. */
  lemma {:induction false} SurvivorsAre(units: seq<Unit>, u: Unit)
    ensures multiset(Survivors(units))[u] == if u.life > 0 then multiset(units)[u] else 0
  {
    if units != [] {
      var front, last := units[..|units| - 1], units[|units| - 1];
      SurvivorsAre(front, u);
      assert units == front + [last];
      var kept := if last.life > 0 then [last] else [];
      assert Survivors(units) == Survivors(front) + kept;
      assert multiset(kept)[u] == if last.life > 0 && u == last then 1 else 0;
    }
  }

  /** The outcome of one turn, unit by unit: from a full shield, damage `d` takes
      the shield first and then life; a unit is left exactly when `d` is less
      than both together. */
  lemma TurnOutcome(units: seq<Unit>, h: FightingSet, draw: Draw) returns (fired: seq<Unit>, damage: seq<nat>)
    requires TakeTurn(units, h, draw).Continue?
    ensures |fired| == |damage| == |units|
    ensures AllHaveTargets(LoadShield(units), h) && damage == Damages(LoadShield(units), h, draw, |units|)
    ensures forall j :: 0 <= j < |units| ==>
      var u, d, full := units[j], damage[j], StatsOf(units[j].typ).shield;
      && fired[j] == u.(shield := Max(0, full - d), life := Max(0, u.life - Max(0, d - full)))
      && (u.life > 0 ==> (fired[j].life > 0 <==> d < full + u.life))
    ensures forall u :: multiset(TakeTurn(units, h, draw).units)[u] == if u.life > 0 then multiset(fired)[u] else 0
  {
    hide DamageTo, Survivors, MustFight, AllHaveTargets;
    var loaded := LoadShield(units);
    fired := AfterVolley(loaded, h, draw);
    damage := Damages(loaded, h, draw, |units|);
    forall u
      ensures multiset(Survivors(fired))[u] == if u.life > 0 then multiset(fired)[u] else 0
    {
      SurvivorsAre(fired, u);
    }
    forall j | 0 <= j < |units|
      ensures var u, d, full := units[j], damage[j], StatsOf(units[j].typ).shield;
        && fired[j] == u.(shield := Max(0, full - d), life := Max(0, u.life - Max(0, d - full)))
        && (u.life > 0 ==> (fired[j].life > 0 <==> d < full + u.life))
    {
      ReloadedWound(units[j], damage[j]);
      assert fired[j] == Wounded(Reloaded(units[j]), damage[j]);
    }
  }

  lemma ReloadedWound(u: Unit, d: nat)
    ensures var w, full := Wounded(Reloaded(u), d), StatsOf(u.typ).shield;
      && w == u.(shield := Max(0, full - d), life := Max(0, u.life - Max(0, d - full)))
      && (u.life > 0 ==> (w.life > 0 <==> d < full + u.life))
  {
    hide StatsOf;
  }

  /** A fight never creates a unit: each army keeps at most what it had, of
      every type. */
  lemma {:induction false} FightOnlyLoses(units: seq<Unit>, h: FightingSet, draws: Draws, k: nat, army: int, typ: UnitType)
    requires k <= MAX_VOLLEYS && FightFrom(units, h, draws, k).Done?
    ensures CountUnits(FightFrom(units, h, draws, k).value, army, typ) <= CountUnits(units, army, typ)
    decreases MAX_VOLLEYS - k
  {
    hide TakeTurn;
    if k < MAX_VOLLEYS {
      TurnOnlyLoses(units, h, draws(k), army, typ);
      var turn := TakeTurn(units, h, draws(k));
      if turn.Continue? {
        FightOnlyLoses(turn.units, h, draws, k + 1, army, typ);
      }
    }
  }

  /** Every unit belongs to a fleet of the fight or to its planet. */
  ghost predicate Enrolled(units: seq<Unit>, n: nat, planet: bool) {
    forall u :: u in units ==>
      if u.typ < SHIPS then 0 <= u.army < n else u.army == PLANET_ARMY && planet
  }

  lemma {:induction false} TableEnrolled(tab: seq<uint32>, base: nat, army: int, owner: PlayerId, k: nat)
    requires k <= |tab| && base + |tab| <= SHIPS + CANNONS
    ensures forall u :: u in TableUnits(tab, base, army, owner, k) ==>
      base <= u.typ < base + |tab| && u.army == army && u.owner == owner
  {
    if k > 0 {
      TableEnrolled(tab, base, army, owner, k - 1);
    }
  }

  lemma {:induction false} FleetsEnrolled(fleets: seq<Fleet>, n: nat)
    requires n <= |fleets|
    ensures forall u :: u in FleetsUnits(fleets, n) ==> u.typ < SHIPS && 0 <= u.army < n && u.owner == fleets[u.army].owner
  {
    hide TableUnits;
    if n > 0 {
      FleetsEnrolled(fleets, n - 1);
      TableEnrolled(fleets[n - 1].ships, 0, n - 1, fleets[n - 1].owner, SHIPS);
    }
  }

  lemma AllEnrolled(fleets: seq<Fleet>, planet: Option<Planet>)
    ensures Enrolled(AllUnits(fleets, planet), |fleets|, planet.Some?)
    ensures forall u :: u in AllUnits(fleets, planet) ==>
      if u.army == PLANET_ARMY then planet.Some? && u.owner == planet.value.owner
      else 0 <= u.army < |fleets| && u.owner == fleets[u.army].owner
  {
    hide TableUnits;
    FleetsEnrolled(fleets, |fleets|);
    if planet.Some? {
      TableEnrolled(planet.value.cannons, SHIPS, PLANET_ARMY, planet.value.owner, CANNONS);
    }
  }

  /** Some unit of `units` is of the kind of `u`. */
  ghost predicate KindIn(u: Unit, units: seq<Unit>) {
    exists i :: 0 <= i < |units| && units[i].typ == u.typ && units[i].army == u.army && units[i].owner == u.owner
  }

  ghost predicate KindsWithin(part: seq<Unit>, units: seq<Unit>) {
    forall u :: u in part ==> KindIn(u, units)
  }

  lemma KindsWithinTransitive(a: seq<Unit>, b: seq<Unit>, c: seq<Unit>)
    requires KindsWithin(a, b) && KindsWithin(b, c)
    ensures KindsWithin(a, c)
  {
    forall u | u in a
      ensures KindIn(u, c)
    {
      var i :| 0 <= i < |b| && b[i].typ == u.typ && b[i].army == u.army && b[i].owner == u.owner;
      assert b[i] in b && KindIn(b[i], c);
    }
  }

  lemma SameKindsWithin(a: seq<Unit>, b: seq<Unit>)
    requires SameKinds(a, b)
    ensures KindsWithin(b, a)
  {
  }

  lemma TurnKinds(units: seq<Unit>, h: FightingSet, draw: Draw)
    requires !TakeTurn(units, h, draw).Miss?
    ensures KindsWithin(TakeTurn(units, h, draw).units, units)
  {
    var loaded := LoadShield(units);
    SameKindsWithin(units, loaded);
    if MustFight(loaded, h) {
      var fired := AfterVolley(loaded, h, draw);
      CountSurvivors(fired, 0, 0);
      SameKindsWithin(units, fired);
    }
  }

  /** Whoever is in the fight was in it at the start, with the same owner. */
  lemma {:induction false} FightKeepsKinds(units: seq<Unit>, h: FightingSet, draws: Draws, k: nat)
    requires k <= MAX_VOLLEYS && FightFrom(units, h, draws, k).Done?
    ensures KindsWithin(FightFrom(units, h, draws, k).value, units)
    decreases MAX_VOLLEYS - k
  {
    hide TakeTurn;
    if k == MAX_VOLLEYS {
      SameKindsWithin(units, units);
    } else {
      TurnKinds(units, h, draws(k));
      var turn := TakeTurn(units, h, draws(k));
      if turn.Continue? {
        FightKeepsKinds(turn.units, h, draws, k + 1);
        KindsWithinTransitive(FightFrom(turn.units, h, draws, k + 1).value, turn.units, units);
      }
    }
  }

  lemma FightKeepsEnrolled(units: seq<Unit>, h: FightingSet, draws: Draws, n: nat, planet: bool)
    requires FightFrom(units, h, draws, 0).Done? && Enrolled(units, n, planet)
    ensures Enrolled(FightFrom(units, h, draws, 0).value, n, planet)
  {
    FightKeepsKinds(units, h, draws, 0);
    forall u | u in FightFrom(units, h, draws, 0).value
      ensures if u.typ < SHIPS then 0 <= u.army < n else u.army == PLANET_ARMY && planet
    {
      assert KindIn(u, units);
    }
  }

  lemma TurnStops(units: seq<Unit>, h: FightingSet, draw: Draw)
    requires TakeTurn(units, h, draw).Stop?
    ensures !MustFight(TakeTurn(units, h, draw).units, h)
  {
  }

  /** The number of volleys fired from turn `k` on. */
  ghost function VolleysFired(units: seq<Unit>, h: FightingSet, draws: Draws, k: nat): nat
    requires k <= MAX_VOLLEYS
    decreases MAX_VOLLEYS - k
  {
    if k == MAX_VOLLEYS then 0
    else
      var turn := TakeTurn(units, h, draws(k));
      if turn.Continue? then 1 + VolleysFired(turn.units, h, draws, k + 1) else 0
  }

  /** At most five volleys are fired; after fewer no hostile pair is left alive. */
  lemma {:induction false} FightEnds(units: seq<Unit>, h: FightingSet, draws: Draws, k: nat)
    requires k <= MAX_VOLLEYS && FightFrom(units, h, draws, k).Done?
    ensures k + VolleysFired(units, h, draws, k) <= 5
    ensures k + VolleysFired(units, h, draws, k) < 5 ==> !MustFight(FightFrom(units, h, draws, k).value, h)
    decreases MAX_VOLLEYS - k
  {
    hide TakeTurn;
    if k < MAX_VOLLEYS {
      var turn := TakeTurn(units, h, draws(k));
      if turn.Continue? {
        FightEnds(turn.units, h, draws, k + 1);
      } else {
        TurnStops(units, h, draws(k));
      }
    }
  }

  lemma PairwiseSubset(units: seq<Unit>, part: seq<Unit>, h: FightingSet)
    requires PairwiseHostile(units, h) && KindsWithin(part, units)
    ensures PairwiseHostile(part, h)
  {
    forall i, j | 0 <= i < |part| && 0 <= j < |part| && part[i].owner != part[j].owner
      ensures Hostile(h, part[i].owner, part[j].owner)
    {
      assert part[i] in part && KindIn(part[i], units);
      assert part[j] in part && KindIn(part[j], units);
    }
  }

  lemma PairwiseHostileTurn(units: seq<Unit>, h: FightingSet, draw: Draw)
    requires PairwiseHostile(units, h)
    ensures !TakeTurn(units, h, draw).Miss?
    ensures PairwiseHostile(TakeTurn(units, h, draw).units, h)
  {
    var loaded := LoadShield(units);
    SameKindsWithin(units, loaded);
    PairwiseSubset(units, loaded, h);
    if MustFight(loaded, h) {
      PairwiseHostileHaveTargets(loaded, h);
    }
    TurnKinds(units, h, draw);
    PairwiseSubset(units, TakeTurn(units, h, draw).units, h);
  }

  /** Among pairwise hostile players a fight never throws, whatever the draws. */
  lemma {:induction false} PairwiseHostileNeverThrows(units: seq<Unit>, h: FightingSet, draws: Draws, k: nat)
    requires k <= MAX_VOLLEYS && PairwiseHostile(units, h)
    ensures FightFrom(units, h, draws, k).Done?
    decreases MAX_VOLLEYS - k
  {
    hide TakeTurn;
    if k < MAX_VOLLEYS {
      PairwiseHostileTurn(units, h, draws(k));
      var turn := TakeTurn(units, h, draws(k));
      if turn.Continue? {
        PairwiseHostileNeverThrows(turn.units, h, draws, k + 1);
      }
    }
  }

  /** A turn throws exactly when somebody must fight while a player with units
      present has nobody to shoot at, and changes nobody when nobody must fight. */
  lemma TurnThrowsIff(units: seq<Unit>, h: FightingSet, draw: Draw)
    ensures TakeTurn(units, h, draw).Miss? <==>
      MustFight(units, h) && exists i :: 0 <= i < |units| && !HasEnemy(units, h, units[i].owner)
    ensures !MustFight(units, h) ==> TakeTurn(units, h, draw) == Stop(LoadShield(units))
  {
    hide AllHaveTargets, HasEnemy, MustFight, Volley, StatsOf;
    var loaded := LoadShield(units);
    SameHostilities(units, loaded, h);
    TargetsForAll(loaded, h);
  }

  /** Hostility looks at owners only. */
  lemma SameHostilities(a: seq<Unit>, b: seq<Unit>, h: FightingSet)
    requires |a| == |b| && forall i :: 0 <= i < |a| ==> a[i].owner == b[i].owner
    ensures MustFight(a, h) <==> MustFight(b, h)
    ensures forall i :: 0 <= i < |a| ==> (HasEnemy(a, h, a[i].owner) <==> HasEnemy(b, h, b[i].owner))
  {
    hide Hostile;
    assert forall i, j :: HostilePair(a, h, i, j) <==> HostilePair(b, h, i, j);
  }

  // ----------------------------------------------- survivors into armies

  function Refill(units: seq<Unit>, base: nat, size: nat, army: int): (r: seq<uint32>)
    requires base + size <= SHIPS + CANNONS
    ensures |r| == size
    ensures forall t :: 0 <= t < size ==> r[t] == CountUnits(units, army, base + t) % TWO32
  {
    seq(size, t requires 0 <= t < size => CountUnits(units, army, base + t) % TWO32)
  }

  function RefilledFleet(f: Fleet, units: seq<Unit>, army: int): Fleet {
    f.(ships := Refill(units, 0, SHIPS, army))
  }

  function RefilledFleets(fleets: seq<Fleet>, units: seq<Unit>): (r: seq<Fleet>)
    ensures |r| == |fleets|
    ensures forall i :: 0 <= i < |r| ==> r[i] == RefilledFleet(fleets[i], units, i)
  {
    seq(|fleets|, i requires 0 <= i < |fleets| => RefilledFleet(fleets[i], units, i))
  }

  function RefilledPlanet(planet: Option<Planet>, units: seq<Unit>): Option<Planet> {
    if planet.Some? then Some(planet.value.(cannons := Refill(units, SHIPS, CANNONS, PLANET_ARMY))) else None
  }

  /** The armies after a fight, or an exception. */
  ghost function FightResult(fleets: seq<Fleet>, planet: Option<Planet>, h: FightingSet, draws: Draws)
    : Attempt<(seq<Fleet>, Option<Planet>)>
  {
    match FightFrom(AllUnits(fleets, planet), h, draws, 0)
    case Throws => Throws
    case Done(units) => Done((RefilledFleets(fleets, units), RefilledPlanet(planet, units)))
  }

  /** `fight` on the armies: in-place on the fleets, with the planet returned. */
  method FightArmies(fleets: array<Fleet>, planet0: Option<Planet>, h: FightingSet, draws: Draws)
    returns (thrown: bool, planet: Option<Planet>)
    requires Symmetric(h)
    modifies fleets
    ensures thrown <==> FightResult(old(fleets[..]), planet0, h, draws).Throws?
    ensures !thrown ==> FightResult(old(fleets[..]), planet0, h, draws) == Done((fleets[..], planet))
  {
    hide FightFrom;
    ghost var fleets0 := fleets[..];
    planet := planet0;
    var units: seq<Unit> := [];
    for i := 0 to fleets.Length
      invariant fleets[..] == fleets0
      invariant units == FleetsUnits(fleets0, i)
    {
      units := FillShipList(units, fleets[i].ships, 0, i, fleets[i].owner);
      assert units == FleetsUnits(fleets0, i) + FleetUnits(fleets0[i], i);
    }
    if planet.Some? {
      units := FillShipList(units, planet.value.cannons, SHIPS, PLANET_ARMY, planet.value.owner);
    }
    ghost var start := units;
    assert start == AllUnits(fleets0, planet0);
    thrown, units := RunVolleys(units, h, draws);
    if thrown {
      return;
    }
    AllEnrolled(fleets0, planet0);
    FightKeepsEnrolled(start, h, draws, |fleets0|, planet0.Some?);
    ClearFleets(fleets);
    var cannons := CountSurvivorsBack(fleets, units, fleets0, planet0.Some?);
    if planet.Some? {
      planet := Some(planet.value.(cannons := cannons));
    }
  }

  /** Counting one more unit changes one cell of one army. */
  lemma RefillStep(units: seq<Unit>, k: nat, base: nat, size: nat, army: int)
    requires k < |units| && base + size <= SHIPS + CANNONS
    ensures var before, after := Refill(units[..k], base, size, army), Refill(units[..k + 1], base, size, army);
      after ==
        if units[k].army == army && base <= units[k].typ < base + size then
          before[units[k].typ - base := (before[units[k].typ - base] as int + 1) % TWO32]
        else before
  {
    assert units[..k + 1][..k] == units[..k] && units[..k + 1][k] == units[k];
    hide CountUnits;
    var before, after := Refill(units[..k], base, size, army), Refill(units[..k + 1], base, size, army);
    forall t | 0 <= t < size
      ensures after[t] == if units[k].army == army && units[k].typ == base + t then (before[t] as int + 1) % TWO32 else before[t]
    {
      CountNextUnit(units, k, army, base + t);
      OneMoreModulo(CountUnits(units[..k], army, base + t));
    }
  }

  lemma CountNextUnit(units: seq<Unit>, k: nat, army: int, typ: UnitType)
    requires k < |units|
    ensures CountUnits(units[..k + 1], army, typ) ==
            CountUnits(units[..k], army, typ) + if Is(units[k], army, typ) then 1 else 0
  {
    assert units[..k + 1][..k] == units[..k] && units[..k + 1][k] == units[k];
  }

  lemma OneMoreModulo(n: nat)
    ensures (n % TWO32 + 1) % TWO32 == (n + 1) % TWO32
  {
  }

  function Bumped(tab: seq<uint32>, t: nat): (r: seq<uint32>)
    requires t < |tab|
    ensures |r| == |tab|
  {
    tab[t := (tab[t] as int + 1) % TWO32]
  }

  /** Counting a ship changes its fleet; counting a cannon changes none. */
  lemma CountedStep(fleets: seq<Fleet>, fleets0: seq<Fleet>, units: seq<Unit>, k: nat)
    requires k < |units| && Counted(fleets, fleets0, units[..k])
    requires if units[k].typ < SHIPS then 0 <= units[k].army < |fleets0| else units[k].army == PLANET_ARMY
    ensures var u := units[k];
      Counted(if u.army == PLANET_ARMY then fleets
              else fleets[u.army := fleets[u.army].(ships := Bumped(fleets[u.army].ships, u.typ))],
              fleets0, units[..k + 1])
  {
    forall i | 0 <= i < |fleets0|
      ensures RefilledFleet(fleets0[i], units[..k + 1], i) ==
        if i == units[k].army then fleets[i].(ships := Bumped(fleets[i].ships, units[k].typ)) else fleets[i]
    {
      RefillStep(units, k, 0, SHIPS, i);
    }
  }

  /** Every surviving unit adds one to its cell of its army. */
  method CountSurvivorsBack(fleets: array<Fleet>, units: seq<Unit>, ghost fleets0: seq<Fleet>, ghost planet: bool)
    returns (cannons: CannonTab)
    requires Enrolled(units, |fleets0|, planet) && |fleets0| == fleets.Length
    requires Counted(fleets[..], fleets0, [])
    modifies fleets
    ensures Counted(fleets[..], fleets0, units)
    ensures cannons == Refill(units, SHIPS, CANNONS, PLANET_ARMY)
  {
    hide Counted;
    cannons := NO_CANNONS;
    assert cannons == Refill([], SHIPS, CANNONS, PLANET_ARMY);
    assert units[..0] == [];
    for k := 0 to |units|
      invariant Counted(fleets[..], fleets0, units[..k])
      invariant cannons == Refill(units[..k], SHIPS, CANNONS, PLANET_ARMY)
    {
      var u := units[k];
      assert u in units;
      RefillStep(units, k, SHIPS, CANNONS, PLANET_ARMY);
      CountedStep(fleets[..], fleets0, units, k);
      if u.army == PLANET_ARMY {
        cannons := Bumped(cannons, u.typ - SHIPS);
      } else {
        fleets[u.army] := fleets[u.army].(ships := Bumped(fleets[u.army].ships, u.typ));
      }
    }
    assert units[..|units|] == units;
  }

  ghost predicate Counted(fleets: seq<Fleet>, fleets0: seq<Fleet>, units: seq<Unit>) {
    fleets == RefilledFleets(fleets0, units)
  }

  method ClearFleets(fleets: array<Fleet>)
    modifies fleets
    ensures Counted(fleets[..], old(fleets[..]), [])
  {
    for i := 0 to fleets.Length
      invariant forall j :: 0 <= j < i ==> fleets[j] == old(fleets[j]).(ships := NO_SHIPS)
      invariant forall j :: i <= j < fleets.Length ==> fleets[j] == old(fleets[j])
    {
      fleets[i] := fleets[i].(ships := NO_SHIPS);
    }
    assert forall j :: 0 <= j < fleets.Length ==> Refill([], 0, SHIPS, j) == NO_SHIPS;
  }

  /** `remove_erase_if` on the dead. */
  method Prune(units: seq<Unit>) returns (alive: seq<Unit>)
    ensures alive == Survivors(units)
  {
    alive := [];
    for i := 0 to |units|
      invariant alive == Survivors(units[..i])
    {
      assert units[..i + 1][..i] == units[..i];
      if units[i].life > 0 {
        alive := alive + [units[i]];
      }
    }
    assert units[..|units|] == units;
  }

  /** One turn: reload, look for enemies, list them, fire, remove the dead. */
  method RunTurn(units: seq<Unit>, h: FightingSet, draw: Draw) returns (turn: Turn)
    requires Symmetric(h)
    ensures turn == TakeTurn(units, h, draw)
  {
    var loaded := LoadShield(units);
    var again := FightAgain(loaded, h);
    if !again {
      return Stop(loaded);
    }
    var enemies := BuildEnemies(loaded, h);
    var a := new Unit[|loaded|](i requires 0 <= i < |loaded| => loaded[i]);
    assert a[..] == loaded;
    var missed := Fire(a, enemies, h, draw);
    if missed {
      return Miss;
    }
    var alive := Prune(a[..]);
    return Continue(alive);
  }

  /** The loop of at most five volleys. */
  method RunVolleys(units0: seq<Unit>, h: FightingSet, draws: Draws) returns (thrown: bool, units: seq<Unit>)
    requires Symmetric(h)
    ensures thrown <==> FightFrom(units0, h, draws, 0).Throws?
    ensures !thrown ==> FightFrom(units0, h, draws, 0) == Done(units)
  {
    hide TakeTurn;
    units := units0;
    for k := 0 to MAX_VOLLEYS
      invariant FightFrom(units0, h, draws, 0) == FightFrom(units, h, draws, k)
    {
      var turn := RunTurn(units, h, draws(k));
      match turn {
        case Stop(left) => return false, left;
        case Miss => return true, units;
        case Continue(left) => units := left;
      }
    }
    return false, units;
  }
}
