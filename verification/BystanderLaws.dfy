/** Players caught between others who fight: when that makes a fight throw, and
    what it means for a planet. */
module BystanderLaws {
  import opened Basics
  import opened Model
  import opened Combat
  import opened Fight
  import opened FightLaws

  /** Nobody fights himself: scripts are only asked about two different players. */
  ghost predicate Irreflexive(h: FightingSet) {
    forall p :: !Hostile(h, p, p)
  }

  /** Whenever two of these players are hostile, any third is hostile to one of
      the two. */
  ghost predicate NoBystander(players: set<PlayerId>, h: FightingSet) {
    forall p, q, r :: p in players && q in players && r in players && p != q && Hostile(h, p, q) ==>
      Hostile(h, p, r) || Hostile(h, q, r)
  }

  lemma FewerBystanders(few: set<PlayerId>, many: set<PlayerId>, h: FightingSet)
    requires few <= many && NoBystander(many, h)
    ensures NoBystander(few, h)
  {
  }

  ghost predicate OwnedBy(units: seq<Unit>, players: set<PlayerId>) {
    forall i :: 0 <= i < |units| ==> units[i].owner in players
  }

  lemma SameOwnersWithin(units: seq<Unit>, part: seq<Unit>, players: set<PlayerId>)
    requires OwnedBy(units, players) && KindsWithin(part, units)
    ensures OwnedBy(part, players)
  {
    forall i | 0 <= i < |part|
      ensures part[i].owner in players
    {
      assert part[i] in part && KindIn(part[i], units);
    }
  }

  lemma EverybodyHasAnEnemy(units: seq<Unit>, h: FightingSet, players: set<PlayerId>)
    requires OwnedBy(units, players) && NoBystander(players, h) && MustFight(units, h)
    ensures forall i :: 0 <= i < |units| ==> HasEnemy(units, h, units[i].owner)
  {
    var a, b :| HostilePair(units, h, a, b);
    forall i | 0 <= i < |units|
      ensures HasEnemy(units, h, units[i].owner)
    {
      var j := if Hostile(h, units[a].owner, units[i].owner) then a else b;
      assert Hostile(h, units[j].owner, units[i].owner);
    }
  }

  lemma NoBystanderTurn(units: seq<Unit>, h: FightingSet, draw: Draw, players: set<PlayerId>)
    requires OwnedBy(units, players) && NoBystander(players, h)
    ensures !TakeTurn(units, h, draw).Miss?
    ensures OwnedBy(TakeTurn(units, h, draw).units, players)
  {
    hide TakeTurn, OwnedBy, KindsWithin, NoBystander, MustFight, HasEnemy;
    TurnThrowsIff(units, h, draw);
    if MustFight(units, h) {
      EverybodyHasAnEnemy(units, h, players);
    }
    TurnKinds(units, h, draw);
    SameOwnersWithin(units, TakeTurn(units, h, draw).units, players);
  }

  /** Without bystanders a fight never throws, whatever the draws. */
  lemma {:induction false} NoBystanderNeverThrows(units: seq<Unit>, h: FightingSet, draws: Draws, k: nat, players: set<PlayerId>)
    requires k <= MAX_VOLLEYS && OwnedBy(units, players) && NoBystander(players, h)
    ensures FightFrom(units, h, draws, k).Done?
    decreases MAX_VOLLEYS - k
  {
    hide TakeTurn, NoBystander, OwnedBy;
    if k < MAX_VOLLEYS {
      NoBystanderTurn(units, h, draws(k), players);
      var turn := TakeTurn(units, h, draws(k));
      if turn.Continue? {
        NoBystanderNeverThrows(turn.units, h, draws, k + 1, players);
      }
    }
  }

  // -------------------------------------------- who is there to be shot

  lemma {:induction false} CountedIsThere(units: seq<Unit>, army: int, typ: UnitType) returns (i: nat)
    requires CountUnits(units, army, typ) > 0
    ensures i < |units| && units[i].army == army && units[i].typ == typ
  {
    var last := |units| - 1;
    if Is(units[last], army, typ) {
      i := last;
    } else {
      i := CountedIsThere(units[..last], army, typ);
    }
  }

  /** A fleet with ships has a unit in the fight. */
  lemma FleetIsThere(fleets: seq<Fleet>, planet: Option<Planet>, k: nat) returns (i: nat)
    requires k < |fleets| && fleets[k].ships != NO_SHIPS
    ensures i < |AllUnits(fleets, planet)| && AllUnits(fleets, planet)[i].owner == fleets[k].owner
  {
    hide AllUnits, TableUnits;
    var t :| 0 <= t < SHIPS && fleets[k].ships[t] != 0;
    CountAll(fleets, planet, k, t);
    i := CountedIsThere(AllUnits(fleets, planet), k, t);
    AllEnrolled(fleets, planet);
    assert AllUnits(fleets, planet)[i] in AllUnits(fleets, planet);
  }

  /** So has a planet with a cannon. */
  lemma PlanetIsThere(fleets: seq<Fleet>, planet: Option<Planet>) returns (i: nat)
    requires planet.Some? && planet.value.cannons != NO_CANNONS
    ensures i < |AllUnits(fleets, planet)| && AllUnits(fleets, planet)[i].owner == planet.value.owner
  {
    hide AllUnits, TableUnits;
    var t :| 0 <= t < CANNONS && planet.value.cannons[t] != 0;
    CountAll(fleets, planet, PLANET_ARMY, SHIPS + t);
    i := CountedIsThere(AllUnits(fleets, planet), PLANET_ARMY, SHIPS + t);
    AllEnrolled(fleets, planet);
    assert AllUnits(fleets, planet)[i] in AllUnits(fleets, planet);
  }

  lemma FirstTurnThrows(fleets: seq<Fleet>, planet: Option<Planet>, h: FightingSet, draws: Draws)
    requires MustFight(AllUnits(fleets, planet), h)
    requires exists i :: 0 <= i < |AllUnits(fleets, planet)| && !HasEnemy(AllUnits(fleets, planet), h, AllUnits(fleets, planet)[i].owner)
    ensures FightResult(fleets, planet, h, draws).Throws?
  {
    hide AllUnits, TakeTurn;
    TurnThrowsIff(AllUnits(fleets, planet), h, draws(0));
  }

  lemma MustFightFleets(fleets: seq<Fleet>, planet: Option<Planet>, h: FightingSet, a: nat, b: nat)
    requires a < |fleets| && b < |fleets| && fleets[a].ships != NO_SHIPS && fleets[b].ships != NO_SHIPS
    requires fleets[a].owner != fleets[b].owner && Hostile(h, fleets[a].owner, fleets[b].owner)
    ensures MustFight(AllUnits(fleets, planet), h)
  {
    hide AllUnits;
    var i := FleetIsThere(fleets, planet, a);
    var j := FleetIsThere(fleets, planet, b);
    assert HostilePair(AllUnits(fleets, planet), h, i, j);
  }

  /** Nobody here is hostile to this player. */
  ghost predicate LeftAlone(h: FightingSet, fleets: seq<Fleet>, planet: Option<Planet>, p: PlayerId) {
    forall q :: q in Owners(fleets, planet) ==> !Hostile(h, q, p)
  }

  lemma NoEnemyHere(fleets: seq<Fleet>, planet: Option<Planet>, h: FightingSet, p: PlayerId)
    requires LeftAlone(h, fleets, planet, p)
    ensures !HasEnemy(AllUnits(fleets, planet), h, p)
  {
    hide AllUnits, Owners;
    UnitOwners(fleets, planet);
    assert forall i :: 0 <= i < |AllUnits(fleets, planet)| ==> AllUnits(fleets, planet)[i] in AllUnits(fleets, planet);
  }

  /** Where two fleets fight, a fight that does not throw has no unit of a
      player everybody leaves alone. */
  lemma BystanderHasNoUnit(fleets: seq<Fleet>, planet: Option<Planet>, h: FightingSet, draws: Draws, p: PlayerId, a: nat, b: nat)
    requires a < |fleets| && b < |fleets| && fleets[a].ships != NO_SHIPS && fleets[b].ships != NO_SHIPS
    requires fleets[a].owner != fleets[b].owner && Hostile(h, fleets[a].owner, fleets[b].owner)
    requires LeftAlone(h, fleets, planet, p) && FightResult(fleets, planet, h, draws).Done?
    ensures forall k :: 0 <= k < |fleets| && fleets[k].owner == p ==> fleets[k].ships == NO_SHIPS
    ensures planet.Some? && planet.value.owner == p ==> planet.value.cannons == NO_CANNONS
  {
    hide AllUnits, FightResult;
    MustFightFleets(fleets, planet, h, a, b);
    NoEnemyHere(fleets, planet, h, p);
    if planet.Some? && planet.value.owner == p && planet.value.cannons != NO_CANNONS {
      var i := PlanetIsThere(fleets, planet);
      FirstTurnThrows(fleets, planet, h, draws);
    }
    if k :| 0 <= k < |fleets| && fleets[k].owner == p && fleets[k].ships != NO_SHIPS {
      var i := FleetIsThere(fleets, planet, k);
      FirstTurnThrows(fleets, planet, h, draws);
    }
  }

  // -------------------------------------------------- the exact condition

  /** Every fight among armies of these players ends, whatever the draws. */
  ghost predicate FightsEnd(players: set<PlayerId>, h: FightingSet) {
    forall fleets, planet, draws :: (forall p :: p in Owners(fleets, planet) ==> p in players) ==>
      FightResult(fleets, planet, h, draws).Done?
  }

  /** These players own the fleets, and the planet if it has a cannon. */
  ghost predicate ArmiesOf(fleets: seq<Fleet>, planet: Option<Planet>, players: set<PlayerId>) {
    && (forall k :: 0 <= k < |fleets| ==> fleets[k].owner in players)
    && (planet.Some? && planet.value.cannons != NO_CANNONS ==> planet.value.owner in players)
  }

  lemma {:induction false} PresentIsCounted(units: seq<Unit>, i: nat)
    requires i < |units|
    ensures CountUnits(units, units[i].army, units[i].typ) > 0
  {
    var last := |units| - 1;
    if i < last {
      PresentIsCounted(units[..last], i);
    }
  }

  lemma UnitsOfArmies(fleets: seq<Fleet>, planet: Option<Planet>, players: set<PlayerId>)
    requires ArmiesOf(fleets, planet, players)
    ensures OwnedBy(AllUnits(fleets, planet), players)
  {
    hide AllUnits;
    var units := AllUnits(fleets, planet);
    AllEnrolled(fleets, planet);
    forall i | 0 <= i < |units|
      ensures units[i].owner in players
    {
      assert units[i] in units;
      if units[i].army == PLANET_ARMY && planet.value.cannons == NO_CANNONS {
        CountAll(fleets, planet, PLANET_ARMY, units[i].typ);
        PresentIsCounted(units, i);
      }
    }
  }

  /** Armies whose owners cannot be bystanders fight to the end. */
  lemma ArmiesNeverThrow(fleets: seq<Fleet>, planet: Option<Planet>, h: FightingSet, draws: Draws, players: set<PlayerId>)
    requires ArmiesOf(fleets, planet, players) && NoBystander(players, h)
    ensures FightResult(fleets, planet, h, draws).Done?
  {
    hide AllUnits, FightFrom, ArmiesOf, NoBystander;
    UnitsOfArmies(fleets, planet, players);
    NoBystanderNeverThrows(AllUnits(fleets, planet), h, draws, 0, players);
  }

  lemma OwnersOfArmies(fleets: seq<Fleet>, planet: Option<Planet>, players: set<PlayerId>)
    requires forall p :: p in Owners(fleets, planet) ==> p in players
    ensures ArmiesOf(fleets, planet, players)
  {
    var owners := Owners(fleets, planet);
    forall k | 0 <= k < |fleets|
      ensures fleets[k].owner in players
    {
      assert owners[k] in owners && owners[k] == fleets[k].owner;
    }
    if planet.Some? {
      assert owners[|fleets|] in owners && owners[|fleets|] == planet.value.owner;
    }
  }

  function Mosquito(id: FleetId, owner: PlayerId): Fleet {
    var c := Coord(0, 0, 0);
    Fleet(id, owner, c, c, NO_SHIPS[0 := 1], NO_RESOURCES, None)
  }

  lemma ThreeMosquitoes(players: set<PlayerId>, h: FightingSet, p: PlayerId, q: PlayerId, r: PlayerId)
    requires Symmetric(h) && Irreflexive(h)
    requires p in players && q in players && r in players && p != q && Hostile(h, p, q)
    requires !Hostile(h, p, r) && !Hostile(h, q, r)
    ensures !FightsEnd(players, h)
  {
    hide AllUnits, FightResult;
    var fleets := [Mosquito(1, p), Mosquito(2, q), Mosquito(3, r)];
    var draws: Draws := (k: nat) => (i: nat, n: nat) => 0;
    assert Owners(fleets, None) == [p, q, r];
    assert forall k :: 0 <= k < 3 ==> fleets[k].ships[0] == 1 && NO_SHIPS[0] == 0;
    MustFightFleets(fleets, None, h, 0, 1);
    NoEnemyHere(fleets, None, h, r);
    var i := FleetIsThere(fleets, None, 2);
    FirstTurnThrows(fleets, None, h, draws);
    assert FightResult(fleets, None, h, draws).Throws?;
  }

  /** All fights among some players end, for all armies and all draws, exactly
      when none of them can be a bystander of two hostile others. */
  lemma FightsEndIff(players: set<PlayerId>, h: FightingSet)
    requires Symmetric(h) && Irreflexive(h)
    ensures FightsEnd(players, h) <==> NoBystander(players, h)
  {
    hide FightResult, Owners;
    if NoBystander(players, h) {
      forall fleets, planet, draws | forall p :: p in Owners(fleets, planet) ==> p in players
        ensures FightResult(fleets, planet, h, draws).Done?
      {
        OwnersOfArmies(fleets, planet, players);
        ArmiesNeverThrow(fleets, planet, h, draws, players);
      }
    } else {
      var p, q, r :| p in players && q in players && r in players && p != q && Hostile(h, p, q) &&
                     !(Hostile(h, p, r) || Hostile(h, q, r));
      ThreeMosquitoes(players, h, p, q, r);
    }
  }
}
