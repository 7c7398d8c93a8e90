/** The fight phase seen from the galaxy it starts with: who is lost, and where
    the survivors hang afterwards. */
module LossLaws {
  import opened Basics
  import opened Model
  import opened Planets
  import opened Fleets
  import opened Forest
  import opened Multimap
  import opened Combat
  import opened Fight
  import opened FightLaws
  import opened BystanderLaws
  import opened Phases
  import opened PhaseLaws
  import opened BattleLaws
  import opened RunLaws

  // ------------------------------------- the tree is the one before the war

  lemma {:induction false} SameAncestor(planets: PlanetMap, planets': PlanetMap, c: Coord, n: nat)
    requires SameTree(planets, planets')
    ensures Ancestor(planets', c, n) == Ancestor(planets, c, n)
  {
    if n > 0 {
      SameAncestor(planets, planets', c, n - 1);
    }
  }

  lemma SameGone(planets: PlanetMap, planets': PlanetMap, main: MainMap, lost: seq<Coord>)
    requires SameTree(planets, planets')
    ensures forall c :: Gone(planets', main, lost, c) <==> Gone(planets, main, lost, c)
  {
  }

  lemma SameNearest(planets: PlanetMap, planets': PlanetMap, main: MainMap, lost: seq<Coord>, c: Coord, r: Coord)
    requires SameTree(planets, planets') && NearestSurvivor(planets', main, lost, c, r)
    ensures NearestSurvivor(planets, main, lost, c, r)
  {
    hide Ancestor, Gone;
    SameGone(planets, planets', main, lost);
    var n: nat :|
      && Ancestor(planets', c, n) == r
      && !Gone(planets', main, lost, r)
      && forall k :: 0 <= k < n ==> Gone(planets', main, lost, Ancestor(planets', c, k));
    SameAncestor(planets, planets', c, n);
    forall k | 0 <= k < n
      ensures Gone(planets, main, lost, Ancestor(planets, c, k))
    {
      SameAncestor(planets, planets', c, k);
      assert Gone(planets', main, lost, Ancestor(planets', c, k));
    }
  }

  lemma WarKeepsTree(g: Galaxy, w: War)
    requires WarSoFar(g, w)
    ensures SameTree(g.planets, w.planets)
  {
    forall c | c in g.planets
      ensures w.planets[c].owner == g.planets[c].owner && w.planets[c].parent == g.planets[c].parent
    {
      assert CannonsLost(g.planets[c], w.planets[c]);
    }
  }

  // ------------------------------------------------------ the survivors

  /** A lost planet is free and bare, with its stock; any other keeps all but cannons,
      and if owned hangs below its nearest ancestor that was not lost. */
  ghost predicate PlanetSettled(planets: PlanetMap, main: MainMap, lost: seq<Coord>, c: Coord, q: Planet)
    requires c in planets
  {
    var p := planets[c];
    if Gone(planets, main, lost, c) then q == Planet(NO_PLAYER, NO_BUILDINGS, None, p.stock, NO_CANNONS, c, NO_SHIPS)
    else
      && q == p.(cannons := q.cannons, parent := q.parent) && AtMost(q.cannons, p.cannons)
      && (p.owner == NO_PLAYER ==> q.parent == p.parent)
      && (p.owner != NO_PLAYER ==> NearestSurvivor(planets, main, lost, p.parent, q.parent))
  }

  /** A fleet that survives has lost ships at most, and its origin is the nearest
      ancestor of the old one that was not lost. */
  ghost predicate FleetSettled(planets: PlanetMap, main: MainMap, lost: seq<Coord>, f0: Fleet, f: Fleet) {
    && f == f0.(ships := f.ships, origin := f.origin)
    && f.ships != NO_SHIPS && AtMost(f.ships, f0.ships)
    && NearestSurvivor(planets, main, lost, f0.origin, f.origin)
  }

  lemma PlanetSettles(g: Galaxy, w: War, main: MainMap, rank: Rank, c: Coord)
    requires WarSoFar(g, w) && Ranked(w.planets, main, rank) && c in g.planets
    ensures c in PlanetsAfterLosses(w.planets, main, w.lost)
    ensures PlanetSettled(g.planets, main, w.lost, c, PlanetsAfterLosses(w.planets, main, w.lost)[c])
  {
    hide Ranked, FleetsFought, PlanetsAfterLosses, NearestSurvivor, LoseUpTo;
    WarKeepsTree(g, w);
    LossesKeepForest(w.planets, main, rank, w.lost);
    SameGone(g.planets, w.planets, main, w.lost);
    var q := PlanetsAfterLosses(w.planets, main, w.lost)[c];
    var p, p1 := g.planets[c], w.planets[c];
    assert CannonsLost(p, p1);
    if Gone(w.planets, main, w.lost, c) {
      var i :| 0 <= i < |w.lost| && w.lost[i] == c;
      assert w.planets[w.lost[i]].cannons == NO_CANNONS;
    } else {
      KeptTwice(p, p1, q);
      if p.owner != NO_PLAYER {
        SameNearest(g.planets, w.planets, main, w.lost, p.parent, q.parent);
      }
    }
  }

  lemma KeptTwice(p: Planet, p1: Planet, q: Planet)
    requires CannonsLost(p, p1) && q.(parent := p1.parent) == p1
    ensures q == p.(cannons := q.cannons, parent := q.parent) && AtMost(q.cannons, p.cannons)
  {
    var cannons, parent := q.cannons, q.parent;
    assert q == p1.(parent := parent);
    assert p1 == p.(cannons := cannons);
  }

  lemma FleetSettles(g: Galaxy, w: War, main: MainMap, rank: Rank, id: FleetId)
    requires WarSoFar(g, w) && Ranked(w.planets, main, rank)
    requires id in g.fleets && OriginOk(g.planets, g.fleets[id])
    requires id in w.fleets && id !in w.dead
    ensures id in FleetsAfterLosses(w.planets, w.fleets, main, w.lost)
    ensures FleetSettled(g.planets, main, w.lost, g.fleets[id], FleetsAfterLosses(w.planets, w.fleets, main, w.lost)[id])
  {
    hide Ranked, PlanetsFought, FleetsAfterLosses, PlanetsAfterLosses, NearestSurvivor;
    WarKeepsTree(g, w);
    AllFleetsRemain(w, main);
    var f0, f1 := g.fleets[id], w.fleets[id];
    assert FleetFought(f0, f1, id in w.dead);
    assert OriginOk(w.planets, f1);
    LossesKeepOrigin(w.planets, main, rank, w.lost, w.fleets, id);
    var f := FleetsAfterLosses(w.planets, w.fleets, main, w.lost)[id];
    var origin := f.origin;
    assert f == f1.(origin := origin);
    SameNearest(g.planets, w.planets, main, w.lost, f0.origin, f.origin);
  }

  lemma OriginsInOrder(g: Galaxy, main: MainMap, rank: Rank, id: FleetId)
    requires MidRound(g, main, rank, g.round) && id in g.fleets
    ensures OriginOk(g.planets, g.fleets[id])
  {
    assert GoodFleet(id, g.fleets[id], g.planets, g.round);
  }

  lemma NearestItself(planets: PlanetMap, main: MainMap, c: Coord)
    ensures NearestSurvivor(planets, main, [], c, c)
  {
    assert Ancestor(planets, c, 0) == c;
  }

  lemma NobodyFought(g: Galaxy, main: MainMap, rank: Rank, c: Coord)
    requires MidRound(g, main, rank, g.round) && c in g.planets
    ensures PlanetSettled(g.planets, main, [], c, g.planets[c])
  {
    hide MidRound, NearestSurvivor;
    NearestItself(g.planets, main, g.planets[c].parent);
  }

  /** The fight phase, from the galaxy before it: some owned planets, each once,
      are lost; the rest of the tree closes over them, and so do the origins of
      the fleets, up to the nearest ancestor in the parent relation before. */
  lemma FightsSettle(g: Galaxy, main: MainMap, rank: Rank, input: RoundInput) returns (lost: seq<Coord>)
    requires MidRound(g, main, rank, g.round) && NoEmptyFleet(g.fleets) && g.round <= MAX32
    requires Enumerates(input.order, g.planets.Keys)
    requires FightsPhase(g, main, input).Done?
    ensures g.fleets != map[] ==> WarOf(g, input).Done? && lost == WarOf(g, input).value.lost
    ensures var g' := FightsPhase(g, main, input).value;
      && DistinctOwned(g.planets, lost)
      && g'.planets.Keys == g.planets.Keys
      && (forall c :: c in g.planets ==> PlanetSettled(g.planets, main, lost, c, g'.planets[c]))
      && (forall id :: id in g'.fleets ==>
           id in g.fleets && FleetSettled(g.planets, main, lost, g.fleets[id], g'.fleets[id]))
  {
    hide PlanetOk, Ranked, PlanetsAfterLosses, FleetsAfterLosses, GoodFleet, EmptyFleet, FightPlaces, Fighters, WarSoFar;
    hide PlanetSettled, FleetSettled, OriginOk, FleetsOk, PlanetsOk, CannonsWithin;
    lost := [];
    var g' := FightsPhase(g, main, input).value;
    if g.fleets == map[] {
      forall c | c in g.planets
        ensures PlanetSettled(g.planets, main, lost, c, g'.planets[c])
      {
        NobodyFought(g, main, rank, c);
      }
    } else {
      WarDone(g, main, rank, input);
      var w := WarOf(g, input).value;
      lost := w.lost;
      PlanetsAfterWar(g, w, main, rank);
      LostWereOwned(g, w);
      AllFleetsRemain(w, main);
      forall c | c in g.planets
        ensures PlanetSettled(g.planets, main, lost, c, g'.planets[c])
      {
        PlanetSettles(g, w, main, rank, c);
      }
      FleetsAreTheSame(g, w);
      forall id | id in g'.fleets
        ensures id in g.fleets && FleetSettled(g.planets, main, lost, g.fleets[id], g'.fleets[id])
      {
        OriginsInOrder(g, main, rank, id);
        FleetSettles(g, w, main, rank, id);
      }
    }
  }

  lemma FleetsAreTheSame(g: Galaxy, w: War)
    requires WarSoFar(g, w)
    ensures w.fleets.Keys == g.fleets.Keys
  {
  }

  lemma LostWereOwned(g: Galaxy, w: War)
    requires WarSoFar(g, w)
    ensures DistinctOwned(g.planets, w.lost)
  {
    WarKeepsTree(g, w);
    forall i | 0 <= i < |w.lost|
      ensures Owned(g.planets, w.lost[i])
    {
      assert Owned(w.planets, w.lost[i]);
    }
  }
  // ------------------------------------------- when a planet is lost

  /** Two players had an army in this place even after some escaped, and two of
      those who stayed were hostile. */
  ghost predicate FoughtHere(w: War, c: Coord, group: seq<Fighter>, input: RoundInput)
    requires Present(w, group)
  {
    var planet := PlanetHere(w, c, group);
    var fleets := FleetsOf(w.fleets, FleetIds(group, input.escapes));
    && Contested(FleetsOf(w.fleets, FleetIds(group, {})), planet)
    && Contested(fleets, planet)
    && !NobodyHostile(fleets, planet, Hostilities(input.answers))
  }

  /** No cannon is left, nor a ship in a fleet of the owner among `ids`. */
  ghost predicate Undefended(w: War, c: Coord, ids: seq<FleetId>) {
    && c in w.planets && w.planets[c].cannons == NO_CANNONS
    && forall k :: 0 <= k < |ids| && ids[k] in w.fleets && w.fleets[ids[k]].owner == w.planets[c].owner ==>
         w.fleets[ids[k]].ships == NO_SHIPS
  }

  lemma DeadPlanetIff(p: Planet, fs: seq<Fleet>)
    requires Sum(p.cannons) <= MAX32 && forall k :: 0 <= k < |fs| ==> Sum(fs[k].ships) < TWO31
    ensures DeadPlanet(p, fs) <==>
            p.cannons == NO_CANNONS && forall k :: 0 <= k < |fs| && fs[k].owner == p.owner ==> fs[k].ships == NO_SHIPS
  {
    hide Sum, AccumulateInt;
    if AccumulateInt(p.cannons) == 0 {
      DeadCannons(p.cannons);
    }
    AccumulateZeroes();
    forall k | 0 <= k < |fs|
      ensures DeadFleet(fs[k]) <==> fs[k].ships == NO_SHIPS
    {
      EmptyFleetIff(fs[k]);
    }
  }

  lemma LostAfterFight(g: Galaxy, w: War, c: Coord, ids: seq<FleetId>, fs: seq<Fleet>, planet: Option<Planet>, h: FightingSet)
    requires ReadyForWar(g) && WarSoFar(g, w) && c !in w.lost && c in g.planets
    requires |ids| == |fs| && NoDuplicates(ids)
    requires forall k :: 0 <= k < |ids| ==> ids[k] in w.fleets && FleetOnlyLost(w.fleets[ids[k]], fs[k])
    requires planet.Some? && CannonsLost(w.planets[c], planet.value)
    requires AnyFight(h, fs, planet)
    ensures c in AfterFight(w, c, ids, fs, planet, h).lost <==> Undefended(AfterFight(w, c, ids, fs, planet, h), c, ids)
  {
    hide AnyFight, Sum, DeadPlanet, WriteBack;
    var w' := AfterFight(w, c, ids, fs, planet, h);
    assert CannonsLost(g.planets[c], w.planets[c]);
    CannonsStayWithin(g.planets[c], w.planets[c]);
    CannonsStayWithin(w.planets[c], planet.value);
    forall k | 0 <= k < |fs|
      ensures Sum(fs[k].ships) < TWO31
    {
      assert FleetFought(g.fleets[ids[k]], w.fleets[ids[k]], ids[k] in w.dead);
      OnlyLostSum(g.fleets[ids[k]].ships, w.fleets[ids[k]].ships);
      OnlyLostSum(w.fleets[ids[k]].ships, fs[k].ships);
    }
    DeadPlanetIff(planet.value, fs);
    WriteBackIs(w.fleets, ids, fs, |ids|);
    assert forall k :: 0 <= k < |ids| ==> w'.fleets[ids[k]] == fs[k];
    assert w'.planets[c] == planet.value;
  }

  /** A planet is lost in a place exactly when somebody fought there and it is
      left without a cannon and without a ship of its owner's fleets; those that
      escaped do not protect it. */
  lemma PlanetLostIff(g: Galaxy, w: War, c: Coord, group: seq<Fighter>, input: RoundInput)
    requires ReadyForWar(g) && WarSoFar(g, w) && LossesBefore(w.lost, c)
    requires PlaceOf(g, w, c, group) && HasPlanet(group)
    requires FightPlace(w, c, group, input).Done?
    ensures c in FightPlace(w, c, group, input).value.lost <==>
            FoughtHere(w, c, group, input) &&
            Undefended(FightPlace(w, c, group, input).value, c, FleetIds(group, input.escapes))
  {
    hide FightResult, AnyFight, WarSoFar, ReadyForWar, Hostilities, FleetIds, Contested, Undefended, AfterFight, NobodyHostile;
    NotYetLost(w.lost, c);
    WarParts(g, w);
    var planet := PlanetHere(w, c, group);
    var ids := FleetIds(group, input.escapes);
    FleetIdsAre(group, input.escapes, c);
    var fleets := FleetsOf(w.fleets, ids);
    if Contested(FleetsOf(w.fleets, FleetIds(group, {})), planet) && Contested(fleets, planet) {
      var h := Hostilities(input.answers);
      FightOnlyLosesShips(fleets, planet, h, input.draws(c));
      var (fs, planet') := FightResult(fleets, planet, h, input.draws(c)).value;
      NoReportNoFight(h, fs, planet');
      OwnersUnchanged(fleets, fs, planet, planet');
      SameOwnersSameHostility(fleets, planet, fs, planet', h);
      if AnyFight(h, fs, planet') {
        LostAfterFight(g, w, c, ids, fs, planet', h);
      } else {
        PeacefulPlace(w, c, ids, planet, h, input.draws(c));
      }
    }
  }

  lemma NotYetLost(lost: seq<Coord>, c: Coord)
    requires LossesBefore(lost, c)
    ensures c !in lost
  {
  }

  lemma SameOwnersSameHostility(fleets: seq<Fleet>, planet: Option<Planet>, fs: seq<Fleet>, planet': Option<Planet>, h: FightingSet)
    requires Owners(fs, planet') == Owners(fleets, planet)
    ensures NobodyHostile(fs, planet', h) <==> NobodyHostile(fleets, planet, h)
  {
  }

  // ------------------------------------------- planets nobody attacked

  ghost predicate NoSelfAnswers(answers: FightingMap) {
    forall p :: (p, p) !in answers
  }

  lemma HostilitiesIrreflexive(answers: FightingMap)
    requires NoSelfAnswers(answers)
    ensures Irreflexive(Hostilities(answers))
  {
    hide Hostilities;
    HostilitiesAre(answers);
  }

  /** Nobody who stayed in this place is hostile to the owner of its planet. */
  ghost predicate PlanetLeftAlone(w: War, c: Coord, group: seq<Fighter>, input: RoundInput)
    requires Present(w, group) && c in w.planets
  {
    LeftAlone(Hostilities(input.answers), FleetsOf(w.fleets, FleetIds(group, input.escapes)),
              PlanetHere(w, c, group), w.planets[c].owner)
  }

  /** The owner of the planet has a cannon on it or a fleet that stayed. */
  ghost predicate Guarded(w: War, c: Coord, group: seq<Fighter>, input: RoundInput)
    requires Present(w, group) && c in w.planets
  {
    var fleets := FleetsOf(w.fleets, FleetIds(group, input.escapes));
    w.planets[c].cannons != NO_CANNONS || exists k :: 0 <= k < |fleets| && fleets[k].owner == w.planets[c].owner
  }

  ghost predicate AllHaveShips(fleets: seq<Fleet>) {
    forall k :: 0 <= k < |fleets| ==> fleets[k].ships != NO_SHIPS
  }

  /** If two armies are hostile and the planet's owner is left alone, two fleets
      of different players are hostile. */
  lemma HostileFleets(fleets: seq<Fleet>, planet: Option<Planet>, h: FightingSet) returns (a: nat, b: nat)
    requires planet.Some? && LeftAlone(h, fleets, planet, planet.value.owner)
    requires Symmetric(h) && Irreflexive(h) && !NobodyHostile(fleets, planet, h)
    ensures a < |fleets| && b < |fleets|
    ensures fleets[a].owner != fleets[b].owner && Hostile(h, fleets[a].owner, fleets[b].owner)
  {
    var owners := Owners(fleets, planet);
    var p, q :| p in owners && q in owners && Hostile(h, p, q);
    assert Hostile(h, q, p);
    a :| 0 <= a < |owners| && owners[a] == p;
    b :| 0 <= b < |owners| && owners[b] == q;
  }

  /** A guarded planet whose owner is left alone makes the fight around it throw. */
  lemma GuardedBystanderThrows(w: War, c: Coord, group: seq<Fighter>, input: RoundInput)
    requires Present(w, group) && c in w.planets && HasPlanet(group) && NoSelfAnswers(input.answers)
    requires AllHaveShips(FleetsOf(w.fleets, FleetIds(group, input.escapes)))
    requires PlanetLeftAlone(w, c, group, input) && FoughtHere(w, c, group, input)
    requires FightPlace(w, c, group, input).Done?
    ensures !Guarded(w, c, group, input)
  {
    hide FightResult, Hostilities, FleetIds, Contested, NobodyHostile, AfterFight;
    var planet := PlanetHere(w, c, group);
    var fleets := FleetsOf(w.fleets, FleetIds(group, input.escapes));
    var h := Hostilities(input.answers);
    HostilitiesAre(input.answers);
    HostilitiesIrreflexive(input.answers);
    var a, b := HostileFleets(fleets, planet, h);
    BystanderHasNoUnit(fleets, planet, h, input.draws(c), w.planets[c].owner, a, b);
  }

  lemma PeaceIsDone(w: War, c: Coord, group: seq<Fighter>, input: RoundInput)
    requires Present(w, group) && !FoughtHere(w, c, group, input)
    ensures FightPlace(w, c, group, input).Done?
  {
    hide FightResult, Hostilities, FleetIds, Contested, NobodyHostile, AfterFight;
    var planet := PlanetHere(w, c, group);
    var fleets := FleetsOf(w.fleets, FleetIds(group, input.escapes));
    if Contested(FleetsOf(w.fleets, FleetIds(group, {})), planet) && Contested(fleets, planet) {
      PeaceChangesNothing(fleets, planet, Hostilities(input.answers), input.draws(c));
    }
  }

  /** A place leaves a planet no cannon more, and fleets their owners. */
  lemma PlaceKeeps(g: Galaxy, w: War, c: Coord, group: seq<Fighter>, input: RoundInput)
    requires ReadyForWar(g) && WarSoFar(g, w) && LossesBefore(w.lost, c) && PlaceOf(g, w, c, group)
    requires HasPlanet(group) && FightPlace(w, c, group, input).Done?
    ensures var w' := FightPlace(w, c, group, input).value;
      && c in w'.planets && AtMost(w'.planets[c].cannons, w.planets[c].cannons)
      && w'.planets[c].owner == w.planets[c].owner && w'.fleets.Keys == w.fleets.Keys
      && forall id :: id in w.fleets ==> w'.fleets[id].owner == w.fleets[id].owner
  {
    hide FightResult, AnyFight, Hostilities, FleetIds, Contested, ReadyForWar, LossesSoFar;
    FightPlaceKeeps(g, w, c, group, input);
    var w' := FightPlace(w, c, group, input).value;
    forall id | id in w.fleets
      ensures w'.fleets[id].owner == w.fleets[id].owner
    {
      assert FleetFought(g.fleets[id], w.fleets[id], id in w.dead);
      assert FleetFought(g.fleets[id], w'.fleets[id], id in w'.dead);
    }
    var planet := PlanetHere(w, c, group);
    var fleets := FleetsOf(w.fleets, FleetIds(group, input.escapes));
    if Contested(FleetsOf(w.fleets, FleetIds(group, {})), planet) && Contested(fleets, planet) {
      FightOnlyLosesShips(fleets, planet, Hostilities(input.answers), input.draws(c));
    }
  }

  lemma BareIsUndefended(g: Galaxy, w: War, c: Coord, group: seq<Fighter>, input: RoundInput)
    requires ReadyForWar(g) && WarSoFar(g, w) && LossesBefore(w.lost, c) && PlaceOf(g, w, c, group)
    requires HasPlanet(group) && FightPlace(w, c, group, input).Done? && c in w.planets
    requires !Guarded(w, c, group, input)
    ensures Undefended(FightPlace(w, c, group, input).value, c, FleetIds(group, input.escapes))
  {
    hide FightPlace, FleetIds, WarSoFar, ReadyForWar;
    PlaceKeeps(g, w, c, group, input);
    var w' := FightPlace(w, c, group, input).value;
    assert w'.planets[c].cannons == NO_CANNONS;
    var ids := FleetIds(group, input.escapes);
    var fleets := FleetsOf(w.fleets, ids);
    forall k | 0 <= k < |ids|
      ensures ids[k] in w.fleets && w'.fleets[ids[k]].owner != w'.planets[c].owner
    {
      assert fleets[k] == w.fleets[ids[k]];
    }
  }

  /** What becomes of a planet whose owner everybody leaves alone, told from the
      state before: while nobody fights there it is safe; if somebody does, the
      fight throws when the planet is guarded, and the planet is lost if it goes
      through. */
  lemma BystanderLostIff(g: Galaxy, w: War, c: Coord, group: seq<Fighter>, input: RoundInput)
    requires ReadyForWar(g) && WarSoFar(g, w) && LossesBefore(w.lost, c)
    requires PlaceOf(g, w, c, group) && HasPlanet(group) && NoSelfAnswers(input.answers)
    requires c in w.planets && PlanetLeftAlone(w, c, group, input)
    requires AllHaveShips(FleetsOf(w.fleets, FleetIds(group, input.escapes)))
    ensures !FoughtHere(w, c, group, input) ==> FightPlace(w, c, group, input).Done?
    ensures FoughtHere(w, c, group, input) && Guarded(w, c, group, input) ==> FightPlace(w, c, group, input).Throws?
    ensures FightPlace(w, c, group, input).Done? ==>
      (c in FightPlace(w, c, group, input).value.lost <==> FoughtHere(w, c, group, input))
  {
    hide FightPlace, FoughtHere, Guarded, WarSoFar, ReadyForWar, Undefended, PlanetLeftAlone, AllHaveShips, FleetIds;
    if !FoughtHere(w, c, group, input) {
      PeaceIsDone(w, c, group, input);
    }
    if FightPlace(w, c, group, input).Done? {
      PlanetLostIff(g, w, c, group, input);
      if FoughtHere(w, c, group, input) {
        GuardedBystanderThrows(w, c, group, input);
        BareIsUndefended(g, w, c, group, input);
      }
    }
  }

  // -------------------------------------------------- such a planet dies

  const HERE := Coord(0, 0, 0)

  /** A bare planet of player 3 with a mosquito each of players 1 and 2 over it. */
  function BystanderGalaxy(): Galaxy {
    Galaxy(map[HERE := Planet(3, NO_BUILDINGS[0 := 1], None, NO_RESOURCES, NO_CANNONS, HERE, NO_SHIPS)],
           map[1 := Mosquito(1, 1), 2 := Mosquito(2, 2)], 3, 0)
  }

  function BystanderGroup(): seq<Fighter> {
    [PlanetFighter(HERE), FleetFighter(HERE, 1), FleetFighter(HERE, 2)]
  }

  lemma BystanderIds(escapes: set<FleetId>)
    requires escapes == {}
    ensures FleetIds(BystanderGroup(), escapes) == [1, 2]
  {
    var group := BystanderGroup();
    var two, one := group[..2], group[..1];
    assert two[..1] == one && one[..0] == [];
    assert one[0] == PlanetFighter(HERE) && two[1] == FleetFighter(HERE, 1) && group[2] == FleetFighter(HERE, 2);
    assert FleetIds(one, escapes) == [];
    assert FleetIds(two, escapes) == [1];
  }

  lemma BystanderReady()
    ensures var g := BystanderGalaxy();
      var w := War(g.planets, g.fleets, {}, []);
      ReadyForWar(g) && WarSoFar(g, w) && LossesBefore(w.lost, HERE) && PlaceOf(g, w, HERE, BystanderGroup())
  {
    hide Sum;
    var g := BystanderGalaxy();
    SumZero(NO_CANNONS);
    OneMosquito();
    NoLossesYet(g.planets);
  }

  lemma OneMosquito()
    ensures Sum(NO_SHIPS[0 := 1]) == 1 && NO_SHIPS[0 := 1] != NO_SHIPS
  {
    NoShipsSum();
    SumUpdate(NO_SHIPS, 0, 1);
    assert NO_SHIPS[0 := 1][0] == 1 && NO_SHIPS[0] == 0;
  }

  lemma OneWar(answers: FightingMap)
    requires answers == map[(1, 2) := true]
    ensures Irreflexive(Hostilities(answers)) && Symmetric(Hostilities(answers))
    ensures forall p, q :: Hostile(Hostilities(answers), p, q) <==> (p == 1 && q == 2) || (p == 2 && q == 1)
  {
    hide Hostilities;
    HostilitiesAre(answers);
  }

  function BystanderWar(): War {
    War(BystanderGalaxy().planets, BystanderGalaxy().fleets, {}, [])
  }

  /** The armies that meet there, with or without those who escape: nobody does. */
  lemma BystanderArmies(escapes: set<FleetId>)
    requires escapes == {}
    ensures Present(BystanderWar(), BystanderGroup()) && HasPlanet(BystanderGroup())
    ensures FleetsOf(BystanderWar().fleets, FleetIds(BystanderGroup(), escapes)) == [Mosquito(1, 1), Mosquito(2, 2)]
    ensures PlanetHere(BystanderWar(), HERE, BystanderGroup()) == Some(BystanderGalaxy().planets[HERE])
    ensures Owners([Mosquito(1, 1), Mosquito(2, 2)], Some(BystanderGalaxy().planets[HERE])) == [1, 2, 3]
  {
    hide FleetIds;
    BystanderIds(escapes);
    assert BystanderGroup()[0].PlanetFighter?;
  }

  lemma TwoFightOneLooksOn(fleets: seq<Fleet>, planet: Option<Planet>, h: FightingSet)
    requires Owners(fleets, planet) == [1, 2, 3]
    requires forall p, q :: Hostile(h, p, q) <==> (p == 1 && q == 2) || (p == 2 && q == 1)
    ensures Contested(fleets, planet) && !NobodyHostile(fleets, planet, h) && LeftAlone(h, fleets, planet, 3)
    ensures NoBystander({1, 2}, h)
  {
    hide Owners, Hostile;
    var owners := Owners(fleets, planet);
    assert owners[0] == 1 && owners[1] == 2;
    assert 1 in owners && 2 in owners && Hostile(h, 1, 2);
  }

  /** It is left alone by both of them, who fight each other, and is lost,
      whatever the draws. */
  lemma BystanderPlanetDies(input: RoundInput)
    requires input.answers == map[(1, 2) := true] && input.escapes == {}
    ensures Present(BystanderWar(), BystanderGroup())
    ensures PlanetLeftAlone(BystanderWar(), HERE, BystanderGroup(), input)
    ensures FightPlace(BystanderWar(), HERE, BystanderGroup(), input).Done?
    ensures HERE in FightPlace(BystanderWar(), HERE, BystanderGroup(), input).value.lost
  {
    hide FleetIds, FightResult, Hostilities, WarSoFar, ReadyForWar, Contested, NobodyHostile, Owners, LeftAlone;
    hide NoBystander, AfterFight, BystanderGroup, HasPlanet, PlanetHere, PlaceOf;
    var w, group := BystanderWar(), BystanderGroup();
    BystanderReady();
    BystanderArmies({});
    OneWar(input.answers);
    OneMosquito();
    var h := Hostilities(input.answers);
    var fleets := [Mosquito(1, 1), Mosquito(2, 2)];
    var planet := Some(BystanderGalaxy().planets[HERE]);
    TwoFightOneLooksOn(fleets, planet, h);
    ArmiesNeverThrow(fleets, planet, h, input.draws(HERE), {1, 2});
    BystanderLostIff(BystanderGalaxy(), w, HERE, group, input);
  }
}
