/** The fights of a round as a whole: each place fights once, losses are recorded
    once, and exactly the fleets without ships die. */
module BattleLaws {
  import opened Basics
  import opened Model
  import opened Planets
  import opened Fleets
  import opened Multimap
  import opened Forest
  import opened Combat
  import opened Fight
  import opened FightLaws
  import opened BystanderLaws
  import opened Phases
  import opened PhaseLaws

  // ------------------------------------------------------- hostilities

  /** The closure of the answers is symmetric and says just who wants whom. */
  lemma HostilitiesAre(answers: FightingMap)
    ensures forall p, q :: Hostile(Hostilities(answers), p, q) <==> Wants(answers, p, q) || Wants(answers, q, p)
    ensures Symmetric(Hostilities(answers))
  {
    forall p: PlayerId, q: PlayerId | Wants(answers, p, q) || Wants(answers, q, p)
      ensures Hostile(Hostilities(answers), p, q)
    {
      var pair := if Wants(answers, p, q) then (p, q) else (q, p);
      assert pair in answers.Keys;
    }
  }

  lemma HostilitiesNonEmpty(answers: FightingMap)
    ensures forall p :: p in Hostilities(answers) ==> Hostilities(answers)[p] != {}
  {
    var h := Hostilities(answers);
    forall p | p in h
      ensures h[p] != {}
    {
      var q :| Wants(answers, p, q) || Wants(answers, q, p);
      HostilitiesAre(answers);
      assert Hostile(h, p, q);
    }
  }

  /** The closure that the fight computes is that one. */
  lemma ClosureIsHostilities(answers: FightingMap, h: FightingSet)
    requires forall p, q :: Hostile(h, p, q) <==> Wants(answers, p, q) || Wants(answers, q, p)
    requires forall p :: p in h ==> h[p] != {}
    ensures h == Hostilities(answers)
  {
    hide Hostilities, Wants;
    var h' := Hostilities(answers);
    HostilitiesAre(answers);
    HostilitiesNonEmpty(answers);
    forall p | p in h
      ensures p in h'
    {
      var q :| q in h[p];
      assert Hostile(h, p, q) && Hostile(h', p, q);
    }
    forall p | p in h'
      ensures p in h
    {
      var q :| q in h'[p];
      assert Hostile(h', p, q) && Hostile(h, p, q);
    }
    forall p | p in h
      ensures h[p] == h'[p]
    {
      assert forall q :: q in h[p] <==> Hostile(h, p, q);
      assert forall q :: q in h'[p] <==> Hostile(h', p, q);
    }
  }

  /** The players with an army that stays to fight in a place; a planet without
      a cannon is none. */
  ghost function StayersAt(g: Galaxy, c: Coord, escapes: set<FleetId>): set<PlayerId> {
    (set id | id in g.fleets && g.fleets[id].position == c && id !in escapes :: g.fleets[id].owner) +
    if Owned(g.planets, c) && g.planets[c].cannons != NO_CANNONS then {g.planets[c].owner} else {}
  }

  /** In no place is there a bystander to two hostile players who stay there. */
  ghost predicate NoBystanders(g: Galaxy, input: RoundInput) {
    forall c :: NoBystander(StayersAt(g, c, input.escapes), Hostilities(input.answers))
  }

  // -------------------------------------------------------- the groups

  ghost predicate AllAt(group: seq<Fighter>, c: Coord) {
    forall i :: 0 <= i < |group| ==> group[i].at == c
  }

  lemma {:induction false} FleetIdsAre(group: seq<Fighter>, without: set<FleetId>, c: Coord)
    requires AllAt(group, c) && NoDuplicates(group)
    ensures forall id :: id in FleetIds(group, without) <==> FleetFighter(c, id) in group && id !in without
    ensures NoDuplicates(FleetIds(group, without))
  {
    if group != [] {
      var front, f := group[..|group| - 1], group[|group| - 1];
      FleetIdsAre(front, without, c);
      assert f !in front;
      assert group == front + [f];
    }
  }

  lemma {:induction false} WriteBackIs(fleets: FleetMap, ids: seq<FleetId>, fs: seq<Fleet>, i: nat)
    requires i <= |ids| == |fs| && NoDuplicates(ids)
    ensures var m := WriteBack(fleets, ids, fs, i);
      && (forall k :: 0 <= k < i ==> m[ids[k]] == fs[k])
      && (forall id :: id in fleets && (forall k :: 0 <= k < i ==> ids[k] != id) ==> m[id] == fleets[id])
  {
    if i > 0 {
      WriteBackIs(fleets, ids, fs, i - 1);
    }
  }

  // ------------------------------------------------------ the war so far

  /** A planet that lost at most cannons. */
  ghost predicate CannonsLost(p: Planet, q: Planet) {
    q == p.(cannons := q.cannons) && AtMost(q.cannons, p.cannons)
  }

  ghost predicate PlanetsFought(ps0: PlanetMap, ps: PlanetMap) {
    && ps.Keys == ps0.Keys
    && forall c :: c in ps0 ==> CannonsLost(ps0[c], ps[c])
  }

  /** A fleet that lost at most ships, and is dead exactly when none is left. */
  ghost predicate FleetFought(f0: Fleet, f: Fleet, dead: bool) {
    FleetOnlyLost(f0, f) && (dead <==> f.ships == NO_SHIPS)
  }

  ghost predicate FleetsFought(fleets0: FleetMap, fleets: FleetMap, dead: set<FleetId>) {
    && fleets.Keys == fleets0.Keys
    && forall id :: id in fleets0 ==> FleetFought(fleets0[id], fleets[id], id in dead)
  }

  /** The losses so far: owned planets without a cannon, each recorded once,
      all before the place `c`. */
  ghost predicate LossesSoFar(planets: PlanetMap, lost: seq<Coord>) {
    && DistinctOwned(planets, lost)
    && forall i :: 0 <= i < |lost| ==> planets[lost[i]].cannons == NO_CANNONS
  }

  ghost predicate LossesBefore(lost: seq<Coord>, c: Coord) {
    forall i :: 0 <= i < |lost| ==> Before(lost[i], c)
  }

  lemma DeadCannons(cannons: CannonTab)
    requires Sum(cannons) <= MAX32 && AccumulateInt(cannons) == 0
    ensures cannons == NO_CANNONS
  {
    SumNonNegative(cannons);
    SumZero(cannons);
  }

  lemma DeadShips(f0: Fleet, f: Fleet)
    requires FleetOnlyLost(f0, f) && Sum(f0.ships) < TWO31
    ensures DeadFleet(f) <==> f.ships == NO_SHIPS
    ensures f0.ships == NO_SHIPS ==> f.ships == NO_SHIPS
  {
    OnlyLostSum(f0.ships, f.ships);
    EmptyFleetIff(f);
  }

  lemma OnlyLostTwice(a: Fleet, b: Fleet, c: Fleet)
    requires FleetOnlyLost(a, b) && FleetOnlyLost(b, c)
    ensures FleetOnlyLost(a, c)
  {
  }

  lemma FleetFoughtAgain(f0: Fleet, f: Fleet, f': Fleet, dead: bool)
    requires FleetFought(f0, f, dead) && FleetOnlyLost(f, f') && Sum(f0.ships) < TWO31
    ensures FleetFought(f0, f', dead || DeadFleet(f'))
  {
    OnlyLostTwice(f0, f, f');
    OnlyLostSum(f0.ships, f.ships);
    DeadShips(f, f');
  }

  /** The fleets of one fight join the war: who has no ships left is dead. */
  lemma FleetsFoughtStep(fleets0: FleetMap, fleets: FleetMap, dead: set<FleetId>, ids: seq<FleetId>, fs: seq<Fleet>)
    requires FleetsFought(fleets0, fleets, dead)
    requires |ids| == |fs| && NoDuplicates(ids)
    requires forall k :: 0 <= k < |ids| ==> ids[k] in fleets && FleetOnlyLost(fleets[ids[k]], fs[k])
    requires forall id :: id in fleets0 ==> Sum(fleets0[id].ships) < TWO31
    ensures FleetsFought(fleets0, WriteBack(fleets, ids, fs, |ids|), dead + DeadAmong(ids, fs))
  {
    hide FleetFought, FleetOnlyLost, WriteBack, DeadFleet;
    WriteBackIs(fleets, ids, fs, |ids|);
    var m := WriteBack(fleets, ids, fs, |ids|);
    var dead' := dead + DeadAmong(ids, fs);
    forall id | id in fleets0
      ensures FleetFought(fleets0[id], m[id], id in dead')
    {
      assert FleetFought(fleets0[id], fleets[id], id in dead);
      if id in ids {
        var k :| 0 <= k < |ids| && ids[k] == id;
        FleetFoughtAgain(fleets0[id], fleets[id], fs[k], id in dead);
        assert id in DeadAmong(ids, fs) <==> DeadFleet(fs[k]);
      } else {
        assert id !in DeadAmong(ids, fs);
      }
    }
  }

  lemma UnchangedWriteBack(fleets: FleetMap, ids: seq<FleetId>, fs: seq<Fleet>)
    requires |ids| == |fs| && NoDuplicates(ids)
    requires forall k :: 0 <= k < |ids| ==> ids[k] in fleets && fleets[ids[k]] == fs[k]
    ensures WriteBack(fleets, ids, fs, |ids|) == fleets
  {
    WriteBackIs(fleets, ids, fs, |ids|);
    var m := WriteBack(fleets, ids, fs, |ids|);
    assert m.Keys == fleets.Keys;
    forall id | id in fleets
      ensures m[id] == fleets[id]
    {
      if id in ids {
        var k :| 0 <= k < |ids| && ids[k] == id;
      }
    }
  }

  /** Everything the fights have done up to the entry `i` of the fighters. */
  ghost predicate WarSoFar(g: Galaxy, w: War) {
    && PlanetsFought(g.planets, w.planets)
    && FleetsFought(g.fleets, w.fleets, w.dead)
    && LossesSoFar(w.planets, w.lost)
  }

  /** What the fights may rely on at the start. */
  ghost predicate ReadyForWar(g: Galaxy) {
    && CannonsWithin(g.planets, MAX32)
    && forall id :: id in g.fleets ==> Sum(g.fleets[id].ships) < TWO31
  }

  lemma CannonsStayWithin(p: Planet, q: Planet)
    requires CannonsLost(p, q)
    ensures Sum(q.cannons) <= Sum(p.cannons)
  {
    OnlyLostSum(p.cannons, q.cannons);
  }

  lemma LossesStep(ps: PlanetMap, lost: seq<Coord>, c: Coord, q: Planet, dies: bool)
    requires LossesSoFar(ps, lost) && LossesBefore(lost, c) && Owned(ps, c)
    requires CannonsLost(ps[c], q) && (dies ==> q.cannons == NO_CANNONS)
    ensures LossesSoFar(ps[c := q], if dies then lost + [c] else lost)
  {
    forall i | 0 <= i < |lost|
      ensures lost[i] != c
    {
      assert Before(lost[i], c);
    }
  }

  /** The armies met in one place. */
  ghost predicate PlaceOf(g: Galaxy, w: War, c: Coord, group: seq<Fighter>) {
    && Present(w, group) && AllAt(group, c) && NoDuplicates(group)
    && (HasPlanet(group) ==> Owned(g.planets, c))
  }

  lemma OwnersUnchanged(fleets: seq<Fleet>, fs: seq<Fleet>, planet: Option<Planet>, planet': Option<Planet>)
    requires |fs| == |fleets| && forall k :: 0 <= k < |fs| ==> FleetOnlyLost(fleets[k], fs[k])
    requires PlanetOnlyLost(planet, planet')
    ensures Owners(fs, planet') == Owners(fleets, planet)
  {
  }

  lemma DeadMeansBare(p: Planet, fs: seq<Fleet>)
    requires Sum(p.cannons) <= MAX32 && DeadPlanet(p, fs)
    ensures p.cannons == NO_CANNONS
  {
    DeadCannons(p.cannons);
  }

  /** The fight of one place that somebody fought. */
  lemma FoughtPlace(g: Galaxy, w: War, c: Coord, ids: seq<FleetId>, fs: seq<Fleet>, planet: Option<Planet>, h: FightingSet)
    requires ReadyForWar(g) && WarSoFar(g, w) && LossesBefore(w.lost, c)
    requires |ids| == |fs| && NoDuplicates(ids)
    requires forall k :: 0 <= k < |ids| ==> ids[k] in w.fleets && FleetOnlyLost(w.fleets[ids[k]], fs[k])
    requires planet.Some? ==> Owned(w.planets, c) && CannonsLost(w.planets[c], planet.value)
    requires AnyFight(h, fs, planet)
    ensures WarSoFar(g, AfterFight(w, c, ids, fs, planet, h))
  {
    hide AnyFight, FleetFought, FleetOnlyLost, WriteBack, DeadPlanet, Sum;
    FleetsFoughtStep(g.fleets, w.fleets, w.dead, ids, fs);
    if planet.Some? {
      CannonsStayWithin(g.planets[c], w.planets[c]);
      CannonsStayWithin(w.planets[c], planet.value);
      var dies := DeadPlanet(planet.value, fs);
      if dies {
        DeadMeansBare(planet.value, fs);
      }
      LossesStep(w.planets, w.lost, c, planet.value, dies);
    }
  }

  /** A fight nobody fought leaves the account as it is. */
  lemma PeacefulPlace(w: War, c: Coord, ids: seq<FleetId>, planet: Option<Planet>, h: FightingSet, draws: Draws)
    requires NoDuplicates(ids) && (forall k :: 0 <= k < |ids| ==> ids[k] in w.fleets)
    requires planet.Some? ==> c in w.planets && planet.value == w.planets[c]
    requires FightResult(FleetsOf(w.fleets, ids), planet, h, draws).Done?
    ensures var (fs, planet') := FightResult(FleetsOf(w.fleets, ids), planet, h, draws).value;
      |fs| == |ids| && (!AnyFight(h, fs, planet') ==> AfterFight(w, c, ids, fs, planet', h) == w)
  {
    hide FightResult, AnyFight, WriteBack;
    var fleets := FleetsOf(w.fleets, ids);
    FightOnlyLosesShips(fleets, planet, h, draws);
    var (fs, planet') := FightResult(fleets, planet, h, draws).value;
    OwnersUnchanged(fleets, fs, planet, planet');
    if !AnyFight(h, fs, planet') {
      NoReportNoFight(h, fs, planet');
      PeaceChangesNothing(fleets, planet, h, draws);
      UnchangedWriteBack(w.fleets, ids, fs);
      assert planet.Some? ==> w.planets[c := planet.value] == w.planets;
    }
  }

  /** One place keeps the account of the war straight. */
  lemma FightPlaceKeeps(g: Galaxy, w: War, c: Coord, group: seq<Fighter>, input: RoundInput)
    requires ReadyForWar(g) && WarSoFar(g, w) && LossesBefore(w.lost, c)
    requires PlaceOf(g, w, c, group)
    requires FightPlace(w, c, group, input).Done?
    ensures var w' := FightPlace(w, c, group, input).value;
      && WarSoFar(g, w')
      && (w'.lost == w.lost || w'.lost == w.lost + [c])
  {
    hide FightResult, AnyFight, WarSoFar, ReadyForWar, Hostilities, FleetIds, Contested;
    var planet := PlanetHere(w, c, group);
    var ids := FleetIds(group, input.escapes);
    FleetIdsAre(group, input.escapes, c);
    var fleets := FleetsOf(w.fleets, ids);
    if Contested(FleetsOf(w.fleets, FleetIds(group, {})), planet) && Contested(fleets, planet) {
      var h := Hostilities(input.answers);
      FightOnlyLosesShips(fleets, planet, h, input.draws(c));
      var (fs, planet') := FightResult(fleets, planet, h, input.draws(c)).value;
      if AnyFight(h, fs, planet') {
        OwnedThroughWar(g, w, c) by { assert PlanetsFought(g.planets, w.planets) by { WarParts(g, w); } }
        FoughtPlace(g, w, c, ids, fs, planet', h);
      } else {
        PeacefulPlace(w, c, ids, planet, h, input.draws(c));
      }
    }
  }

  lemma WarParts(g: Galaxy, w: War)
    requires WarSoFar(g, w)
    ensures PlanetsFought(g.planets, w.planets) && FleetsFought(g.fleets, w.fleets, w.dead) && LossesSoFar(w.planets, w.lost)
  {
  }

  lemma OwnedThroughWar(g: Galaxy, w: War, c: Coord)
    requires PlanetsFought(g.planets, w.planets)
    ensures Owned(g.planets, c) ==> Owned(w.planets, c)
  {
  }

  // ---------------------------------------------------- all the places

  /** The list of fighters the loop walks. */
  ghost predicate IsRoll(g: Galaxy, fighters: seq<Fighter>) {
    && SortedByKey(fighters, At) && NoDuplicates(fighters)
    && forall f :: f in fighters ==> Enlisted(g, f)
  }

  ghost predicate Enlisted(g: Galaxy, f: Fighter) {
    match f
    case PlanetFighter(c) => Owned(g.planets, c)
    case FleetFighter(c, id) => id in g.fleets && g.fleets[id].position == c
  }

  ghost predicate AllEnlisted(g: Galaxy, group: seq<Fighter>) {
    forall k :: 0 <= k < |group| ==> Enlisted(g, group[k])
  }

  lemma GroupIsPlace(g: Galaxy, w: War, fighters: seq<Fighter>, i: nat)
    requires IsRoll(g, fighters) && i < |fighters|
    requires w.planets.Keys == g.planets.Keys && w.fleets.Keys == g.fleets.Keys
    ensures var c := fighters[i].at;
      var j := NextNotFrom(fighters, At, c, i + 1);
      PlaceOf(g, w, c, fighters[i..j]) && AllEnlisted(g, fighters[i..j])
  {
    var c := fighters[i].at;
    var j := NextNotFrom(fighters, At, c, i + 1);
    var group := fighters[i..j];
    forall k | 0 <= k < |group|
      ensures group[k].at == c && group[k] in fighters
    {
      assert group[k] == fighters[i + k];
      assert k > 0 ==> At(fighters[i + k]) == c;
    }
  }

  lemma RollIsPresent(g: Galaxy, w: War, fighters: seq<Fighter>)
    requires IsRoll(g, fighters)
    requires w.planets.Keys == g.planets.Keys && w.fleets.Keys == g.fleets.Keys
    ensures Present(w, fighters)
  {
    assert forall i :: 0 <= i < |fighters| ==> fighters[i] in fighters;
  }

  lemma LossesStayBefore(fighters: seq<Fighter>, i: nat, lost: seq<Coord>, lost': seq<Coord>)
    requires SortedByKey(fighters, At) && i < |fighters| && LossesBefore(lost, fighters[i].at)
    requires lost' == lost || lost' == lost + [fighters[i].at]
    ensures var j := NextNotFrom(fighters, At, fighters[i].at, i + 1);
      j < |fighters| ==> LossesBefore(lost', fighters[j].at)
  {
    var c := fighters[i].at;
    var j := NextNotFrom(fighters, At, c, i + 1);
    if j < |fighters| {
      assert j == NextNotFrom(fighters, At, At(fighters[i]), i);
      RunIsComplete(fighters, At, i);
      assert Before(c, At(fighters[j]));
    }
  }

  /** The fights of all places keep the account straight; a place throws only if
      its fight does. */
  lemma {:induction false} FightPlacesKeep(g: Galaxy, w: War, fighters: seq<Fighter>, input: RoundInput, i: nat)
    requires i <= |fighters| && IsRoll(g, fighters) && Present(w, fighters)
    requires ReadyForWar(g) && WarSoFar(g, w)
    requires i < |fighters| ==> LossesBefore(w.lost, fighters[i].at)
    ensures FightPlaces(w, fighters, input, i).Done? ==> WarSoFar(g, FightPlaces(w, fighters, input, i).value)
    decreases |fighters| - i
  {
    hide FightPlace, LossesSoFar, FleetFought, CannonsLost;
    if i < |fighters| {
      var c := fighters[i].at;
      var j := NextNotFrom(fighters, At, c, i + 1);
      GroupIsPlace(g, w, fighters, i);
      var group := fighters[i..j];
      if FightPlace(w, c, group, input).Done? {
        FightPlaceKeeps(g, w, c, group, input);
        var w' := FightPlace(w, c, group, input).value;
        LossesStayBefore(fighters, i, w.lost, w'.lost);
        RollIsPresent(g, w', fighters);
        FightPlacesKeep(g, w', fighters, input, j);
      }
    }
  }

  /** As long as no place has a bystander, no place throws, whatever the draws. */
  lemma {:induction false} WarPlacesNeverThrow(g: Galaxy, w: War, fighters: seq<Fighter>, input: RoundInput, i: nat)
    requires i <= |fighters| && IsRoll(g, fighters) && Present(w, fighters)
    requires ReadyForWar(g) && WarSoFar(g, w)
    requires i < |fighters| ==> LossesBefore(w.lost, fighters[i].at)
    requires NoBystanders(g, input)
    ensures FightPlaces(w, fighters, input, i).Done?
    decreases |fighters| - i
  {
    hide FightPlace, LossesSoFar, FleetFought, CannonsLost, NoBystanders, AllEnlisted;
    if i < |fighters| {
      var c := fighters[i].at;
      var j := NextNotFrom(fighters, At, c, i + 1);
      GroupIsPlace(g, w, fighters, i);
      var group := fighters[i..j];
      WarPlaceNeverThrows(g, w, c, group, input);
      FightPlaceKeeps(g, w, c, group, input);
      var w' := FightPlace(w, c, group, input).value;
      LossesStayBefore(fighters, i, w.lost, w'.lost);
      RollIsPresent(g, w', fighters);
      WarPlacesNeverThrow(g, w', fighters, input, j);
    }
  }

  /** The armies that fight in a place are armies of those who stay there. */
  lemma ArmiesOfStayers(g: Galaxy, w: War, c: Coord, group: seq<Fighter>, input: RoundInput)
    requires WarSoFar(g, w) && PlaceOf(g, w, c, group) && AllEnlisted(g, group)
    ensures ArmiesOf(FleetsOf(w.fleets, FleetIds(group, input.escapes)), PlanetHere(w, c, group), StayersAt(g, c, input.escapes))
  {
    hide LossesSoFar, AtMost, FleetIds, WarSoFar, StayersAt;
    var ids := FleetIds(group, input.escapes);
    FleetIdsAre(group, input.escapes, c);
    WarParts(g, w);
    var fleets := FleetsOf(w.fleets, ids);
    forall k | 0 <= k < |fleets|
      ensures fleets[k].owner in StayersAt(g, c, input.escapes)
    {
      assert ids[k] in ids && FleetFighter(c, ids[k]) in group;
      StayerFleet(g, c, input.escapes, ids[k]);
      assert FleetFought(g.fleets[ids[k]], w.fleets[ids[k]], ids[k] in w.dead);
    }
    if PlanetHere(w, c, group).Some? {
      StayerPlanet(g, w, c, input.escapes);
    }
  }

  lemma StayerFleet(g: Galaxy, c: Coord, escapes: set<FleetId>, id: FleetId)
    requires id in g.fleets && g.fleets[id].position == c && id !in escapes
    ensures g.fleets[id].owner in StayersAt(g, c, escapes)
  {
  }

  lemma StayerPlanet(g: Galaxy, w: War, c: Coord, escapes: set<FleetId>)
    requires PlanetsFought(g.planets, w.planets) && Owned(g.planets, c)
    ensures c in w.planets
    ensures w.planets[c].cannons != NO_CANNONS ==> w.planets[c].owner in StayersAt(g, c, escapes)
  {
    assert CannonsLost(g.planets[c], w.planets[c]);
  }

  lemma WarPlaceNeverThrows(g: Galaxy, w: War, c: Coord, group: seq<Fighter>, input: RoundInput)
    requires WarSoFar(g, w) && PlaceOf(g, w, c, group) && AllEnlisted(g, group)
    requires NoBystanders(g, input)
    ensures FightPlace(w, c, group, input).Done?
  {
    hide FightResult, WarSoFar, Hostilities, StayersAt, ArmiesOf, NoBystander;
    var planet := PlanetHere(w, c, group);
    var fleets := FleetsOf(w.fleets, FleetIds(group, input.escapes));
    ArmiesOfStayers(g, w, c, group, input);
    ArmiesNeverThrow(fleets, planet, Hostilities(input.answers), input.draws(c), StayersAt(g, c, input.escapes));
  }
}
