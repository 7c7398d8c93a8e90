/** The fights of a round in closed form: what becomes of every fleet and planet,
    place by place, told from the universe before the fights. */
module PlaceLaws {
  import opened Basics
  import opened Model
  import opened Fleets
  import opened Multimap
  import opened Forest
  import opened Combat
  import opened Fight
  import opened FightLaws
  import opened Phases
  import opened BattleLaws
  import opened RunLaws

  // ------------------------------------------------------- who is where

  predicate Stays(g: Galaxy, c: Coord, escapes: set<FleetId>, id: FleetId) {
    id in g.fleets && g.fleets[id].position == c && id !in escapes
  }

  /** Those of these fleets that are at `c` and do not escape. */
  function StayersAmong(g: Galaxy, c: Coord, escapes: set<FleetId>, ids: seq<FleetId>): (r: seq<FleetId>)
    ensures forall k :: 0 <= k < |r| ==> Stays(g, c, escapes, r[k])
  {
    if ids == [] then []
    else
      var id := ids[|ids| - 1];
      StayersAmong(g, c, escapes, ids[..|ids| - 1]) + if Stays(g, c, escapes, id) then [id] else []
  }

  /** The fleets that stay at `c`, in the order of their ids. */
  function Stayers(g: Galaxy, c: Coord, escapes: set<FleetId>): (r: seq<FleetId>)
    ensures forall k :: 0 <= k < |r| ==> Stays(g, c, escapes, r[k])
  {
    StayersAmong(g, c, escapes, SortedKeys(g.fleets.Keys))
  }

  lemma {:induction false} StayersRise(g: Galaxy, c: Coord, escapes: set<FleetId>, ids: seq<FleetId>)
    requires forall j, k :: 0 <= j < k < |ids| ==> ids[j] < ids[k]
    ensures var r := StayersAmong(g, c, escapes, ids);
      && (forall j, k :: 0 <= j < k < |r| ==> r[j] < r[k])
      && (forall id :: id in r <==> id in ids && Stays(g, c, escapes, id))
  {
    hide Stays;
    if ids != [] {
      var front, last := ids[..|ids| - 1], ids[|ids| - 1];
      StayersRise(g, c, escapes, front);
      var r := StayersAmong(g, c, escapes, front);
      assert ids == front + [last];
      assert forall k :: 0 <= k < |r| ==> r[k] in r;
    }
  }

  /** The stayers, each once, in the order of their ids. */
  lemma StayersSorted(g: Galaxy, c: Coord, escapes: set<FleetId>)
    ensures forall j, k :: 0 <= j < k < |Stayers(g, c, escapes)| ==> Stayers(g, c, escapes)[j] < Stayers(g, c, escapes)[k]
    ensures NoDuplicates(Stayers(g, c, escapes))
    ensures forall id :: id in Stayers(g, c, escapes) <==> Stays(g, c, escapes, id)
  {
    StayersRise(g, c, escapes, SortedKeys(g.fleets.Keys));
  }

  function PlanetAt(g: Galaxy, c: Coord): Option<Planet> {
    if Owned(g.planets, c) then Some(g.planets[c]) else None
  }

  /** The fleets that stay at `c` and an owned planet there belong to two players. */
  ghost predicate TwoPlayersAt(g: Galaxy, c: Coord, escapes: set<FleetId>) {
    || (exists a, b :: Stays(g, c, escapes, a) && Stays(g, c, escapes, b) && g.fleets[a].owner != g.fleets[b].owner)
    || (Owned(g.planets, c) && exists a :: Stays(g, c, escapes, a) && g.fleets[a].owner != g.planets[c].owner)
  }

  /** The fight at `c`, between exactly these fleets and this planet. */
  ghost function FightAt(g: Galaxy, c: Coord, input: RoundInput): Attempt<(seq<Fleet>, Option<Planet>)> {
    FightResult(FleetsOf(g.fleets, Stayers(g, c, input.escapes)), PlanetAt(g, c), Hostilities(input.answers), input.draws(c))
  }

  ghost predicate SameKeys(g: Galaxy, w: War) {
    w.planets.Keys == g.planets.Keys && w.fleets.Keys == g.fleets.Keys
  }

  /** Nobody and nothing at `c` has changed. */
  ghost predicate Untouched(g: Galaxy, w: War, c: Coord)
    requires SameKeys(g, w)
  {
    && (forall id :: id in g.fleets && g.fleets[id].position == c ==> w.fleets[id] == g.fleets[id] && id !in w.dead)
    && (c in g.planets ==> w.planets[c] == g.planets[c])
    && c !in w.lost
  }

  /** The fleets that stayed at `c` and its planet are as their fight left them;
      the dead are those without ships after a fight somebody fought; and those
      who escaped have not changed. */
  ghost predicate Fought(g: Galaxy, w: War, c: Coord, input: RoundInput, fs: seq<Fleet>, planet: Option<Planet>)
    requires SameKeys(g, w)
  {
    var ids, h := Stayers(g, c, input.escapes), Hostilities(input.answers);
    && |fs| == |ids| && (planet.Some? <==> Owned(g.planets, c))
    && (forall k :: 0 <= k < |ids| ==>
         w.fleets[ids[k]] == fs[k] && (ids[k] in w.dead <==> AnyFight(h, fs, planet) && EmptyFleet(fs[k])))
    && (forall id :: id in g.fleets && g.fleets[id].position == c && id in input.escapes ==>
         w.fleets[id] == g.fleets[id] && id !in w.dead)
    && (c in g.planets ==> w.planets[c] == if planet.Some? then planet.value else g.planets[c])
    && (c in w.lost <==> planet.Some? && AnyFight(h, fs, planet) && DeadPlanet(planet.value, fs))
  }

  /** What has become of place `c`, contested or not. */
  ghost predicate PlaceTold(g: Galaxy, w: War, c: Coord, input: RoundInput)
    requires SameKeys(g, w)
  {
    if TwoPlayersAt(g, c, {}) && TwoPlayersAt(g, c, input.escapes) then
      FightAt(g, c, input).Done? &&
      Fought(g, w, c, input, FightAt(g, c, input).value.0, FightAt(g, c, input).value.1)
    else Untouched(g, w, c)
  }

  // ---------------------------------------------------------- the groups

  lemma {:induction false} FleetIdsJoin(a: seq<Fighter>, b: seq<Fighter>, without: set<FleetId>)
    ensures FleetIds(a + b, without) == FleetIds(a, without) + FleetIds(b, without)
  {
    if b == [] {
      assert a + b == a;
    } else {
      assert (a + b)[..|a + b| - 1] == a + b[..|b| - 1];
      FleetIdsJoin(a, b[..|b| - 1], without);
    }
  }

  lemma FleetIdsOne(f: Fighter, without: set<FleetId>)
    ensures FleetIds([f], without) == if f.FleetFighter? && f.id !in without then [f.id] else []
  {
    assert [f][..0] == [];
  }

  /** The planet of a place, if it may fight. */
  lemma {:induction false} PlanetOfPlace(planets: PlanetMap, order: seq<Coord>, c: Coord)
    requires NoDuplicates(order)
    ensures AtKey(PlanetFighters(planets, order), At, c) ==
            if Owned(planets, c) && c in order then [PlanetFighter(c)] else []
  {
    if order != [] {
      var front, last := order[..|order| - 1], order[|order| - 1];
      PlanetOfPlace(planets, front, c);
      assert order == front + [last] && last !in front;
      AtKeyJoin(PlanetFighters(planets, front), if Owned(planets, last) then [PlanetFighter(last)] else [], At, c);
      AtKeyOne(PlanetFighter(last), At, c);
    }
  }

  lemma FleetFightersFront(fleets: FleetMap, ids: seq<FleetId>)
    requires ids != [] && forall i :: 0 <= i < |ids| ==> ids[i] in fleets
    ensures var front, last := ids[..|ids| - 1], ids[|ids| - 1];
      FleetFighters(fleets, ids) == FleetFighters(fleets, front) + [FleetFighter(fleets[last].position, last)]
  {
  }

  /** The fleets of a place, in the order of their ids. */
  lemma {:induction false} FleetsOfPlace(g: Galaxy, ids: seq<FleetId>, c: Coord, without: set<FleetId>)
    requires forall i :: 0 <= i < |ids| ==> ids[i] in g.fleets
    ensures FleetIds(AtKey(FleetFighters(g.fleets, ids), At, c), without) == StayersAmong(g, c, without, ids)
  {
    hide FleetFighters, AtKey, FleetIds;
    if ids == [] {
      NoFleets(g, c, without);
    } else {
      var front, last := ids[..|ids| - 1], ids[|ids| - 1];
      FleetsOfPlace(g, front, c, without);
      FleetFightersFront(g.fleets, ids);
      var f := FleetFighter(g.fleets[last].position, last);
      AtKeyJoin(FleetFighters(g.fleets, front), [f], At, c);
      AtKeyOne(f, At, c);
      FleetIdsJoin(AtKey(FleetFighters(g.fleets, front), At, c), AtKey([f], At, c), without);
      FleetIdsOne(f, without);
      NoIds(without);
    }
  }

  lemma NoFleets(g: Galaxy, c: Coord, without: set<FleetId>)
    ensures FleetIds(AtKey(FleetFighters(g.fleets, []), At, c), without) == []
  {
  }

  lemma {:induction false} NoPlanetAtKey(s: seq<Fighter>, c: Coord)
    requires !HasPlanet(s)
    ensures !HasPlanet(AtKey(s, At, c))
  {
    if s != [] {
      NoPlanetAtKey(s[..|s| - 1], c);
    }
  }

  /** The group of a place is its owned planet and then its fleets. */
  lemma GroupParts(g: Galaxy, order: seq<Coord>, c: Coord)
    requires Enumerates(order, g.planets.Keys)
    ensures AtKey(Fighters(g, order), At, c) ==
            (if Owned(g.planets, c) then [PlanetFighter(c)] else []) +
            AtKey(FleetFighters(g.fleets, SortedKeys(g.fleets.Keys)), At, c)
  {
    assert Owned(g.planets, c) ==> c in order;
    var ps, fs := PlanetFighters(g.planets, order), FleetFighters(g.fleets, SortedKeys(g.fleets.Keys));
    hide AtKey, Owned, PlanetFighters, FleetFighters, SortedKeys, InsertAll;
    PlanetOfPlace(g.planets, order, c);
    InsertAllStable(ps + fs, At, c);
    AtKeyJoin(ps, fs, At, c);
  }

  lemma NoPlanetAmongFleets(g: Galaxy, ids: seq<FleetId>, c: Coord)
    requires forall i :: 0 <= i < |ids| ==> ids[i] in g.fleets
    ensures !HasPlanet(AtKey(FleetFighters(g.fleets, ids), At, c))
  {
    hide AtKey;
    NoPlanetAtKey(FleetFighters(g.fleets, ids), c);
  }

  lemma PlanetFirst(c: Coord, fs: seq<Fighter>, without: set<FleetId>)
    ensures FleetIds([PlanetFighter(c)] + fs, without) == FleetIds(fs, without)
    ensures HasPlanet([PlanetFighter(c)] + fs)
  {
    hide FleetIds;
    FleetIdsJoin([PlanetFighter(c)], fs, without);
    FleetIdsOne(PlanetFighter(c), without);
    assert ([PlanetFighter(c)] + fs)[0].PlanetFighter?;
  }

  /** So its fleets are met in the order of their ids. */
  lemma GroupIs(g: Galaxy, order: seq<Coord>, c: Coord, without: set<FleetId>)
    requires Enumerates(order, g.planets.Keys)
    ensures var group := AtKey(Fighters(g, order), At, c);
      FleetIds(group, without) == Stayers(g, c, without) && (HasPlanet(group) <==> Owned(g.planets, c))
  {
    hide AtKey, FleetFighters, FleetIds, StayersAmong, SortedKeys, HasPlanet, Enumerates, Fighters;
    var ids := SortedKeys(g.fleets.Keys);
    var fs := AtKey(FleetFighters(g.fleets, ids), At, c);
    GroupParts(g, order, c);
    FleetsOfPlace(g, ids, c, without);
    NoPlanetAmongFleets(g, ids, c);
    PlanetFirst(c, fs, without);
    assert [] + fs == fs;
  }

  lemma NoIds(without: set<FleetId>)
    ensures FleetIds([], without) == []
  {
  }

  // ---------------------------------------------------------- one place

  lemma OwnersAt(g: Galaxy, c: Coord, escapes: set<FleetId>)
    ensures var ids, planet := Stayers(g, c, escapes), PlanetAt(g, c);
      var owners := Owners(FleetsOf(g.fleets, ids), planet);
      && |owners| == |ids| + (if planet.Some? then 1 else 0)
      && (forall k :: 0 <= k < |ids| ==> Stays(g, c, escapes, ids[k]) && owners[k] == g.fleets[ids[k]].owner)
      && (planet.Some? ==> owners[|ids|] == planet.value.owner)
  {
    hide StayersAmong, SortedKeys;
  }

  lemma TwoPlayersIfContested(g: Galaxy, c: Coord, escapes: set<FleetId>)
    requires Contested(FleetsOf(g.fleets, Stayers(g, c, escapes)), PlanetAt(g, c))
    ensures TwoPlayersAt(g, c, escapes)
  {
    hide Stayers, Owners;
    OwnersAt(g, c, escapes);
    var ids, planet := Stayers(g, c, escapes), PlanetAt(g, c);
    var owners := Owners(FleetsOf(g.fleets, ids), planet);
    var p, q :| p in owners && q in owners && p != q;
    var i :| 0 <= i < |owners| && owners[i] == p;
    var j :| 0 <= j < |owners| && owners[j] == q;
    assert i < |ids| || j < |ids|;
  }

  lemma ContestedIfTwoPlayers(g: Galaxy, c: Coord, escapes: set<FleetId>)
    requires TwoPlayersAt(g, c, escapes)
    ensures Contested(FleetsOf(g.fleets, Stayers(g, c, escapes)), PlanetAt(g, c))
  {
    hide Stayers, Owners;
    OwnersAt(g, c, escapes);
    StayersSorted(g, c, escapes);
    var ids, planet := Stayers(g, c, escapes), PlanetAt(g, c);
    var owners := Owners(FleetsOf(g.fleets, ids), planet);
    if a, b :| Stays(g, c, escapes, a) && Stays(g, c, escapes, b) && g.fleets[a].owner != g.fleets[b].owner {
      var i :| 0 <= i < |ids| && ids[i] == a;
      var j :| 0 <= j < |ids| && ids[j] == b;
      assert owners[i] in owners && owners[j] in owners;
    } else {
      var a :| Stays(g, c, escapes, a) && g.fleets[a].owner != g.planets[c].owner;
      var i :| 0 <= i < |ids| && ids[i] == a;
      assert owners[i] in owners && owners[|ids|] in owners;
    }
  }

  /** This group is everyone at `c`. */
  ghost predicate IsGroupAt(g: Galaxy, c: Coord, group: seq<Fighter>, input: RoundInput) {
    && FleetIds(group, {}) == Stayers(g, c, {})
    && FleetIds(group, input.escapes) == Stayers(g, c, input.escapes)
    && (HasPlanet(group) <==> Owned(g.planets, c))
  }

  lemma ArmiesMet(g: Galaxy, w: War, c: Coord, escapes: set<FleetId>)
    requires SameKeys(g, w) && Untouched(g, w, c)
    ensures FleetsOf(w.fleets, Stayers(g, c, escapes)) == FleetsOf(g.fleets, Stayers(g, c, escapes))
  {
    hide Stayers;
    assert forall k :: 0 <= k < |Stayers(g, c, escapes)| ==> Stays(g, c, escapes, Stayers(g, c, escapes)[k]);
  }

  lemma PlanetMet(g: Galaxy, w: War, c: Coord, group: seq<Fighter>)
    requires SameKeys(g, w) && Untouched(g, w, c) && (HasPlanet(group) <==> Owned(g.planets, c))
    ensures PlanetHere(w, c, group) == PlanetAt(g, c)
  {
  }

  /** Nothing has changed but at `c`. */
  ghost predicate ElsewhereSame(g: Galaxy, w: War, w': War, c: Coord)
    requires SameKeys(g, w) && SameKeys(g, w')
  {
    && (forall id :: id in g.fleets && g.fleets[id].position != c ==>
         w'.fleets[id] == w.fleets[id] && (id in w'.dead <==> id in w.dead))
    && (forall d :: d in g.planets && d != c ==> w'.planets[d] == w.planets[d])
    && (forall d :: d != c ==> (d in w'.lost <==> d in w.lost))
  }

  lemma WrittenBack(g: Galaxy, w: War, c: Coord, ids: seq<FleetId>, fs: seq<Fleet>, escapes: set<FleetId>)
    requires SameKeys(g, w) && ids == Stayers(g, c, escapes) && |fs| == |ids|
    ensures var m := WriteBack(w.fleets, ids, fs, |ids|);
      && m.Keys == g.fleets.Keys
      && (forall k :: 0 <= k < |ids| ==> m[ids[k]] == fs[k])
      && (forall id :: id in g.fleets && !Stays(g, c, escapes, id) ==> m[id] == w.fleets[id])
  {
    hide Stayers, WriteBack;
    StayersSorted(g, c, escapes);
    WriteBackIs(w.fleets, ids, fs, |ids|);
  }

  lemma DeadAre(g: Galaxy, c: Coord, ids: seq<FleetId>, fs: seq<Fleet>, escapes: set<FleetId>)
    requires ids == Stayers(g, c, escapes) && |fs| == |ids|
    ensures forall k :: 0 <= k < |ids| ==> (ids[k] in DeadAmong(ids, fs) <==> EmptyFleet(fs[k]))
    ensures forall id :: id in DeadAmong(ids, fs) ==> Stays(g, c, escapes, id)
  {
    hide Stayers, EmptyFleet;
    StayersSorted(g, c, escapes);
    assert forall k :: 0 <= k < |ids| ==> (DeadFleet(fs[k]) <==> EmptyFleet(fs[k]));
  }

  /** The fleets after the fight at `c`, there and elsewhere. */
  lemma FleetsAfterFight(g: Galaxy, w: War, c: Coord, fs: seq<Fleet>, planet: Option<Planet>, input: RoundInput)
    requires SameKeys(g, w) && Untouched(g, w, c) && |fs| == |Stayers(g, c, input.escapes)|
    requires planet.Some? ==> c in w.planets
    ensures var ids, h := Stayers(g, c, input.escapes), Hostilities(input.answers);
      var w' := AfterFight(w, c, ids, fs, planet, h);
      && SameKeys(g, w')
      && (forall k :: 0 <= k < |ids| ==>
           w'.fleets[ids[k]] == fs[k] && (ids[k] in w'.dead <==> AnyFight(h, fs, planet) && EmptyFleet(fs[k])))
      && (forall id :: id in g.fleets && !Stays(g, c, input.escapes, id) ==>
           w'.fleets[id] == w.fleets[id] && (id in w'.dead <==> id in w.dead))
  {
    hide Stayers, WriteBack, AnyFight, DeadPlanet, DeadAmong, Hostilities, EmptyFleet;
    var ids := Stayers(g, c, input.escapes);
    WrittenBack(g, w, c, ids, fs, input.escapes);
    DeadAre(g, c, ids, fs, input.escapes);
    assert forall k :: 0 <= k < |ids| ==> Stays(g, c, input.escapes, ids[k]) && ids[k] !in w.dead;
  }

  /** The planets and losses after the fight at `c`. */
  lemma PlanetAfterFight(g: Galaxy, w: War, c: Coord, fs: seq<Fleet>, planet: Option<Planet>, h: FightingSet, ids: seq<FleetId>)
    requires SameKeys(g, w) && Untouched(g, w, c) && |fs| == |ids|
    requires planet.Some? ==> c in g.planets
    ensures var w' := AfterFight(w, c, ids, fs, planet, h);
      && w'.planets.Keys == g.planets.Keys
      && (c in g.planets ==> w'.planets[c] == if planet.Some? then planet.value else g.planets[c])
      && (c in w'.lost <==> planet.Some? && AnyFight(h, fs, planet) && DeadPlanet(planet.value, fs))
      && (forall d :: d in g.planets && d != c ==> w'.planets[d] == w.planets[d])
      && (forall d :: d != c ==> (d in w'.lost <==> d in w.lost))
  {
    hide WriteBack, AnyFight, DeadPlanet, DeadAmong;
  }

  lemma Elsewhere(g: Galaxy, w: War, w': War, c: Coord, escapes: set<FleetId>)
    requires SameKeys(g, w) && SameKeys(g, w')
    requires forall id :: id in g.fleets && !Stays(g, c, escapes, id) ==>
      w'.fleets[id] == w.fleets[id] && (id in w'.dead <==> id in w.dead)
    requires forall d :: d in g.planets && d != c ==> w'.planets[d] == w.planets[d]
    requires forall d :: d != c ==> (d in w'.lost <==> d in w.lost)
    ensures ElsewhereSame(g, w, w', c)
    ensures Untouched(g, w, c) ==> forall id :: id in g.fleets && g.fleets[id].position == c && id in escapes ==>
      w'.fleets[id] == g.fleets[id] && id !in w'.dead
  {
  }

  /** The consequences of the fight at `c`, there and elsewhere. */
  lemma AfterFightTold(g: Galaxy, w: War, c: Coord, fs: seq<Fleet>, planet: Option<Planet>, input: RoundInput)
    requires SameKeys(g, w) && Untouched(g, w, c)
    requires |fs| == |Stayers(g, c, input.escapes)| && (planet.Some? <==> Owned(g.planets, c))
    requires planet.Some? ==> c in g.planets && c in w.planets
    ensures var w' := AfterFight(w, c, Stayers(g, c, input.escapes), fs, planet, Hostilities(input.answers));
      SameKeys(g, w') && Fought(g, w', c, input, fs, planet) && ElsewhereSame(g, w, w', c)
  {
    hide Stayers, AfterFight, AnyFight, DeadPlanet, Hostilities, EmptyFleet, Untouched, ElsewhereSame, Stays, Owned;
    FleetsAfterFight(g, w, c, fs, planet, input);
    PlanetAfterFight(g, w, c, fs, planet, Hostilities(input.answers), Stayers(g, c, input.escapes));
    Elsewhere(g, w, AfterFight(w, c, Stayers(g, c, input.escapes), fs, planet, Hostilities(input.answers)), c, input.escapes);
  }

  /** The fight of one place, told from the universe before all fights. */
  lemma OnePlaceTold(g: Galaxy, w: War, c: Coord, group: seq<Fighter>, input: RoundInput)
    requires SameKeys(g, w) && Untouched(g, w, c) && IsGroupAt(g, c, group, input) && Present(w, group)
    ensures var r := FightPlace(w, c, group, input);
      && (r.Throws? ==> TwoPlayersAt(g, c, {}) && TwoPlayersAt(g, c, input.escapes) && FightAt(g, c, input).Throws?)
      && (r.Done? ==>
           SameKeys(g, r.value) && PlaceTold(g, r.value, c, input) && ElsewhereSame(g, w, r.value, c))
  {
    hide Stayers, FightResult, AfterFight, Fought, Untouched, ElsewhereSame, Contested, TwoPlayersAt, Hostilities, FleetIds, HasPlanet;
    hide PlanetHere, PlanetAt;
    PlanetMet(g, w, c, group);
    ArmiesMet(g, w, c, {});
    ArmiesMet(g, w, c, input.escapes);
    ContestedIs(g, c, {});
    ContestedIs(g, c, input.escapes);
    if TwoPlayersAt(g, c, {}) && TwoPlayersAt(g, c, input.escapes) {
      if FightAt(g, c, input).Done? {
        FightOnlyLosesShips(FleetsOf(g.fleets, Stayers(g, c, input.escapes)), PlanetAt(g, c),
                            Hostilities(input.answers), input.draws(c));
        var (fs, planet) := FightAt(g, c, input).value;
        PlanetAtOwned(g, c);
        AfterFightTold(g, w, c, fs, planet, input);
      }
    } else {
      SameElsewhere(g, w, c);
    }
  }

  lemma ContestedIs(g: Galaxy, c: Coord, escapes: set<FleetId>)
    ensures Contested(FleetsOf(g.fleets, Stayers(g, c, escapes)), PlanetAt(g, c)) <==> TwoPlayersAt(g, c, escapes)
  {
    hide Contested, TwoPlayersAt, Stayers, PlanetAt;
    if TwoPlayersAt(g, c, escapes) {
      ContestedIfTwoPlayers(g, c, escapes);
    } else if Contested(FleetsOf(g.fleets, Stayers(g, c, escapes)), PlanetAt(g, c)) {
      TwoPlayersIfContested(g, c, escapes);
    }
  }

  lemma PlanetAtOwned(g: Galaxy, c: Coord)
    ensures PlanetAt(g, c).Some? <==> Owned(g.planets, c)
  {
  }

  lemma SameElsewhere(g: Galaxy, w: War, c: Coord)
    requires SameKeys(g, w)
    ensures ElsewhereSame(g, w, w, c)
  {
  }

  // -------------------------------------------------------- all places

  ghost predicate Ahead(fighters: seq<Fighter>, i: nat, c: Coord) {
    exists k :: i <= k < |fighters| && fighters[k].at == c
  }

  /** The places still ahead are untouched, the others told. */
  ghost predicate PlacesTold(g: Galaxy, w: War, fighters: seq<Fighter>, input: RoundInput, i: nat)
    requires SameKeys(g, w)
  {
    forall c :: if Ahead(fighters, i, c) then Untouched(g, w, c) else PlaceTold(g, w, c, input)
  }

  lemma ToldElsewhere(g: Galaxy, w: War, w': War, c: Coord, d: Coord, input: RoundInput)
    requires SameKeys(g, w) && SameKeys(g, w') && ElsewhereSame(g, w, w', c) && d != c
    ensures Untouched(g, w, d) ==> Untouched(g, w', d)
    ensures PlaceTold(g, w, d, input) ==> PlaceTold(g, w', d, input)
  {
    hide Stayers, FightAt, TwoPlayersAt, Hostilities, AnyFight, DeadPlanet, EmptyFleet;
    assert forall k :: 0 <= k < |Stayers(g, d, input.escapes)| ==>
      Stays(g, d, input.escapes, Stayers(g, d, input.escapes)[k]);
  }

  /** Nobody is at an empty place, and nothing happens there. */
  lemma EmptyPlace(g: Galaxy, order: seq<Coord>, c: Coord, input: RoundInput)
    requires Enumerates(order, g.planets.Keys) && !Ahead(Fighters(g, order), 0, c)
    ensures !TwoPlayersAt(g, c, {})
  {
    FightersAre(g, order);
    var fighters := Fighters(g, order);
    hide Fighters, Owned;
    forall f | f in fighters
      ensures f.at != c
    {
      var k :| 0 <= k < |fighters| && fighters[k] == f;
    }
    forall id | id in g.fleets
      ensures g.fleets[id].position != c
    {
      assert FleetFighter(g.fleets[id].position, id) in fighters;
    }
  }

  /** The runs of the loop: where one ends, the next begins with a new place. */
  lemma NextRun(fighters: seq<Fighter>, i: nat, j: nat)
    requires SortedByKey(fighters, At) && i < |fighters|
    requires j == NextNotFrom(fighters, At, fighters[i].at, i + 1)
    requires forall k :: 0 <= k < i ==> fighters[k].at != fighters[i].at
    ensures j < |fighters| ==> forall k :: 0 <= k < j ==> fighters[k].at != fighters[j].at
    ensures forall c :: Ahead(fighters, j, c) <==> Ahead(fighters, i, c) && c != fighters[i].at
  {
    var c0 := fighters[i].at;
    assert j == NextNotFrom(fighters, At, At(fighters[i]), i);
    RunIsComplete(fighters, At, i);
    assert forall k :: i <= k < j ==> At(fighters[k]) == c0;
    assert forall k :: j <= k < |fighters| ==> Before(c0, At(fighters[k]));
    if j < |fighters| {
      forall k | 0 <= k < j
        ensures fighters[k].at != fighters[j].at
      {
        assert k < i ==> !Before(At(fighters[i]), At(fighters[k]));
      }
    }
    forall c
      ensures Ahead(fighters, j, c) <==> Ahead(fighters, i, c) && c != c0
    {
      if Ahead(fighters, i, c) && c != c0 {
        var k :| i <= k < |fighters| && fighters[k].at == c;
        assert k >= j;
      }
      if Ahead(fighters, j, c) {
        var k :| j <= k < |fighters| && fighters[k].at == c;
        assert Before(c0, At(fighters[k]));
      }
    }
  }

  /** The group that the loop meets at `i` is everyone in that place. */
  lemma GroupMet(g: Galaxy, w: War, input: RoundInput, i: nat)
    requires Enumerates(input.order, g.planets.Keys) && SameKeys(g, w)
    requires i < |Fighters(g, input.order)|
    requires forall k :: 0 <= k < i ==> Fighters(g, input.order)[k].at != Fighters(g, input.order)[i].at
    ensures var fighters := Fighters(g, input.order);
      var c := fighters[i].at;
      var group := fighters[i..NextNotFrom(fighters, At, c, i + 1)];
      SortedByKey(fighters, At) && Present(w, group) && Present(w, fighters) && IsGroupAt(g, c, group, input)
  {
    hide Fighters, AtKey, FleetIds, Stayers, HasPlanet, Enumerates;
    RollIs(g, input.order);
    var fighters := Fighters(g, input.order);
    RollIsPresent(g, w, fighters);
    var c := fighters[i].at;
    RunIsAtKey(fighters, At, i);
    GroupIs(g, input.order, c, {});
    GroupIs(g, input.order, c, input.escapes);
    var j := NextNotFrom(fighters, At, c, i + 1);
    assert forall k :: 0 <= k < j - i ==> fighters[i..j][k] == fighters[i + k];
  }

  lemma OneMoreTold(g: Galaxy, w: War, w': War, fighters: seq<Fighter>, input: RoundInput, i: nat, j: nat)
    requires i < |fighters| && SameKeys(g, w) && SameKeys(g, w') && PlacesTold(g, w, fighters, input, i)
    requires PlaceTold(g, w', fighters[i].at, input) && ElsewhereSame(g, w, w', fighters[i].at)
    requires forall c :: Ahead(fighters, j, c) <==> Ahead(fighters, i, c) && c != fighters[i].at
    ensures PlacesTold(g, w', fighters, input, j)
  {
    hide Ahead, Untouched, PlaceTold, ElsewhereSame;
    forall c
      ensures if Ahead(fighters, j, c) then Untouched(g, w', c) else PlaceTold(g, w', c, input)
    {
      if c != fighters[i].at {
        ToldElsewhere(g, w, w', fighters[i].at, c, input);
      }
    }
  }

  /** Some contested place has a fight that throws. */
  ghost predicate SomeFightThrows(g: Galaxy, input: RoundInput) {
    exists c :: TwoPlayersAt(g, c, {}) && TwoPlayersAt(g, c, input.escapes) && FightAt(g, c, input).Throws?
  }

  lemma {:induction false} PlacesOutcome(g: Galaxy, w: War, fighters: seq<Fighter>, input: RoundInput, i: nat)
    requires Enumerates(input.order, g.planets.Keys) && fighters == Fighters(g, input.order)
    requires i <= |fighters| && SameKeys(g, w) && PlacesTold(g, w, fighters, input, i)
    requires i < |fighters| ==> forall k :: 0 <= k < i ==> fighters[k].at != fighters[i].at
    requires Present(w, fighters)
    ensures var r := FightPlaces(w, fighters, input, i);
      && (r.Throws? ==> SomeFightThrows(g, input))
      && (r.Done? ==> SameKeys(g, r.value) && forall c :: PlaceTold(g, r.value, c, input))
    decreases |fighters| - i
  {
    hide Fighters, FightPlace, Untouched, PlaceTold, PlacesTold, Ahead, ElsewhereSame, IsGroupAt, TwoPlayersAt, FightAt, Enumerates;
    if i == |fighters| {
      NoneAhead(g, w, fighters, input);
    } else {
      var c := fighters[i].at;
      var j := NextNotFrom(fighters, At, c, i + 1);
      var group := fighters[i..j];
      GroupMet(g, w, input, i);
      NextRun(fighters, i, j);
      StillUntouched(g, w, fighters, input, i);
      OnePlaceTold(g, w, c, group, input);
      if FightPlace(w, c, group, input).Done? {
        var w' := FightPlace(w, c, group, input).value;
        OneMoreTold(g, w, w', fighters, input, i, j);
        FightPlaceKeepsKeys(w, c, group, input);
        PlacesOutcome(g, w', fighters, input, j);
      }
    }
  }

  lemma StillUntouched(g: Galaxy, w: War, fighters: seq<Fighter>, input: RoundInput, i: nat)
    requires i < |fighters| && SameKeys(g, w) && PlacesTold(g, w, fighters, input, i)
    ensures Untouched(g, w, fighters[i].at)
  {
    hide Untouched, PlaceTold;
    assert Ahead(fighters, i, fighters[i].at);
  }

  lemma NoneAhead(g: Galaxy, w: War, fighters: seq<Fighter>, input: RoundInput)
    requires SameKeys(g, w) && PlacesTold(g, w, fighters, input, |fighters|)
    ensures forall c :: PlaceTold(g, w, c, input)
  {
    hide Untouched, PlaceTold;
    forall c
      ensures PlaceTold(g, w, c, input)
    {
      assert !Ahead(fighters, |fighters|, c);
    }
  }

  lemma NothingToldYet(g: Galaxy, input: RoundInput)
    requires Enumerates(input.order, g.planets.Keys)
    ensures PlacesTold(g, War(g.planets, g.fleets, {}, []), Fighters(g, input.order), input, 0)
  {
    hide Fighters, Ahead, TwoPlayersAt, Fought, FightAt, Enumerates;
    forall c
      ensures !Ahead(Fighters(g, input.order), 0, c) ==> !TwoPlayersAt(g, c, {})
    {
      if !Ahead(Fighters(g, input.order), 0, c) {
        EmptyPlace(g, input.order, c, input);
      }
    }
  }

  /** The fights of a round, whole.  With or without a planet, a place that two
      players hold before and after the escapes fights once, with exactly the
      fleets that stayed, in the order of their ids, and its owned planet; every
      other place, and everyone who escaped, is as before.  The phase throws
      exactly when one of these fights does. */
  lemma WarOutcome(g: Galaxy, input: RoundInput)
    requires Enumerates(input.order, g.planets.Keys)
    ensures WarOf(g, input).Throws? <==> SomeFightThrows(g, input)
    ensures WarOf(g, input).Done? ==>
      SameKeys(g, WarOf(g, input).value) && forall c :: PlaceTold(g, WarOf(g, input).value, c, input)
  {
    hide Fighters, FightPlaces, PlaceTold, PlacesTold, Enumerates;
    FightersPresent(g, input.order);
    NothingToldYet(g, input);
    PlacesOutcome(g, War(g.planets, g.fleets, {}, []), Fighters(g, input.order), input, 0);
    if WarOf(g, input).Done? && SomeFightThrows(g, input) {
      ToldNeverThrows(g, WarOf(g, input).value, input);
    }
  }

  lemma ToldNeverThrows(g: Galaxy, w: War, input: RoundInput)
    requires SameKeys(g, w) && forall c :: PlaceTold(g, w, c, input)
    ensures !SomeFightThrows(g, input)
  {
    hide Untouched, Fought, TwoPlayersAt, FightAt;
    forall c | TwoPlayersAt(g, c, {}) && TwoPlayersAt(g, c, input.escapes)
      ensures FightAt(g, c, input).Done?
    {
      assert PlaceTold(g, w, c, input);
    }
  }

  /** The phase drops the dead and may change the origin of the others. */
  lemma LivingRemain(g: Galaxy, main: MainMap, input: RoundInput, id: FleetId)
    requires FightsPhase(g, main, input).Done? && WarOf(g, input).Done? && g.fleets != map[]
    requires id in WarOf(g, input).value.fleets
    ensures var w, fleets := WarOf(g, input).value, FightsPhase(g, main, input).value.fleets;
      && (id in fleets <==> id !in w.dead)
      && (id in fleets ==> fleets[id] == w.fleets[id].(origin := fleets[id].origin))
  {
    hide FightPlaces, Fighters, PlanetsAfterLosses, Resolve, LoseUpTo;
  }

  /** A fleet that stayed in a contested place. */
  lemma StayerFought(g: Galaxy, w: War, c: Coord, input: RoundInput, id: FleetId) returns (k: nat)
    requires SameKeys(g, w) && PlaceTold(g, w, c, input) && Stays(g, c, input.escapes, id)
    requires TwoPlayersAt(g, c, {}) && TwoPlayersAt(g, c, input.escapes)
    ensures FightAt(g, c, input).Done?
    ensures var (fs, planet) := FightAt(g, c, input).value;
      && k < |fs| == |Stayers(g, c, input.escapes)| && Stayers(g, c, input.escapes)[k] == id
      && w.fleets[id] == fs[k]
      && (id in w.dead <==> AnyFight(Hostilities(input.answers), fs, planet) && EmptyFleet(fs[k]))
  {
    hide Stays, Stayers, FightAt, TwoPlayersAt, Hostilities, AnyFight, EmptyFleet, DeadPlanet;
    StayersSorted(g, c, input.escapes);
    k :| 0 <= k < |Stayers(g, c, input.escapes)| && Stayers(g, c, input.escapes)[k] == id;
  }

  /** Any other fleet. */
  lemma OthersUntouched(g: Galaxy, w: War, c: Coord, input: RoundInput, id: FleetId)
    requires SameKeys(g, w) && PlaceTold(g, w, c, input) && id in g.fleets && g.fleets[id].position == c
    requires TwoPlayersAt(g, c, {}) && TwoPlayersAt(g, c, input.escapes) ==> id in input.escapes
    ensures w.fleets[id] == g.fleets[id] && id !in w.dead
  {
    hide Stays, Stayers, FightAt, TwoPlayersAt, Hostilities, AnyFight, EmptyFleet, DeadPlanet;
  }

  /** What the fight phase makes of a fleet: if its place was contested and it
      stayed, it comes out of the fight there with the ships left to it, and is
      gone if it has none; and else it has at most a new origin. */
  lemma FleetThroughFights(g: Galaxy, main: MainMap, input: RoundInput, id: FleetId)
    requires Enumerates(input.order, g.planets.Keys) && FightsPhase(g, main, input).Done? && id in g.fleets
    ensures var f, fleets := g.fleets[id], FightsPhase(g, main, input).value.fleets;
      var c := f.position;
      if TwoPlayersAt(g, c, {}) && TwoPlayersAt(g, c, input.escapes) && id !in input.escapes then
        && FightAt(g, c, input).Done?
        && var (fs, planet) := FightAt(g, c, input).value;
           exists k :: 0 <= k < |fs| && k < |Stayers(g, c, input.escapes)| && Stayers(g, c, input.escapes)[k] == id &&
             (id in fleets <==> !(AnyFight(Hostilities(input.answers), fs, planet) && EmptyFleet(fs[k]))) &&
             (id in fleets ==> fleets[id] == fs[k].(origin := fleets[id].origin))
      else id in fleets && fleets[id] == f.(origin := fleets[id].origin)
  {
    var c := g.fleets[id].position;
    assert Stays(g, c, input.escapes, id) <==> id !in input.escapes;
    assert WarOf(g, input).Done?;
    hide FightsPhase, WarOf, PlaceTold, Stays, Stayers, FightAt, TwoPlayersAt, Hostilities, AnyFight, EmptyFleet, Enumerates;
    WarOutcome(g, input);
    var w := WarOf(g, input).value;
    assert PlaceTold(g, w, c, input);
    LivingRemain(g, main, input, id);
    if TwoPlayersAt(g, c, {}) && TwoPlayersAt(g, c, input.escapes) && id !in input.escapes {
      var k := StayerFought(g, w, c, input, id);
    } else {
      OthersUntouched(g, w, c, input, id);
    }
  }
}
