/** What the gathering pass keeps: ships are conserved, caps respected, and every
    fleet it leaves is a group of the fleets it found. */
module GatherLaws {
  import opened Basics
  import opened Model
  import opened Planets
  import opened Fleets
  import opened Gather

  // ------------------------------------------------------------- totals

  /** The ships of type `t` that player `p` has in these fleets. */
  function FleetColumn(fs: FleetList, p: PlayerId, t: nat): seq<int>
    requires t < SHIPS
  {
    seq(|fs|, i requires 0 <= i < |fs| => if fs[i].owner == p then fs[i].ships[t] else 0)
  }

  function HangarColumn(planets: PlanetMap, keys: seq<Coord>, p: PlayerId, t: nat): seq<int>
    requires t < SHIPS
    requires forall i :: 0 <= i < |keys| ==> keys[i] in planets
  {
    seq(|keys|, i requires 0 <= i < |keys| => if planets[keys[i]].owner == p then planets[keys[i]].hangar[t] else 0)
  }

  /** Every ship of type `t` of player `p`, in fleets and hangars. */
  ghost function TotalShips(fs: FleetList, planets: PlanetMap, keys: seq<Coord>, p: PlayerId, t: nat): int
    requires t < SHIPS
    requires forall i :: 0 <= i < |keys| ==> keys[i] in planets
  {
    Sum(FleetColumn(fs, p, t)) + Sum(HangarColumn(planets, keys, p, t))
  }

  /** Totals that an `int` can count. */
  ghost predicate Countable(fs: FleetList, planets: PlanetMap) {
    && (forall k :: 0 <= k < |fs| ==> Sum(fs[k].ships) < TWO31)
    && (forall c :: c in planets ==> Sum(planets[c].hangar) < TWO31)
  }

  lemma MergedSize(input: GatherInput, a: Fleet, b: Fleet)
    requires Sum(a.ships) < TWO31 && Sum(b.ships) < TWO31 && Willing(input, a, b)
    ensures var m := Merge(a, b);
      && Sum(m.ships) < TWO31 && Sum(m.ships) <= MaxFleetSize(input.caps(a.owner).cohesion)
      && m.owner == a.owner
      && forall t :: 0 <= t < SHIPS ==> m.ships[t] as int == a.ships[t] as int + b.ships[t] as int
  {
    GatherTestExact(input.caps(a.owner), a.ships, b.ships);
    AddTabExact(a.ships, b.ships);
  }

  lemma SwallowConserves(input: GatherInput, fs: FleetList, planets: PlanetMap, i: nat, j: nat, p: PlayerId, t: nat)
    requires i < j < |fs| && t < SHIPS
    requires Countable(fs, planets) && Willing(input, fs[i], fs[j])
    ensures Countable(Swallow(fs, i, j), planets)
    ensures Sum(Swallow(fs, i, j)[i].ships) <= MaxFleetSize(input.caps(fs[i].owner).cohesion)
    ensures Sum(FleetColumn(Swallow(fs, i, j), p, t)) == Sum(FleetColumn(fs, p, t))
  {
    hide Merge, Sum, MaxFleetSize;
    MergedSize(input, fs[i], fs[j]);
    var m := Merge(fs[i], fs[j]);
    var col := FleetColumn(fs, p, t);
    var v := if m.owner == p then m.ships[t] else 0;
    SumUpdate(col, i, v);
    SumRemove(col[i := v], j);
    assert FleetColumn(Swallow(fs, i, j), p, t) == col[i := v][..j] + col[i := v][j + 1..];
  }

  /** A fleet the pass did not enlarge, or one within its owner's cap. */
  ghost predicate WithinCap(input: GatherInput, before: FleetList, f: Fleet) {
    || Sum(f.ships) <= MaxFleetSize(input.caps(f.owner).cohesion)
    || exists k :: 0 <= k < |before| && f.ships == before[k].ships
  }

  ghost predicate AllWithinCap(input: GatherInput, before: FleetList, fs: FleetList) {
    forall k :: 0 <= k < |fs| ==> WithinCap(input, before, fs[k])
  }

  lemma SwallowWithinCap(input: GatherInput, before: FleetList, fs: FleetList, i: nat, j: nat)
    requires i < j < |fs| && AllWithinCap(input, before, fs)
    requires Sum(Swallow(fs, i, j)[i].ships) <= MaxFleetSize(input.caps(fs[i].owner).cohesion)
    ensures AllWithinCap(input, before, Swallow(fs, i, j))
  {
    hide WithinCap, Sum, MaxFleetSize;
    var s := Swallow(fs, i, j);
    forall k | 0 <= k < |s|
      ensures WithinCap(input, before, s[k])
    {
      if k != i {
        assert s[k] == fs[if k < j then k else k + 1];
      } else {
        MergedWithinCap(input, before, fs[i], fs[j]);
      }
    }
  }

  lemma MergedWithinCap(input: GatherInput, before: FleetList, a: Fleet, b: Fleet)
    requires Sum(Merge(a, b).ships) <= MaxFleetSize(input.caps(a.owner).cohesion)
    ensures WithinCap(input, before, Merge(a, b))
  {
  }

  lemma {:induction false} MergeRunConserves(input: GatherInput, before: FleetList, fs: FleetList, planets: PlanetMap,
                                             i: nat, j: nat, p: PlayerId, t: nat)
    requires i < j <= |fs| && t < SHIPS
    requires Countable(fs, planets) && AllWithinCap(input, before, fs)
    ensures var fs' := MergeRun(input, fs, i, j);
      && Countable(fs', planets) && AllWithinCap(input, before, fs')
      && Sum(FleetColumn(fs', p, t)) == Sum(FleetColumn(fs, p, t))
    decreases |fs| - j
  {
    hide Swallow, Willing, Countable, AllWithinCap, FleetColumn, Sum;
    if j == |fs| || fs[j].position != fs[i].position {
    } else if Willing(input, fs[i], fs[j]) {
      SwallowConserves(input, fs, planets, i, j, p, t);
      SwallowWithinCap(input, before, fs, i, j);
      MergeRunConserves(input, before, Swallow(fs, i, j), planets, i, j, p, t);
    } else {
      MergeRunConserves(input, before, fs, planets, i, j + 1, p, t);
    }
  }

  /** One hangar's ship moves into one fleet: the totals do not change. */
  lemma PickupTotals(fs: FleetList, planets: PlanetMap, keys: seq<Coord>, i: nat, c: Coord, f: Fleet, p: PlayerId, t: nat)
    requires i < |fs| && t < SHIPS
    requires Enumerates(keys, planets.Keys) && c in planets
    requires f.owner == fs[i].owner == planets[c].owner
    requires f.ships[t] as int == fs[i].ships[t] as int + planets[c].hangar[t] as int
    ensures TotalShips(fs[i := f], planets[c := planets[c].(hangar := NO_SHIPS)], keys, p, t) ==
            TotalShips(fs, planets, keys, p, t)
  {
    var planets' := planets[c := planets[c].(hangar := NO_SHIPS)];
    var k :| 0 <= k < |keys| && keys[k] == c;
    var v := if f.owner == p then f.ships[t] else 0;
    SumUpdate(FleetColumn(fs, p, t), i, v);
    assert FleetColumn(fs[i := f], p, t) == FleetColumn(fs, p, t)[i := v];
    SumUpdate(HangarColumn(planets, keys, p, t), k, 0);
    assert HangarColumn(planets', keys, p, t) == HangarColumn(planets, keys, p, t)[k := 0];
  }

  lemma PickupConserves(input: GatherInput, before: FleetList, fs: FleetList, planets: PlanetMap, keys: seq<Coord>,
                        i: nat, p: PlayerId, t: nat)
    requires i < |fs| && t < SHIPS
    requires Countable(fs, planets) && AllWithinCap(input, before, fs)
    requires Enumerates(keys, planets.Keys)
    ensures var (f, planets') := AfterPickup(input, fs[i], planets);
      && planets'.Keys == planets.Keys
      && Countable(fs[i := f], planets') && AllWithinCap(input, before, fs[i := f])
      && TotalShips(fs[i := f], planets', keys, p, t) == TotalShips(fs, planets, keys, p, t)
  {
    var (f, planets') := AfterPickup(input, fs[i], planets);
    if PicksUp(input, fs[i], planets) {
      var c := fs[i].position;
      var h := planets[c].hangar;
      GatherTestExact(input.caps(f.owner), fs[i].ships, h);
      AddTabExact(fs[i].ships, h);
      NoShipsSum();
      PickupTotals(fs, planets, keys, i, c, f, p, t);
      assert WithinCap(input, before, f);
    } else {
      assert fs[i := f] == fs;
    }
  }

  /** The whole pass conserves, for each player and ship type, the ships in
      fleets and hangars, and enlarges no fleet beyond its owner's cap. */
  lemma {:induction false} GatherConserves(input: GatherInput, before: FleetList, fs: FleetList, planets: PlanetMap,
                                           keys: seq<Coord>, i: nat, p: PlayerId, t: nat)
    requires i <= |fs| && t < SHIPS
    requires Countable(fs, planets) && AllWithinCap(input, before, fs)
    requires Enumerates(keys, planets.Keys)
    ensures var (fs', planets') := GatherFrom(input, fs, planets, i);
      && planets'.Keys == planets.Keys
      && Countable(fs', planets') && AllWithinCap(input, before, fs')
      && TotalShips(fs', planets', keys, p, t) == TotalShips(fs, planets, keys, p, t)
    decreases |fs| - i
  {
    if i < |fs| {
      var merged := MergeRun(input, fs, i, i + 1);
      MergeRunConserves(input, before, fs, planets, i, i + 1, p, t);
      PickupConserves(input, before, merged, planets, keys, i, p, t);
      var (fs1, planets1) := GatherAt(input, fs, planets, i);
      GatherConserves(input, before, fs1, planets1, keys, i + 1, p, t);
    }
  }

  // -------------------------------------------------------- provenance

  ghost function Bag(groups: seq<FleetList>): multiset<Fleet> {
    if groups == [] then multiset{} else Bag(groups[..|groups| - 1]) + multiset(groups[|groups| - 1])
  }

  lemma {:induction false} BagUpdate(groups: seq<FleetList>, i: nat, g: FleetList)
    requires i < |groups|
    ensures Bag(groups[i := g]) + multiset(groups[i]) == Bag(groups) + multiset(g)
  {
    var last := |groups| - 1;
    var u := groups[i := g];
    if i == last {
      assert u[..last] == groups[..last];
    } else {
      assert u[..last] == groups[..last][i := g] && u[last] == groups[last];
      BagUpdate(groups[..last], i, g);
      var x := multiset(groups[last]);
      calc {
        Bag(u) + multiset(groups[i]);
        (Bag(u[..last]) + x) + multiset(groups[i]);
        (Bag(u[..last]) + multiset(groups[..last][i])) + x;
        (Bag(groups[..last]) + multiset(g)) + x;
        Bag(groups) + multiset(g);
      }
    }
  }

  lemma {:induction false} BagRemove(groups: seq<FleetList>, i: nat)
    requires i < |groups|
    ensures Bag(groups[..i] + groups[i + 1..]) + multiset(groups[i]) == Bag(groups)
  {
    var last := |groups| - 1;
    var r := groups[..i] + groups[i + 1..];
    if i == last {
      assert r == groups[..last];
    } else {
      BagRemove(groups[..last], i);
      assert r[..last - 1] == groups[..last][..i] + groups[..last][i + 1..];
      assert r[last - 1] == groups[last];
    }
  }

  lemma CancelBag(a: multiset<Fleet>, b: multiset<Fleet>, c: multiset<Fleet>)
    requires a + c == b + c
    ensures a == b
  {
    forall x
      ensures a[x] == b[x]
    {
      assert (a + c)[x] == a[x] + c[x] && (b + c)[x] == b[x] + c[x];
    }
  }

  function CargoColumn(group: FleetList, res: nat): seq<int>
    requires res < RESOURCES
  {
    seq(|group|, i requires 0 <= i < |group| => group[i].cargo[res])
  }

  function ShipColumn(group: FleetList, t: nat): seq<int>
    requires t < SHIPS
  {
    seq(|group|, i requires 0 <= i < |group| => group[i].ships[t])
  }

  /** A fleet is its group and the hangar it picked up: the identity of the first
      member, the place and owner of all, the capped sum of their cargoes, and of
      their ships with those picked up. */
  ghost predicate IsGroup(f: Fleet, group: FleetList, picked: ShipTab) {
    && group != []
    && f == group[0].(ships := f.ships, cargo := f.cargo)
    && (forall k :: 0 <= k < |group| ==> group[k].owner == f.owner && group[k].position == f.position)
    && (forall res :: 0 <= res < RESOURCES ==> f.cargo[res] == Min(Sum(CargoColumn(group, res)), MAX32))
    && (forall t :: 0 <= t < SHIPS ==> f.ships[t] == Min(Sum(ShipColumn(group, t)) + picked[t] as int, MAX32))
  }

  ghost predicate Regrouped(before: FleetList, fs: FleetList, groups: seq<FleetList>, picked: seq<ShipTab>) {
    && |groups| == |picked| == |fs|
    && (forall k :: 0 <= k < |fs| ==> IsGroup(fs[k], groups[k], picked[k]))
    && Bag(groups) == multiset(before)
  }

  /** Hangars are as they were or have been emptied. */
  ghost predicate HangarsEmptied(planets0: PlanetMap, planets: PlanetMap) {
    && planets.Keys == planets0.Keys
    && forall c :: c in planets0 ==> planets[c] == planets0[c] || planets[c] == planets0[c].(hangar := NO_SHIPS)
  }

  /** What a fleet picked up is the hangar of its own player's planet below it,
      which is empty now; the fleets from `i` on have picked up nothing. */
  ghost predicate PickedUp(planets0: PlanetMap, planets: PlanetMap, fs: FleetList, picked: seq<ShipTab>, i: nat) {
    && |picked| == |fs|
    && HangarsEmptied(planets0, planets)
    && (forall k :: i <= k < |fs| ==> picked[k] == NO_SHIPS)
    && (forall k :: 0 <= k < |fs| && picked[k] != NO_SHIPS ==> FromHangar(planets0, planets, fs[k], picked[k]))
  }

  ghost predicate FromHangar(planets0: PlanetMap, planets: PlanetMap, f: Fleet, picked: ShipTab) {
    && f.position in planets0 && f.position in planets
    && planets0[f.position].owner == f.owner
    && planets0[f.position].hangar == picked && planets[f.position].hangar == NO_SHIPS
  }

  /** Every other member of a group was swallowed because the script of the first
      asked for it; from `i` on every fleet is still alone. */
  ghost predicate Consented(input: GatherInput, groups: seq<FleetList>, i: nat) {
    && (forall k, m :: 0 <= k < |groups| && 0 < m < |groups[k]| ==>
         (groups[k][0].id, groups[k][m].id) in input.merges)
    && forall k :: i <= k < |groups| ==> |groups[k]| == 1
  }

  /** The script of the fleet asks for the ship in the hangar of its player's
      planet below. */
  predicate AsksFor(input: GatherInput, planets: PlanetMap, f: Fleet) {
    && f.id in input.pickups
    && f.position in planets && planets[f.position].owner == f.owner && planets[f.position].hangar != NO_SHIPS
  }

  /** A fleet with `n` ships and this hangar are together within the cap and can
      be counted in an `int`. */
  predicate RoomFor(input: GatherInput, f: Fleet, n: int, hangar: ShipTab) {
    n + Sum(hangar) <= MaxFleetSize(input.caps(f.owner).cohesion) && n + Sum(hangar) < TWO31
  }

  /** The fleet picks up a hangar exactly when its script asks for it, the hangar
      has room beside the ships of its group, and no fleet before it took it. */
  ghost predicate PickupRule(input: GatherInput, planets: PlanetMap, fs: FleetList, picked: seq<ShipTab>, k: nat)
    requires k < |fs| && k < |picked|
  {
    picked[k] != NO_SHIPS <==>
      && AsksFor(input, planets, fs[k])
      && RoomFor(input, fs[k], Sum(fs[k].ships) - Sum(picked[k]), planets[fs[k].position].hangar)
      && NoneBefore(fs, picked, k)
  }

  ghost predicate NoneBefore(fs: FleetList, picked: seq<ShipTab>, k: nat)
    requires k < |fs| && k < |picked|
  {
    forall e :: 0 <= e < k && fs[e].position == fs[k].position ==> picked[e] == NO_SHIPS
  }

  lemma NoneBeforeByPrefix(fs: FleetList, picked: seq<ShipTab>, k: nat, f: Fleet, hangar: ShipTab)
    requires k < |fs| && k < |picked| && f.position == fs[k].position
    ensures NoneBefore(fs[k := f], picked[k := hangar], k) <==> NoneBefore(fs, picked, k)
  {
    assert forall e :: 0 <= e < k ==> fs[k := f][e] == fs[e] && picked[k := hangar][e] == picked[e];
  }

  /** The rule holds of the first `i` fleets, and hangars are emptied by them only. */
  ghost predicate PickupsTold(input: GatherInput, planets0: PlanetMap, planets: PlanetMap, fs: FleetList,
                              picked: seq<ShipTab>, i: nat)
  {
    && i <= |fs| && i <= |picked| && planets.Keys == planets0.Keys
    && (forall k :: 0 <= k < i ==> PickupRule(input, planets0, fs, picked, k))
    && (forall c :: c in planets0 && planets[c] != planets0[c] ==>
         exists e :: 0 <= e < i && fs[e].position == c && picked[e] == planets0[c].hangar)
  }

  lemma {:induction false} SumConcat(a: seq<int>, b: seq<int>)
    ensures Sum(a + b) == Sum(a) + Sum(b)
  {
    if b == [] {
      assert a + b == a;
    } else {
      assert (a + b)[..|a + b| - 1] == a + b[..|b| - 1];
      SumConcat(a, b[..|b| - 1]);
    }
  }

  lemma MergedGroups(a: Fleet, ga: FleetList, b: Fleet, gb: FleetList, picked: ShipTab)
    requires IsGroup(a, ga, picked) && IsGroup(b, gb, NO_SHIPS)
    requires a.owner == b.owner && a.position == b.position
    ensures IsGroup(Merge(a, b), ga + gb, picked)
  {
    hide Sum;
    var m, g := Merge(a, b), ga + gb;
    forall res | 0 <= res < RESOURCES
      ensures m.cargo[res] == Min(Sum(CargoColumn(g, res)), MAX32)
    {
      SumConcat(CargoColumn(ga, res), CargoColumn(gb, res));
      assert CargoColumn(g, res) == CargoColumn(ga, res) + CargoColumn(gb, res);
      SumNonNegative(CargoColumn(ga, res));
      SumNonNegative(CargoColumn(gb, res));
    }
    forall t | 0 <= t < SHIPS
      ensures m.ships[t] == Min(Sum(ShipColumn(g, t)) + picked[t] as int, MAX32)
    {
      SumConcat(ShipColumn(ga, t), ShipColumn(gb, t));
      assert ShipColumn(g, t) == ShipColumn(ga, t) + ShipColumn(gb, t);
      SumNonNegative(ShipColumn(ga, t));
      SumNonNegative(ShipColumn(gb, t));
      assert NO_SHIPS[t] == 0;
    }
  }

  /** Group `j` joins group `i`. */
  ghost function Joined(groups: seq<FleetList>, i: nat, j: nat): seq<FleetList>
    requires i < j < |groups|
  {
    groups[i := groups[i] + groups[j]][..j] + groups[j + 1..]
  }

  lemma SwallowRegroups(before: FleetList, fs: FleetList, groups: seq<FleetList>, picked: seq<ShipTab>, i: nat, j: nat)
    requires Regrouped(before, fs, groups, picked) && i < j < |fs| && picked[j] == NO_SHIPS
    requires fs[i].owner == fs[j].owner && fs[i].position == fs[j].position
    ensures Regrouped(before, Swallow(fs, i, j), Joined(groups, i, j), picked[..j] + picked[j + 1..])
  {
    hide IsGroup, Bag, Merge;
    MergedGroups(fs[i], groups[i], fs[j], groups[j], picked[i]);
    var g := groups[i] + groups[j];
    var updated := groups[i := g];
    var groups' := Joined(groups, i, j);
    assert groups' == updated[..j] + updated[j + 1..];
    BagUpdate(groups, i, g);
    BagRemove(updated, j);
    assert multiset(g) == multiset(groups[i]) + multiset(groups[j]);
    CancelBag(Bag(groups'), Bag(groups), multiset(g));
    var s := Swallow(fs, i, j);
    forall k | 0 <= k < |s|
      ensures IsGroup(s[k], groups'[k], (picked[..j] + picked[j + 1..])[k])
    {
      var k' := if k < j then k else k + 1;
      assert groups'[k] == updated[k'];
      assert (picked[..j] + picked[j + 1..])[k] == picked[k'];
      assert k' != i ==> s[k] == fs[k'];
    }
  }

  lemma SwallowConsents(input: GatherInput, groups: seq<FleetList>, i: nat, j: nat)
    requires i < j < |groups| && Consented(input, groups, i + 1) && groups[i] != []
    requires (groups[i][0].id, groups[j][0].id) in input.merges
    ensures Consented(input, Joined(groups, i, j), i + 1)
  {
    var groups' := Joined(groups, i, j);
    assert groups'[i] == groups[i] + [groups[j][0]];
    forall k | 0 <= k < |groups'| && k != i
      ensures groups'[k] == groups[if k < j then k else k + 1]
    {
    }
  }

  lemma SwallowPicked(planets0: PlanetMap, planets: PlanetMap, fs: FleetList, picked: seq<ShipTab>, i: nat, j: nat)
    requires i < j < |fs| && PickedUp(planets0, planets, fs, picked, i)
    ensures PickedUp(planets0, planets, Swallow(fs, i, j), picked[..j] + picked[j + 1..], i)
  {
    hide FromHangar, HangarsEmptied, Merge;
    var s, p := Swallow(fs, i, j), picked[..j] + picked[j + 1..];
    forall k | 0 <= k < |s|
      ensures k >= i ==> p[k] == NO_SHIPS
      ensures p[k] != NO_SHIPS ==> FromHangar(planets0, planets, s[k], p[k])
    {
      var k' := if k < j then k else k + 1;
      assert p[k] == picked[k'];
      assert k' != i ==> s[k] == fs[k'];
    }
  }

  lemma {:induction false} MergeRunRegroups(input: GatherInput, before: FleetList, fs: FleetList,
                                            groups: seq<FleetList>, picked: seq<ShipTab>, i: nat, j: nat,
                                            planets0: PlanetMap, planets: PlanetMap)
    returns (groups': seq<FleetList>, picked': seq<ShipTab>)
    requires Regrouped(before, fs, groups, picked) && i < j <= |fs| && PickedUp(planets0, planets, fs, picked, i)
    requires Consented(input, groups, i + 1)
    ensures var fs' := MergeRun(input, fs, i, j);
      && Regrouped(before, fs', groups', picked')
      && PickedUp(planets0, planets, fs', picked', i)
      && Consented(input, groups', i + 1)
      && |picked'| == |fs'| && fs'[..i] == fs[..i] && picked'[..i] == picked[..i]
    decreases |fs| - j
  {
    hide IsGroup, Bag, FromHangar, HangarsEmptied, Swallow, Consented, Joined;
    if j == |fs| || fs[j].position != fs[i].position {
      groups', picked' := groups, picked;
    } else if Willing(input, fs[i], fs[j]) {
      GroupHeads(before, fs, groups, picked);
      SwallowRegroups(before, fs, groups, picked, i, j);
      SwallowPicked(planets0, planets, fs, picked, i, j);
      SwallowConsents(input, groups, i, j);
      SwallowPrefix(fs, i, j);
      picked' := picked[..j] + picked[j + 1..];
      assert picked'[..i] == picked[..i];
      groups', picked' := MergeRunRegroups(input, before, Swallow(fs, i, j), Joined(groups, i, j), picked', i, j, planets0, planets);
    } else {
      groups', picked' := MergeRunRegroups(input, before, fs, groups, picked, i, j + 1, planets0, planets);
    }
  }

  lemma GroupHeads(before: FleetList, fs: FleetList, groups: seq<FleetList>, picked: seq<ShipTab>)
    requires Regrouped(before, fs, groups, picked)
    ensures forall k :: 0 <= k < |fs| ==> groups[k] != [] && groups[k][0].id == fs[k].id
  {
    forall k | 0 <= k < |fs|
      ensures groups[k] != [] && groups[k][0].id == fs[k].id
    {
      assert IsGroup(fs[k], groups[k], picked[k]);
    }
  }

  lemma SwallowPrefix(fs: FleetList, i: nat, j: nat)
    requires i < j < |fs|
    ensures Swallow(fs, i, j)[..i] == fs[..i]
  {
  }

  lemma PickupGroup(f: Fleet, group: FleetList, hangar: ShipTab)
    requires IsGroup(f, group, NO_SHIPS)
    ensures IsGroup(f.(ships := AddTab(f.ships, hangar)), group, hangar)
  {
    hide Sum;
    forall t | 0 <= t < SHIPS
      ensures AddTab(f.ships, hangar)[t] == Min(Sum(ShipColumn(group, t)) + hangar[t] as int, MAX32)
    {
      SumNonNegative(ShipColumn(group, t));
      assert NO_SHIPS[t] == 0;
    }
  }

  /** One pickup: the fleet is its group and the hangar, and the hangar is empty. */
  lemma PickupRegroups(input: GatherInput, before: FleetList, fs: FleetList, groups: seq<FleetList>,
                       picked: seq<ShipTab>, i: nat, planets0: PlanetMap, planets: PlanetMap)
    returns (picked': seq<ShipTab>)
    requires Regrouped(before, fs, groups, picked) && i < |fs| && PickedUp(planets0, planets, fs, picked, i)
    ensures var (f, planets') := AfterPickup(input, fs[i], planets);
      Regrouped(before, fs[i := f], groups, picked') && PickedUp(planets0, planets', fs[i := f], picked', i + 1)
    ensures picked' == picked[i := if PicksUp(input, fs[i], planets) then planets[fs[i].position].hangar else NO_SHIPS]
  {
    hide IsGroup, Bag, CanGather, AccumulateInt;
    picked' := picked;
    if PicksUp(input, fs[i], planets) {
      var hangar := planets[fs[i].position].hangar;
      picked' := picked[i := hangar];
      PickupGroup(fs[i], groups[i], hangar);
    } else {
      assert fs[i := fs[i]] == fs;
    }
  }

  /** Fleets and pickups before `i` decide the account of the first `i`. */
  lemma ToldByPrefix(input: GatherInput, planets0: PlanetMap, planets: PlanetMap, fs: FleetList, picked: seq<ShipTab>,
                     fs': FleetList, picked': seq<ShipTab>, i: nat)
    requires PickupsTold(input, planets0, planets, fs, picked, i)
    requires i <= |fs'| && i <= |picked'| && fs'[..i] == fs[..i] && picked'[..i] == picked[..i]
    ensures PickupsTold(input, planets0, planets, fs', picked', i)
  {
    hide AsksFor, RoomFor;
    assert forall k :: 0 <= k < i ==> fs'[k] == fs'[..i][k] == fs[k] && picked'[k] == picked'[..i][k] == picked[k];
    forall k | 0 <= k < i
      ensures PickupRule(input, planets0, fs', picked', k)
    {
      assert PickupRule(input, planets0, fs, picked, k);
    }
    forall c | c in planets0 && planets[c] != planets0[c]
      ensures exists e :: 0 <= e < i && fs'[e].position == c && picked'[e] == planets0[c].hangar
    {
      var e :| 0 <= e < i && fs[e].position == c && picked[e] == planets0[c].hangar;
      assert fs'[e].position == c;
    }
  }

  /** The hangar below is untouched exactly when no earlier fleet took it. */
  lemma HangarLeft(input: GatherInput, planets0: PlanetMap, planets: PlanetMap, fs: FleetList, picked: seq<ShipTab>, i: nat)
    requires PickedUp(planets0, planets, fs, picked, i) && PickupsTold(input, planets0, planets, fs, picked, i)
    requires i < |fs| && fs[i].position in planets0 && planets0[fs[i].position].hangar != NO_SHIPS
    ensures NoneBefore(fs, picked, i) <==> planets[fs[i].position].hangar != NO_SHIPS
    ensures planets[fs[i].position].hangar != NO_SHIPS ==> planets[fs[i].position] == planets0[fs[i].position]
    ensures planets[fs[i].position].owner == planets0[fs[i].position].owner
  {
    hide AsksFor, RoomFor, PickupRule;
  }

  lemma PickupTold(input: GatherInput, planets0: PlanetMap, planets: PlanetMap, fs: FleetList, picked: seq<ShipTab>, i: nat)
    requires PickedUp(planets0, planets, fs, picked, i) && PickupsTold(input, planets0, planets, fs, picked, i)
    requires i < |fs| && Countable(fs, planets)
    ensures var (f, planets') := AfterPickup(input, fs[i], planets);
      var hangar := if PicksUp(input, fs[i], planets) then planets[fs[i].position].hangar else NO_SHIPS;
      PickupsTold(input, planets0, planets', fs[i := f], picked[i := hangar], i + 1)
  {
    assert |picked| == |fs|;
    hide PickedUp, PickupsTold, AccumulateInt, Sum, CanGather, MaxFleetSize;
    PickupRuleHere(input, planets0, planets, fs, picked, i);
    var (f, planets') := AfterPickup(input, fs[i], planets);
    var picked' := picked[i := if PicksUp(input, fs[i], planets) then planets[fs[i].position].hangar else NO_SHIPS];
    ToldOneMore(input, planets0, planets, planets', fs, fs[i := f], picked, picked', i);
  }

  lemma ToldOneMore(input: GatherInput, planets0: PlanetMap, planets: PlanetMap, planets': PlanetMap, fs: FleetList,
                    fs': FleetList, picked: seq<ShipTab>, picked': seq<ShipTab>, i: nat)
    requires PickedUp(planets0, planets, fs, picked, i) && PickupsTold(input, planets0, planets, fs, picked, i)
    requires i < |fs| && |fs'| == |fs| && |picked'| == |picked|
    requires fs' == fs[i := fs'[i]] && fs'[i].position == fs[i].position && picked' == picked[i := picked'[i]]
    requires PickupRule(input, planets0, fs', picked', i)
    requires
      || planets' == planets
      || (fs[i].position in planets && planets[fs[i].position].hangar != NO_SHIPS &&
          planets' == planets[fs[i].position := planets[fs[i].position].(hangar := NO_SHIPS)] &&
          picked'[i] == planets[fs[i].position].hangar)
    ensures PickupsTold(input, planets0, planets', fs', picked', i + 1)
  {
    hide AsksFor, RoomFor;
    ToldByPrefix(input, planets0, planets, fs, picked, fs', picked', i);
    forall c | c in planets0 && planets'[c] != planets0[c]
      ensures exists e :: 0 <= e < i + 1 && fs'[e].position == c && picked'[e] == planets0[c].hangar
    {
      if planets[c] != planets0[c] {
        var e :| 0 <= e < i && fs'[e].position == c && picked'[e] == planets0[c].hangar;
      } else {
        assert fs'[i].position == c;
      }
    }
  }

  lemma PickupRuleHere(input: GatherInput, planets0: PlanetMap, planets: PlanetMap, fs: FleetList, picked: seq<ShipTab>, i: nat)
    requires PickedUp(planets0, planets, fs, picked, i) && PickupsTold(input, planets0, planets, fs, picked, i)
    requires i < |fs| && Countable(fs, planets)
    ensures var f := AfterPickup(input, fs[i], planets).0;
      var hangar := if PicksUp(input, fs[i], planets) then planets[fs[i].position].hangar else NO_SHIPS;
      PickupRule(input, planets0, fs[i := f], picked[i := hangar], i)
  {
    hide AccumulateInt, Sum, CanGather, MaxFleetSize, FromHangar, NoneBefore;
    NoShipsSum();
    var c := fs[i].position;
    if c in planets0 {
      EmptyHangar(planets[c].hangar);
      GatherTestExact(input.caps(fs[i].owner), fs[i].ships, planets[c].hangar);
      if planets0[c].hangar != NO_SHIPS {
        HangarLeft(input, planets0, planets, fs, picked, i);
      }
      if PicksUp(input, fs[i], planets) {
        AddTabExact(fs[i].ships, planets[c].hangar);
      }
    }
    NoneBeforeByPrefix(fs, picked, i, AfterPickup(input, fs[i], planets).0,
                       if PicksUp(input, fs[i], planets) then planets[c].hangar else NO_SHIPS);
  }

  lemma CountableMerged(input: GatherInput, fs: FleetList, planets: PlanetMap, i: nat)
    requires i < |fs| && Countable(fs, planets)
    ensures Countable(MergeRun(input, fs, i, i + 1), planets)
  {
    MergeRunConserves(input, fs, fs, planets, i, i + 1, NO_PLAYER, 0);
  }

  lemma CountablePickup(input: GatherInput, fs: FleetList, planets: PlanetMap, i: nat)
    requires i < |fs| && Countable(fs, planets)
    ensures var (f, planets') := AfterPickup(input, fs[i], planets); Countable(fs[i := f], planets')
  {
    if PicksUp(input, fs[i], planets) {
      var h := planets[fs[i].position].hangar;
      GatherTestExact(input.caps(fs[i].owner), fs[i].ships, h);
      AddTabExact(fs[i].ships, h);
      NoShipsSum();
    }
  }

  /** One turn of the outer loop keeps the account of groups and pickups. */
  lemma TurnRegroups(input: GatherInput, before: FleetList, fs: FleetList, planets0: PlanetMap,
                     planets: PlanetMap, groups: seq<FleetList>, picked: seq<ShipTab>, i: nat,
                     counted: bool)
    returns (groups': seq<FleetList>, picked': seq<ShipTab>)
    requires Regrouped(before, fs, groups, picked) && i < |fs| && PickedUp(planets0, planets, fs, picked, i)
    requires Consented(input, groups, i)
    requires counted ==> Countable(fs, planets) && PickupsTold(input, planets0, planets, fs, picked, i)
    ensures var (fs', planets') := GatherAt(input, fs, planets, i);
      && Regrouped(before, fs', groups', picked') && PickedUp(planets0, planets', fs', picked', i + 1)
      && Consented(input, groups', i + 1)
      && (counted ==> Countable(fs', planets') && PickupsTold(input, planets0, planets', fs', picked', i + 1))
  {
    hide Regrouped, PickedUp, MergeRun, AfterPickup, PickupsTold, Countable, PicksUp;
    var merged := MergeRun(input, fs, i, i + 1);
    var told;
    groups', told := MergeRunRegroups(input, before, fs, groups, picked, i, i + 1, planets0, planets);
    picked' := PickupRegroups(input, before, merged, groups', told, i, planets0, planets);
    if counted {
      CountableMerged(input, fs, planets, i);
      CountablePickup(input, merged, planets, i);
      ToldByPrefix(input, planets0, planets, fs, picked, merged, told, i);
      PickupTold(input, planets0, planets, merged, told, i);
    }
  }

  lemma {:induction false} GatherRegroups(input: GatherInput, before: FleetList, fs: FleetList, planets0: PlanetMap,
                                          planets: PlanetMap, groups: seq<FleetList>, picked: seq<ShipTab>, i: nat,
                                          counted: bool)
    returns (groups': seq<FleetList>, picked': seq<ShipTab>)
    requires Regrouped(before, fs, groups, picked) && i <= |fs| && PickedUp(planets0, planets, fs, picked, i)
    requires Consented(input, groups, i)
    requires counted ==> Countable(fs, planets) && PickupsTold(input, planets0, planets, fs, picked, i)
    ensures var (fs', planets') := GatherFrom(input, fs, planets, i);
      && Regrouped(before, fs', groups', picked') && PickedUp(planets0, planets', fs', picked', |fs'|)
      && Consented(input, groups', |fs'|)
      && (counted ==> PickupsTold(input, planets0, planets', fs', picked', |fs'|))
    decreases |fs| - i
  {
    hide Regrouped, PickedUp, GatherAt, PickupsTold, Countable, Consented;
    groups', picked' := groups, picked;
    if i < |fs| {
      groups', picked' := TurnRegroups(input, before, fs, planets0, planets, groups, picked, i, counted);
      var (fs1, planets1) := GatherAt(input, fs, planets, i);
      groups', picked' := GatherRegroups(input, before, fs1, planets0, planets1, groups', picked', i + 1, counted);
    }
  }

  lemma {:induction false} SingletonBag(fs: FleetList)
    ensures Bag(Singletons(fs)) == multiset(fs)
  {
    if fs != [] {
      var front := fs[..|fs| - 1];
      SingletonBag(front);
      assert Singletons(fs)[..|fs| - 1] == Singletons(front);
      assert fs == front + [fs[|fs| - 1]];
    }
  }

  function Singletons(fs: FleetList): seq<FleetList> {
    seq(|fs|, i requires 0 <= i < |fs| => [fs[i]])
  }

  function NonePicked(n: nat): (r: seq<ShipTab>)
    ensures |r| == n && forall k :: 0 <= k < n ==> r[k] == NO_SHIPS
  {
    if n == 0 then [] else NonePicked(n - 1) + [NO_SHIPS]
  }

  lemma SingletonsRegroup(fs: FleetList)
    ensures Regrouped(fs, fs, Singletons(fs), NonePicked(|fs|))
  {
    SingletonBag(fs);
    forall k | 0 <= k < |fs|
      ensures IsGroup(fs[k], [fs[k]], NO_SHIPS)
    {
      SingletonGroup(fs[k]);
    }
  }

  lemma SumOne(x: int)
    ensures Sum([x]) == x
  {
    assert [x][..0] == [];
  }

  lemma SingletonGroup(f: Fleet)
    ensures IsGroup(f, [f], NO_SHIPS)
  {
    hide Sum;
    forall res | 0 <= res < RESOURCES
      ensures f.cargo[res] == Min(Sum(CargoColumn([f], res)), MAX32)
    {
      assert CargoColumn([f], res) == [f.cargo[res] as int];
      SumOne(f.cargo[res]);
    }
    forall t | 0 <= t < SHIPS
      ensures f.ships[t] == Min(Sum(ShipColumn([f], t)) + NO_SHIPS[t] as int, MAX32)
    {
      assert ShipColumn([f], t) == [f.ships[t] as int];
      SumOne(f.ships[t]);
      assert NO_SHIPS[t] == 0;
    }
  }

  lemma NothingTold(input: GatherInput, fs: FleetList, planets: PlanetMap)
    ensures Consented(input, Singletons(fs), 0)
    ensures PickupsTold(input, planets, planets, fs, NonePicked(|fs|), 0)
  {
  }

  /** Every fleet after the pass is one group of the fleets before it, each of
      which belongs to exactly one group, with the hangar it picked up, if any,
      from its player's planet below: nothing is lost but the ids swallowed, and
      cargo and ships are the capped sums of the members' whatever the order.
      Whoever was swallowed, the first of the group had asked for; and as long as
      an `int` counts all ships, a hangar goes to the first fleet over it that
      asked for it and has room for it, and stays if there is none. */
  lemma GatherIsRegrouping(input: GatherInput, fs: FleetList, planets: PlanetMap)
    returns (groups: seq<FleetList>, picked: seq<ShipTab>)
    ensures var (fs', planets') := GatherFrom(input, fs, planets, 0);
      && Regrouped(fs, fs', groups, picked) && PickedUp(planets, planets', fs', picked, |fs'|)
      && Consented(input, groups, |fs'|)
      && (Countable(fs, planets) ==> PickupsTold(input, planets, planets', fs', picked, |fs'|))
  {
    hide Regrouped, PickedUp, PickupsTold, Consented, GatherFrom, Countable;
    SingletonsRegroup(fs);
    NothingTold(input, fs, planets);
    NothingPicked(planets, fs);
    groups, picked := GatherRegroups(input, fs, fs, planets, planets, Singletons(fs), NonePicked(|fs|), 0,
                                      Countable(fs, planets));
  }

  lemma NothingPicked(planets: PlanetMap, fs: FleetList)
    ensures PickedUp(planets, planets, fs, NonePicked(|fs|), 0)
  {
  }

  /** The conservation law for the pass as the round runs it. */
  lemma PassConservesShips(input: GatherInput, fs: FleetList, planets: PlanetMap, keys: seq<Coord>, p: PlayerId, t: nat)
    requires t < SHIPS && Countable(fs, planets) && Enumerates(keys, planets.Keys)
    ensures var (fs', planets') := GatherFrom(input, fs, planets, 0);
      && planets'.Keys == planets.Keys
      && Countable(fs', planets')
      && AllWithinCap(input, fs, fs')
      && TotalShips(fs', planets', keys, p, t) == TotalShips(fs, planets, keys, p, t)
  {
    GatherConserves(input, fs, fs, planets, keys, 0, p, t);
  }
}
