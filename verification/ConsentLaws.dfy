/** Nothing is left to merge: of any two fleets the gathering pass leaves side by
    side although the script of the first asked for the second, both together are
    too large. */
module ConsentLaws {
  import opened Basics
  import opened Model
  import opened Planets
  import opened Fleets
  import opened Gather
  import opened GatherLaws

  /** The first fleet asked for the second, of the same player in the same place. */
  predicate Asked(input: GatherInput, a: Fleet, b: Fleet) {
    a.owner == b.owner && a.position == b.position && (a.id, b.id) in input.merges
  }

  /** Together they are above the cap of their player or what an `int` holds. */
  predicate TooLarge(input: GatherInput, a: Fleet, b: Fleet) {
    Sum(a.ships) + Sum(b.ships) > MaxFleetSize(input.caps(a.owner).cohesion) || Sum(a.ships) + Sum(b.ships) >= TWO31
  }

  /** The fleets before `j` that `i` asked for are too large for it. */
  ghost predicate MetUpTo(input: GatherInput, fs: FleetList, i: nat, j: nat) {
    i < j <= |fs| && forall b :: i < b < j && Asked(input, fs[i], fs[b]) ==> TooLarge(input, fs[i], fs[b])
  }

  /** The first `i` fleets have met everyone after them. */
  ghost predicate AllMet(input: GatherInput, fs: FleetList, i: nat) {
    i <= |fs| && forall a :: 0 <= a < i ==> MetUpTo(input, fs, a, |fs|)
  }

  /** The same fleet, with no fewer ships. */
  ghost predicate Grew(f: Fleet, f': Fleet) {
    && f'.id == f.id && f'.owner == f.owner && f'.position == f.position
    && Sum(f.ships) <= Sum(f'.ships)
  }

  lemma MoreShips(a: ShipTab, b: ShipTab)
    ensures Sum(a) <= Sum(AddTab(a, b))
  {
    SumMonotone(a, AddTab(a, b));
  }

  lemma StillTooLarge(input: GatherInput, a: Fleet, b: Fleet, a': Fleet, b': Fleet)
    requires Grew(a, a') && Grew(b, b') && (Asked(input, a, b) ==> TooLarge(input, a, b))
    ensures Asked(input, a', b') ==> TooLarge(input, a', b')
  {
    hide Sum, MaxFleetSize;
  }

  // ------------------------------------------------------- swallowing

  lemma SwallowGrows(fs: FleetList, i: nat, j: nat)
    requires i < j < |fs|
    ensures var s := Swallow(fs, i, j);
      && |s| == |fs| - 1 && Grew(fs[i], s[i])
      && forall k :: 0 <= k < |s| ==> Grew(fs[if k < j then k else k + 1], s[k])
  {
    hide Sum;
    MoreShips(fs[i].ships, fs[j].ships);
  }

  lemma SwallowMet(input: GatherInput, fs: FleetList, i: nat, j: nat)
    requires i < j < |fs| && MetUpTo(input, fs, i, j) && AllMet(input, fs, i)
    ensures MetUpTo(input, Swallow(fs, i, j), i, j) && AllMet(input, Swallow(fs, i, j), i)
  {
    hide Swallow, Asked, TooLarge, Grew;
    SwallowGrows(fs, i, j);
    var s := Swallow(fs, i, j);
    forall b | i < b < j
      ensures Asked(input, s[i], s[b]) ==> TooLarge(input, s[i], s[b])
    {
      StillTooLarge(input, fs[i], fs[b], s[i], s[b]);
    }
    forall a, b | 0 <= a < i && a < b < |s|
      ensures Asked(input, s[a], s[b]) ==> TooLarge(input, s[a], s[b])
    {
      var b' := if b < j then b else b + 1;
      assert MetUpTo(input, fs, a, |fs|);
      StillTooLarge(input, fs[a], fs[b'], s[a], s[b]);
    }
  }

  /** A fleet that was asked for and refused is too large. */
  lemma Refused(input: GatherInput, fs: FleetList, i: nat, j: nat)
    requires i < j < |fs| && SortedFleets(fs) && Sum(fs[i].ships) < TWO31 && Sum(fs[j].ships) < TWO31
    requires !Willing(input, fs[i], fs[j])
    ensures Asked(input, fs[i], fs[j]) ==> TooLarge(input, fs[i], fs[j])
  {
    hide CanGather, Sum, MaxFleetSize;
    GatherTestExact(input.caps(fs[i].owner), fs[i].ships, fs[j].ships);
    assert Precedes(fs[i], fs[j]);
  }

  /** In the sorted list a run of one place ends for good. */
  lemma RunEnds(input: GatherInput, fs: FleetList, i: nat, j: nat)
    requires i < j < |fs| && SortedFleets(fs) && MetUpTo(input, fs, i, j) && fs[j].position != fs[i].position
    ensures MetUpTo(input, fs, i, |fs|)
  {
    hide TooLarge;
    assert Precedes(fs[i], fs[j]);
    forall b | j < b < |fs|
      ensures !Asked(input, fs[i], fs[b])
    {
      assert Precedes(fs[j], fs[b]);
    }
  }

  lemma CountableSwallow(input: GatherInput, fs: FleetList, planets: PlanetMap, i: nat, j: nat)
    requires i < j < |fs| && Countable(fs, planets) && Willing(input, fs[i], fs[j])
    ensures Countable(Swallow(fs, i, j), planets)
  {
    SwallowConserves(input, fs, planets, i, j, NO_PLAYER, 0);
  }

  /** When fleet `i` has met its whole place, whoever it asked for and is left is
      too large for it. */
  lemma {:induction false} MergeRunMeets(input: GatherInput, fs: FleetList, planets: PlanetMap, i: nat, j: nat)
    requires SortedFleets(fs) && Countable(fs, planets)
    requires MetUpTo(input, fs, i, j) && AllMet(input, fs, i)
    ensures var fs' := MergeRun(input, fs, i, j);
      && SortedFleets(fs') && MetUpTo(input, fs', i, |fs'|) && AllMet(input, fs', i)
    decreases |fs| - j
  {
    hide Swallow, Willing, Asked, TooLarge, SortedFleets, AllMet, Sum;
    if j == |fs| {
    } else if fs[j].position != fs[i].position {
      RunEnds(input, fs, i, j);
    } else if Willing(input, fs[i], fs[j]) {
      SwallowSorted(fs, i, j);
      SwallowGrows(fs, i, j);
      SwallowMet(input, fs, i, j);
      CountableSwallow(input, fs, planets, i, j);
      MergeRunMeets(input, Swallow(fs, i, j), planets, i, j);
    } else {
      Refused(input, fs, i, j);
      MergeRunMeets(input, fs, planets, i, j + 1);
    }
  }

  // ------------------------------------------------------- picking up

  lemma PickupGrows(input: GatherInput, f: Fleet, planets: PlanetMap)
    ensures Grew(f, AfterPickup(input, f, planets).0)
  {
    hide CanGather, AccumulateInt, Sum;
    if PicksUp(input, f, planets) {
      MoreShips(f.ships, planets[f.position].hangar);
    }
  }

  lemma PickupMet(input: GatherInput, fs: FleetList, i: nat, f: Fleet)
    requires i < |fs| && Grew(fs[i], f) && MetUpTo(input, fs, i, |fs|) && AllMet(input, fs, i) && SortedFleets(fs)
    ensures AllMet(input, fs[i := f], i + 1) && SortedFleets(fs[i := f])
  {
    hide Asked, TooLarge, Sum;
    var s := fs[i := f];
    forall a, b | 0 <= a < i + 1 && a < b < |s|
      ensures Asked(input, s[a], s[b]) ==> TooLarge(input, s[a], s[b])
    {
      assert MetUpTo(input, fs, a, |fs|);
      StillTooLarge(input, fs[a], fs[b], s[a], s[b]);
    }
    forall a, b | 0 <= a < b < |s|
      ensures Precedes(s[a], s[b])
    {
      assert Precedes(fs[a], fs[b]);
    }
  }

  lemma {:induction false} GatherMeets(input: GatherInput, fs: FleetList, planets: PlanetMap, i: nat)
    requires SortedFleets(fs) && Countable(fs, planets) && AllMet(input, fs, i)
    ensures var fs' := GatherFrom(input, fs, planets, i).0; AllMet(input, fs', |fs'|)
    decreases |fs| - i
  {
    hide MergeRun, AfterPickup, Countable, SortedFleets, AllMet;
    if i < |fs| {
      var merged := MergeRun(input, fs, i, i + 1);
      MergeRunMeets(input, fs, planets, i, i + 1);
      CountableMerged(input, fs, planets, i);
      var (f, planets') := AfterPickup(input, merged[i], planets);
      PickupGrows(input, merged[i], planets);
      PickupMet(input, merged, i, f);
      CountablePickup(input, merged, planets, i);
      GatherMeets(input, merged[i := f], planets', i + 1);
    }
  }

  /** The pass goes as far as it may: of two fleets of one player it leaves in one
      place, the earlier of which asked for the later, the ships together are more
      than the cap or than an `int` holds. */
  lemma MergesExhausted(input: GatherInput, fs: FleetList, planets: PlanetMap, a: nat, b: nat)
    requires SortedFleets(fs) && Countable(fs, planets)
    requires var fs' := GatherFrom(input, fs, planets, 0).0;
      && a < b < |fs'|
      && fs'[a].owner == fs'[b].owner && fs'[a].position == fs'[b].position
      && (fs'[a].id, fs'[b].id) in input.merges
    ensures var fs' := GatherFrom(input, fs, planets, 0).0;
      var size := Sum(fs'[a].ships) + Sum(fs'[b].ships);
      size > MaxFleetSize(input.caps(fs'[a].owner).cohesion) || size >= TWO31
  {
    hide GatherFrom, Sum, MaxFleetSize, Countable, SortedFleets;
    GatherMeets(input, fs, planets, 0);
    var fs' := GatherFrom(input, fs, planets, 0).0;
    assert MetUpTo(input, fs', a, |fs'|);
    assert Asked(input, fs'[a], fs'[b]);
  }
}
