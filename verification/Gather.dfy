/** The gathering pass of `execFleets` (`gatherIfWant` in Simulation.cpp): fleets
    of one player in one place merge, and pick up the ship in the hangar below. */
module Gather {
  import opened Basics
  import opened Model
  import opened Planets
  import opened Fleets
  import opened Multimap

  type FleetList = seq<Fleet>

  /** The answers of the `do_gather` scripts and the caps of the players. */
  datatype GatherInput = GatherInput(
    caps: PlayerId -> Caps,
    merges: set<(FleetId, FleetId)>,
    pickups: set<FleetId>)

  function Where(f: Fleet): Coord { f.position }

  /** Position first, then id: the order of the local fleet multimap. */
  predicate Precedes(a: Fleet, b: Fleet) {
    Before(a.position, b.position) || (a.position == b.position && a.id < b.id)
  }

  ghost predicate SortedFleets(fs: FleetList) {
    forall i, j :: 0 <= i < j < |fs| ==> Precedes(fs[i], fs[j])
  }

  function FleetsById(fleets: FleetMap, ids: seq<FleetId>): FleetList
    requires forall i :: 0 <= i < |ids| ==> ids[i] in fleets
  {
    seq(|ids|, i requires 0 <= i < |ids| => fleets[ids[i]])
  }

  /** The local multimap: the fleets in id order, inserted by position. */
  function FleetMultimap(fleets: FleetMap): FleetList {
    InsertAll(FleetsById(fleets, SortedKeys(fleets.Keys)), Where)
  }

  /** A fleet with the highest id so far goes after the others of its place. */
  lemma InsertFleetSorted(s: FleetList, x: Fleet)
    requires SortedFleets(s) && DistinctIds(s)
    requires forall i :: 0 <= i < |s| ==> s[i].id < x.id
    ensures SortedFleets(Insert(s, Where, x)) && DistinctIds(Insert(s, Where, x))
  {
    hide UpperBound;
    var u := UpperBound(s, Where, Where(x));
    var r := s[..u] + [x] + s[u..];
    assert r == Insert(s, Where, x);
    forall i, j | 0 <= i < j < |r|
      ensures Precedes(r[i], r[j]) && r[i].id != r[j].id
    {
      var a, b := if i < u then i else i - 1, if j < u then j else j - 1;
      if j == u {
        assert r[i] == s[i];
        assert !Before(Where(x), Where(s[i]));
      } else if i == u {
        assert r[j] == s[b] && Before(Where(x), Where(s[u]));
        assert b == u || Precedes(s[u], s[b]);
      } else {
        assert r[i] == s[a] && r[j] == s[b] && a < b;
        assert Precedes(s[a], s[b]);
      }
    }
  }

  lemma {:induction false} InsertAllFleetsSorted(xs: FleetList)
    requires forall i, j :: 0 <= i < j < |xs| ==> xs[i].id < xs[j].id
    ensures SortedFleets(InsertAll(xs, Where)) && DistinctIds(InsertAll(xs, Where))
    ensures forall f :: f in InsertAll(xs, Where) <==> f in xs
  {
    if xs != [] {
      var front, x := xs[..|xs| - 1], xs[|xs| - 1];
      var s := InsertAll(front, Where);
      InsertAllFleetsSorted(front);
      InsertAllSorted(front, Where);
      InsertKeeps(s, Where, x);
      forall i | 0 <= i < |s|
        ensures s[i].id < x.id
      {
        assert s[i] in front;
      }
      InsertFleetSorted(s, x);
      assert xs == front + [x];
    }
  }

  /** Every fleet of the map is in the multimap, once, in order. */
  lemma FleetMultimapSorted(fleets: FleetMap)
    requires forall id :: id in fleets ==> fleets[id].id == id
    ensures SortedFleets(FleetMultimap(fleets))
    ensures forall f :: f in FleetMultimap(fleets) <==> f.id in fleets && fleets[f.id] == f
    ensures DistinctIds(FleetMultimap(fleets))
  {
    var ids := SortedKeys(fleets.Keys);
    var xs := FleetsById(fleets, ids);
    forall i, j | 0 <= i < j < |xs|
      ensures xs[i].id < xs[j].id
    {
      assert ids[i] in fleets && ids[j] in fleets;
    }
    InsertAllFleetsSorted(xs);
    forall f
      ensures f in xs <==> f.id in fleets && fleets[f.id] == f
    {
      if f.id in fleets && fleets[f.id] == f {
        var i :| 0 <= i < |ids| && ids[i] == f.id;
        assert xs[i] == f;
      }
    }
  }

  ghost predicate DistinctIds(fs: FleetList) {
    forall i, j :: 0 <= i < j < |fs| ==> fs[i].id != fs[j].id
  }

  // -------------------------------------------------- the pass, as functions

  /** Whether `a`, the earlier fleet, swallows `b`. */
  predicate Willing(input: GatherInput, a: Fleet, b: Fleet) {
    && b.id > a.id
    && b.owner == a.owner
    && CanGather(input.caps(a.owner), a.ships, b.ships) == FleetActionOk
    && (a.id, b.id) in input.merges
  }

  /** Fleet `i` swallows fleet `j`, which leaves the list. */
  function Swallow(fs: FleetList, i: nat, j: nat): (r: FleetList)
    requires i < j < |fs|
    ensures |r| == |fs| - 1
  {
    fs[i := Merge(fs[i], fs[j])][..j] + fs[j + 1..]
  }

  /** Fleet `i` meets the fleets of its place from `j` on. */
  function MergeRun(input: GatherInput, fs: FleetList, i: nat, j: nat): (r: FleetList)
    requires i < j <= |fs|
    ensures i < |r| <= |fs|
    decreases |fs| - j
  {
    if j == |fs| || fs[j].position != fs[i].position then fs
    else if Willing(input, fs[i], fs[j]) then MergeRun(input, Swallow(fs, i, j), i, j)
    else MergeRun(input, fs, i, j + 1)
  }

  predicate PicksUp(input: GatherInput, f: Fleet, planets: PlanetMap) {
    && f.position in planets
    && planets[f.position].owner == f.owner
    && AccumulateInt(planets[f.position].hangar) != 0
    && CanGather(input.caps(f.owner), f.ships, planets[f.position].hangar) == FleetActionOk
    && f.id in input.pickups
  }

  function AfterPickup(input: GatherInput, f: Fleet, planets: PlanetMap): (Fleet, PlanetMap) {
    if PicksUp(input, f, planets) then
      var p := planets[f.position];
      (f.(ships := AddTab(f.ships, p.hangar)), planets[f.position := p.(hangar := NO_SHIPS)])
    else (f, planets)
  }

  /** One turn of the outer loop: fleet `i` merges, then picks up. */
  function GatherAt(input: GatherInput, fs: FleetList, planets: PlanetMap, i: nat): (r: (FleetList, PlanetMap))
    requires i < |fs|
    ensures i < |r.0| <= |fs|
  {
    var merged := MergeRun(input, fs, i, i + 1);
    var (f, planets') := AfterPickup(input, merged[i], planets);
    (merged[i := f], planets')
  }

  function GatherFrom(input: GatherInput, fs: FleetList, planets: PlanetMap, i: nat): (FleetList, PlanetMap)
    requires i <= |fs|
    decreases |fs| - i
  {
    if i == |fs| then (fs, planets)
    else
      var (fs', planets') := GatherAt(input, fs, planets, i);
      GatherFrom(input, fs', planets', i + 1)
  }

  // --------------------------------------------------- the pass, in place

  lemma SwallowSorted(fs: FleetList, i: nat, j: nat)
    requires SortedFleets(fs) && i < j < |fs|
    ensures SortedFleets(Swallow(fs, i, j))
  {
    var r := Swallow(fs, i, j);
    forall a, b | 0 <= a < b < |r|
      ensures Precedes(r[a], r[b])
    {
      var a', b' := if a < j then a else a + 1, if b < j then b else b + 1;
      assert Precedes(fs[a'], fs[b']);
    }
  }

  /** Swallowing one fleet of a run shortens the run and moves nobody. */
  lemma SwallowInRun(fs: FleetList, i: nat, j: nat, lo: nat, hi: nat)
    requires lo <= i < j < hi <= |fs|
    requires forall k :: lo <= k < hi ==> fs[k].position == fs[i].position
    requires hi < |fs| ==> fs[hi].position != fs[i].position
    ensures var r := Swallow(fs, i, j);
      && |r| == |fs| - 1 && r[i].position == fs[i].position
      && (forall k :: lo <= k < hi - 1 ==> r[k].position == fs[i].position)
      && (hi - 1 < |r| ==> r[hi - 1].position != fs[i].position)
  {
    var r := Swallow(fs, i, j);
    forall k | 0 <= k < |r|
      ensures r[k].position == fs[if k < j then k else k + 1].position
    {
      assert k != i ==> r[k] == fs[if k < j then k else k + 1];
    }
  }

  /** The first index of the run of fleets at `c`, and the index after it. */
  method EqualRange(fs: FleetList, i: nat) returns (lo: nat, hi: nat)
    requires i < |fs| && SortedFleets(fs)
    ensures lo <= i < hi <= |fs|
    ensures forall k :: lo <= k < hi ==> fs[k].position == fs[i].position
    ensures hi < |fs| ==> fs[hi].position != fs[i].position
    ensures lo > 0 ==> fs[lo - 1].position != fs[i].position
  {
    lo := i;
    while lo > 0 && fs[lo - 1].position == fs[i].position
      invariant lo <= i
      invariant forall k :: lo <= k <= i ==> fs[k].position == fs[i].position
    {
      lo := lo - 1;
    }
    hi := i + 1;
    while hi < |fs| && fs[hi].position == fs[i].position
      invariant i < hi <= |fs|
      invariant forall k :: i <= k < hi ==> fs[k].position == fs[i].position
    {
      hi := hi + 1;
    }
  }

  /** `gatherIfWant`: walks the whole run of fleets at the place of fleet `i`,
      erasing those it swallows, then looks at the hangar. */
  method GatherIfWant(input: GatherInput, fs0: FleetList, planets0: PlanetMap, i: nat)
    returns (fs: FleetList, planets: PlanetMap)
    requires i < |fs0| && SortedFleets(fs0)
    ensures SortedFleets(fs)
    ensures (fs, planets) == GatherAt(input, fs0, planets0, i)
  {
    hide Swallow, Merge, CanGather, PicksUp;
    fs, planets := fs0, planets0;
    var lo, hi := EqualRange(fs, i);
    forall k | lo <= k < i
      ensures fs0[k].id < fs0[i].id
    {
      assert Precedes(fs0[k], fs0[i]);
    }
    var j := lo;
    while j < hi
      invariant lo <= j <= hi <= |fs| && i < hi
      invariant SortedFleets(fs)
      invariant j <= i ==> fs == fs0
      invariant forall k :: lo <= k < hi ==> fs[k].position == fs[i].position
      invariant hi < |fs| ==> fs[hi].position != fs[i].position
      invariant j > i ==> MergeRun(input, fs0, i, i + 1) == MergeRun(input, fs, i, j)
      decreases hi - j
    {
      if Willing(input, fs[i], fs[j]) {
        SwallowSorted(fs, i, j);
        SwallowInRun(fs, i, j, lo, hi);
        fs := Swallow(fs, i, j);
        hi := hi - 1;
      } else {
        j := j + 1;
      }
    }
    assert fs == MergeRun(input, fs0, i, i + 1);
    var (f, after) := AfterPickup(input, fs[i], planets);
    ghost var before := fs;
    fs, planets := fs[i := f], after;
    forall a, b | 0 <= a < b < |fs|
      ensures Precedes(fs[a], fs[b])
    {
      assert Precedes(before[a], before[b]);
    }
  }

  /** The outer loop of the pass. */
  method GatherFleets(input: GatherInput, fs0: FleetList, planets0: PlanetMap)
    returns (fs: FleetList, planets: PlanetMap)
    requires SortedFleets(fs0)
    ensures SortedFleets(fs)
    ensures (fs, planets) == GatherFrom(input, fs0, planets0, 0)
  {
    fs, planets := fs0, planets0;
    var i := 0;
    while i < |fs|
      invariant 0 <= i <= |fs|
      invariant SortedFleets(fs)
      invariant GatherFrom(input, fs0, planets0, 0) == GatherFrom(input, fs, planets, i)
      decreases |fs| - i
    {
      fs, planets := GatherIfWant(input, fs, planets, i);
      i := i + 1;
    }
  }
}
