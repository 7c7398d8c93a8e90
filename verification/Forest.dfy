/** The tree of planets each player grows from a main planet, and what happens
    to it when planets are settled and lost (`onPlanetLose` in Rules.cpp and the
    end of `execFights` in Simulation.cpp). */
module Forest {
  import opened Basics
  import opened Model
  import opened Planets
  import opened Fleets

  /** `Player::mainPlanet`, as the database holds it. */
  type MainMap = map<PlayerId, Coord>

  /** A planet number that strictly decreases from child to parent. */
  type Rank = map<Coord, nat>

  predicate Owned(planets: PlanetMap, c: Coord) {
    c in planets && planets[c].owner != NO_PLAYER
  }

  /** An owned planet is the main planet of its owner and its own parent, or
      hangs below an older planet of the same owner. */
  ghost predicate Linked(planets: PlanetMap, main: MainMap, rank: Rank, c: Coord)
    requires c in planets && c in rank
  {
    var p := planets[c];
    && p.owner in main
    && if main[p.owner] == c then p.parent == c
       else
         && p.parent in planets && p.parent in rank
         && planets[p.parent].owner == p.owner
         && rank[p.parent] < rank[c]
  }

  ghost predicate Ranked(planets: PlanetMap, main: MainMap, rank: Rank) {
    && planets.Keys <= rank.Keys
    && forall c :: Owned(planets, c) ==> Linked(planets, main, rank, c)
  }

  ghost predicate OriginOk(planets: PlanetMap, f: Fleet) {
    Owned(planets, f.origin) && planets[f.origin].owner == f.owner
  }

  /** The planet reached by following `n` parents. */
  ghost function Ancestor(planets: PlanetMap, c: Coord, n: nat): Coord {
    if n == 0 then c
    else
      var a := Ancestor(planets, c, n - 1);
      if a in planets then planets[a].parent else a
  }

  lemma {:induction false} AncestorFromParent(planets: PlanetMap, c: Coord, n: nat)
    requires c in planets
    ensures Ancestor(planets, c, n + 1) == Ancestor(planets, planets[c].parent, n)
  {
    if n > 0 {
      AncestorFromParent(planets, c, n - 1);
    }
  }

  /** Every owned planet's chain of parents stays with its owner and ends at the
      owner's main planet, the only planet that is its own parent. */
  lemma {:induction false} ChainReachesMain(planets: PlanetMap, main: MainMap, rank: Rank, c: Coord) returns (n: nat)
    requires Ranked(planets, main, rank) && Owned(planets, c)
    ensures n <= rank[c]
    ensures Ancestor(planets, c, n) == main[planets[c].owner]
    ensures forall k :: 0 <= k <= n ==>
      var a := Ancestor(planets, c, k);
      && Owned(planets, a)
      && planets[a].owner == planets[c].owner
      && (planets[a].parent == a <==> k == n)
    decreases rank[c]
  {
    assert Linked(planets, main, rank, c);
    var p := planets[c];
    if main[p.owner] == c {
      n := 0;
    } else {
      var m := ChainReachesMain(planets, main, rank, p.parent);
      n := m + 1;
      AncestorFromParent(planets, c, m);
      forall k | 0 <= k <= n
        ensures var a := Ancestor(planets, c, k);
          && Owned(planets, a)
          && planets[a].owner == planets[c].owner
          && (planets[a].parent == a <==> k == n)
      {
        if k > 0 {
          AncestorFromParent(planets, c, k - 1);
          assert Owned(planets, Ancestor(planets, p.parent, k - 1));
        }
      }
    }
  }

  // --------------------------------------------------- growing the tree

  /** Changes that keep owners and parents keep the forest. */
  ghost predicate SameTree(planets: PlanetMap, planets': PlanetMap) {
    && planets'.Keys == planets.Keys
    && forall c :: c in planets ==> planets'[c].owner == planets[c].owner && planets'[c].parent == planets[c].parent
  }

  lemma SameTreeRanked(planets: PlanetMap, planets': PlanetMap, main: MainMap, rank: Rank)
    requires Ranked(planets, main, rank) && SameTree(planets, planets')
    ensures Ranked(planets', main, rank)
  {
    forall c | Owned(planets', c)
      ensures Linked(planets', main, rank, c)
    {
      assert Owned(planets, c) && Linked(planets, main, rank, c);
    }
  }

  /** Settling a free planet hangs a new leaf below the origin of the fleet. */
  lemma ColonyRanked(planets: PlanetMap, main: MainMap, rank: Rank, c: Coord, f: Fleet) returns (rank': Rank)
    requires Ranked(planets, main, rank)
    requires c in planets && planets[c].owner == NO_PLAYER
    requires OriginOk(planets, f)
    requires f.owner in main ==> main[f.owner] != c
    ensures Ranked(planets[c := Colony(planets[c], f)], main, rank')
  {
    var planets' := planets[c := Colony(planets[c], f)];
    assert Linked(planets, main, rank, f.origin);
    rank' := rank[c := rank[f.origin] + 1];
    forall d | Owned(planets', d)
      ensures Linked(planets', main, rank', d)
    {
      if d != c {
        assert Owned(planets, d) && Linked(planets, main, rank, d);
        assert main[planets[d].owner] != d ==> planets[d].parent != c;
      }
    }
  }

  /** A player with planets has a main planet, and owns it. */
  lemma MainIsOwned(planets: PlanetMap, main: MainMap, rank: Rank, c: Coord)
    requires Ranked(planets, main, rank) && Owned(planets, c)
    ensures planets[c].owner in main
    ensures Owned(planets, main[planets[c].owner])
    ensures planets[main[planets[c].owner]].owner == planets[c].owner
  {
    assert Linked(planets, main, rank, c);
    var n := ChainReachesMain(planets, main, rank, c);
    assert Owned(planets, Ancestor(planets, c, n));
  }

  /** `createMainPlanet` on the free planet `c`. */
  function MainPlanet(p: Planet, pid: PlayerId): Planet {
    p.(owner := pid, buildings := p.buildings[COMMAND_CENTER := 1], stock := [4000, 400, 0])
  }

  /** A first main planet starts a new tree. */
  lemma MainPlanetRanked(planets: PlanetMap, main: MainMap, rank: Rank, c: Coord, pid: PlayerId)
    requires Ranked(planets, main, rank)
    requires c in planets && planets[c].owner == NO_PLAYER && planets[c].parent == c
    requires pid != NO_PLAYER && pid !in main
    ensures Ranked(planets[c := MainPlanet(planets[c], pid)], main[pid := c], rank)
  {
    var planets' := planets[c := MainPlanet(planets[c], pid)];
    forall d | Owned(planets', d)
      ensures Linked(planets', main[pid := c], rank, d)
    {
      if d != c {
        assert Owned(planets, d) && Linked(planets, main, rank, d);
      }
    }
  }

  /** More main planets, of players without planets, change nothing. */
  lemma MoreMainsRanked(planets: PlanetMap, main: MainMap, main': MainMap, rank: Rank)
    requires Ranked(planets, main, rank)
    requires forall p :: p in main ==> p in main' && main'[p] == main[p]
    ensures Ranked(planets, main', rank)
  {
    forall c | Owned(planets, c)
      ensures Linked(planets, main', rank, c)
    {
      assert Linked(planets, main, rank, c);
    }
  }

  // ------------------------------------------------------------- losses

  function Abandoned(p: Planet, c: Coord): Planet {
    p.(owner := NO_PLAYER, buildings := NO_BUILDINGS, task := None, parent := c, hangar := NO_SHIPS)
  }

  predicate IsMain(planets: PlanetMap, main: MainMap, c: Coord)
    requires c in planets
  {
    planets[c].owner in main && main[planets[c].owner] == c
  }

  /** The planets and `newParentMap` after `onPlanetLose` on the first `i` lost
      coordinates. */
  function LoseUpTo(planets: PlanetMap, main: MainMap, lost: seq<Coord>, i: nat): (PlanetMap, map<Coord, Coord>)
    requires i <= |lost|
  {
    if i == 0 then (planets, map[])
    else
      var (ps, np) := LoseUpTo(planets, main, lost, i - 1);
      var c := lost[i - 1];
      if c !in ps || IsMain(ps, main, c) then (ps, np)
      else (ps[c := Abandoned(ps[c], c)], np[c := ps[c].parent])
  }

  /** The coordinates really lost: those that are nobody's main planet. */
  ghost predicate Gone(planets: PlanetMap, main: MainMap, lost: seq<Coord>, c: Coord) {
    c in lost && c in planets && !IsMain(planets, main, c)
  }

  ghost predicate DistinctOwned(planets: PlanetMap, lost: seq<Coord>) {
    && (forall i :: 0 <= i < |lost| ==> Owned(planets, lost[i]))
    && (forall i, j :: 0 <= i < j < |lost| ==> lost[i] != lost[j])
  }

  /** `np` is exactly the old parent relation on the planets gone. */
  ghost predicate IsLostParents(planets: PlanetMap, main: MainMap, lost: seq<Coord>, np: map<Coord, Coord>) {
    && (forall c :: c in np <==> Gone(planets, main, lost, c))
    && (forall c :: c in np && c in planets ==> np[c] == planets[c].parent)
  }

  /** The planets gone are bare, every other planet is untouched. */
  ghost predicate IsStripped(planets: PlanetMap, np: map<Coord, Coord>, ps: PlanetMap) {
    && ps.Keys == planets.Keys
    && forall c :: c in planets ==> ps[c] == if c in np then Abandoned(planets[c], c) else planets[c]
  }

  lemma LossStep(planets: PlanetMap, main: MainMap, prefix: seq<Coord>, c: Coord, ps: PlanetMap, np: map<Coord, Coord>)
    requires IsLostParents(planets, main, prefix, np) && IsStripped(planets, np, ps)
    requires c in planets && c !in prefix && !IsMain(planets, main, c)
    ensures IsLostParents(planets, main, prefix + [c], np[c := ps[c].parent])
    ensures IsStripped(planets, np[c := ps[c].parent], ps[c := Abandoned(ps[c], c)])
  {
    assert forall d :: d in prefix + [c] <==> d in prefix || d == c;
    assert c !in np && ps[c] == planets[c];
  }

  lemma LossSkip(planets: PlanetMap, main: MainMap, prefix: seq<Coord>, c: Coord, np: map<Coord, Coord>)
    requires IsLostParents(planets, main, prefix, np)
    requires c in planets && IsMain(planets, main, c)
    ensures IsLostParents(planets, main, prefix + [c], np)
  {
    assert forall d :: d in prefix + [c] <==> d in prefix || d == c;
    assert forall d :: Gone(planets, main, prefix + [c], d) <==> Gone(planets, main, prefix, d);
  }

  /** `newParentMap` is exactly the old parent relation on the lost planets that
      are no main planet; those are bare, every other planet is untouched. */
  lemma {:induction false} LossesClosedForm(planets: PlanetMap, main: MainMap, lost: seq<Coord>, i: nat)
    requires i <= |lost| && DistinctOwned(planets, lost)
    ensures var (ps, np) := LoseUpTo(planets, main, lost, i);
      IsLostParents(planets, main, lost[..i], np) && IsStripped(planets, np, ps)
  {
    if i > 0 {
      LossesClosedForm(planets, main, lost, i - 1);
      var c := lost[i - 1];
      var (ps, np) := LoseUpTo(planets, main, lost, i - 1);
      assert lost[..i] == lost[..i - 1] + [c];
      assert Owned(planets, c) && c !in lost[..i - 1];
      assert ps[c] == planets[c];
      if IsMain(planets, main, c) {
        LossSkip(planets, main, lost[..i - 1], c, np);
      } else {
        LossStep(planets, main, lost[..i - 1], c, ps, np);
      }
    }
  }

  /** The closed form of the complete list of losses. */
  lemma AllLosses(planets: PlanetMap, main: MainMap, lost: seq<Coord>)
    requires DistinctOwned(planets, lost)
    ensures var (ps, np) := LoseUpTo(planets, main, lost, |lost|);
      IsLostParents(planets, main, lost, np) && IsStripped(planets, np, ps)
  {
    LossesClosedForm(planets, main, lost, |lost|);
    assert lost[..|lost|] == lost;
  }

  // ------------------------------------------------------ reassignment

  /** Following `np` from `c` for exactly `n` steps ends at `r`, outside `np`. */
  ghost predicate Chased(np: map<Coord, Coord>, c: Coord, n: nat, r: Coord)
    decreases n
  {
    if n == 0 then c == r && c !in np
    else c in np && Chased(np, np[c], n - 1, r)
  }

  ghost predicate Resolves(np: map<Coord, Coord>, c: Coord, r: Coord) {
    exists n: nat :: Chased(np, c, n, r)
  }

  lemma {:induction false} ChaseIsUnique(np: map<Coord, Coord>, c: Coord, n: nat, r: Coord, n': nat, r': Coord)
    requires Chased(np, c, n, r) && Chased(np, c, n', r')
    ensures r == r' && n == n'
    decreases n
  {
    if n > 0 && n' > 0 {
      ChaseIsUnique(np, np[c], n - 1, r, n' - 1, r');
    }
  }

  ghost function Resolve(np: map<Coord, Coord>, c: Coord): Coord {
    if exists r :: Resolves(np, c, r) then
      var r :| Resolves(np, c, r);
      r
    else c
  }

  lemma ResolveIs(np: map<Coord, Coord>, c: Coord, r: Coord)
    requires Resolves(np, c, r)
    ensures Resolve(np, c) == r
  {
    var n :| Chased(np, c, n, r);
    var r' := Resolve(np, c);
    var n' :| Chased(np, c, n', r');
    ChaseIsUnique(np, c, n, r, n', r');
  }

  lemma {:induction false} LoopNeverEnds(np: map<Coord, Coord>, c: Coord, n: nat, r: Coord)
    requires c in np && np[c] == c
    ensures !Chased(np, c, n, r)
  {
    if n > 0 {
      LoopNeverEnds(np, c, n - 1, r);
    }
  }

  /** Why a player must get one main planet only: were a second one created at
      `c`, the first would be its own parent without being recorded as a main
      planet, and the pointer chase from it would end exactly as long as it is
      not lost. */
  lemma SecondMainTrapsIff(planets: PlanetMap, main: MainMap, rank: Rank, pid: PlayerId, c: Coord, lost: seq<Coord>)
    requires Ranked(planets, main, rank) && pid in main && Owned(planets, main[pid])
    requires planets[main[pid]].owner == pid && c in planets && c != main[pid]
    requires DistinctOwned(planets[c := MainPlanet(planets[c], pid)], lost)
    ensures var np := LoseUpTo(planets[c := MainPlanet(planets[c], pid)], main[pid := c], lost, |lost|).1;
      (exists r :: Resolves(np, main[pid], r)) <==> main[pid] !in lost
  {
    hide LoseUpTo;
    var planets' := planets[c := MainPlanet(planets[c], pid)];
    var m := main[pid];
    AllLosses(planets', main[pid := c], lost);
    var np := LoseUpTo(planets', main[pid := c], lost, |lost|).1;
    assert Linked(planets, main, rank, m);
    if m in lost {
      assert Gone(planets', main[pid := c], lost, m);
      forall n: nat, r
        ensures !Chased(np, m, n, r)
      {
        LoopNeverEnds(np, m, n, r);
      }
    } else {
      assert Chased(np, m, 0, m);
      assert Resolves(np, m, m);
    }
  }

  /** `np` only leads downwards in rank: the pointer chase must stop. */
  ghost predicate Descends(np: map<Coord, Coord>, rank: Rank) {
    forall c :: c in np ==> c in rank && np[c] in rank && rank[np[c]] < rank[c]
  }

  /** The `while(true)` loop of the reassignment: it stops, at the coordinate
      the chain of lost parents resolves to. */
  method Reassign(np: map<Coord, Coord>, start: Coord, ghost rank: Rank) returns (r: Coord)
    requires Descends(np, rank)
    ensures Resolves(np, start, r)
    ensures r == Resolve(np, start)
  {
    r := start;
    ghost var steps: nat := 0;
    while true
      invariant forall n: nat, e :: Chased(np, r, n, e) ==> Chased(np, start, n + steps, e)
      decreases if r in rank then rank[r] + 1 else 0
    {
      if r in np {
        ghost var r0 := r;
        r := np[r];
        steps := steps + 1;
        forall n: nat, e | Chased(np, r, n, e)
          ensures Chased(np, start, n + steps, e)
        {
          assert Chased(np, r0, n + 1, e);
        }
      } else {
        break;
      }
    }
    assert Chased(np, r, 0, r);
    assert Chased(np, start, steps, r);
    ResolveIs(np, start, r);
  }

  /** `r` is the nearest ancestor of `c`, itself included, that is not gone. */
  ghost predicate NearestSurvivor(planets: PlanetMap, main: MainMap, lost: seq<Coord>, c: Coord, r: Coord) {
    exists n: nat ::
      && Ancestor(planets, c, n) == r
      && !Gone(planets, main, lost, r)
      && forall k :: 0 <= k < n ==> Gone(planets, main, lost, Ancestor(planets, c, k))
  }

  lemma {:induction false} ChaseFollowsAncestors(planets: PlanetMap, main: MainMap, lost: seq<Coord>,
                                                 np: map<Coord, Coord>, c: Coord, n: nat, r: Coord)
    requires IsLostParents(planets, main, lost, np)
    requires Chased(np, c, n, r)
    ensures Ancestor(planets, c, n) == r && !Gone(planets, main, lost, r)
    ensures forall k :: 0 <= k < n ==> Gone(planets, main, lost, Ancestor(planets, c, k))
    decreases n
  {
    if n > 0 {
      ChaseFollowsAncestors(planets, main, lost, np, np[c], n - 1, r);
      AncestorFromParent(planets, c, n - 1);
      forall k | 0 <= k < n
        ensures Gone(planets, main, lost, Ancestor(planets, c, k))
      {
        if k > 0 {
          AncestorFromParent(planets, c, k - 1);
        }
      }
    }
  }

  /** From a planet of a ranked forest the chase ends at a surviving planet of
      the same owner, no younger than where it started. */
  lemma {:induction false} ChaseEnds(planets: PlanetMap, main: MainMap, rank: Rank, lost: seq<Coord>,
                                     np: map<Coord, Coord>, c: Coord) returns (n: nat, r: Coord)
    requires Ranked(planets, main, rank) && Owned(planets, c)
    requires IsLostParents(planets, main, lost, np)
    ensures Chased(np, c, n, r)
    ensures Owned(planets, r) && planets[r].owner == planets[c].owner && r !in np
    ensures rank[r] <= rank[c]
    decreases rank[c]
  {
    assert Linked(planets, main, rank, c);
    if c in np {
      n, r := ChaseEnds(planets, main, rank, lost, np, planets[c].parent);
      n := n + 1;
    } else {
      n, r := 0, c;
    }
  }

  // --------------------------------------------- the whole loss phase

  /** The planets once the losses and the reassignment of parents are done. */
  ghost function PlanetsAfterLosses(planets: PlanetMap, main: MainMap, lost: seq<Coord>): PlanetMap {
    var (ps, np) := LoseUpTo(planets, main, lost, |lost|);
    map c | c in ps :: if ps[c].owner == NO_PLAYER then ps[c] else ps[c].(parent := Resolve(np, ps[c].parent))
  }

  ghost function FleetsAfterLosses(planets: PlanetMap, fleets: FleetMap, main: MainMap, lost: seq<Coord>): FleetMap {
    var np := LoseUpTo(planets, main, lost, |lost|).1;
    map id | id in fleets :: fleets[id].(origin := Resolve(np, fleets[id].origin))
  }

  /** The new parent map of a ranked forest only leads to older planets. */
  lemma LossesDescend(planets: PlanetMap, main: MainMap, rank: Rank, lost: seq<Coord>)
    requires Ranked(planets, main, rank) && DistinctOwned(planets, lost)
    ensures Descends(LoseUpTo(planets, main, lost, |lost|).1, rank)
  {
    AllLosses(planets, main, lost);
    var np := LoseUpTo(planets, main, lost, |lost|).1;
    forall c | c in np
      ensures c in rank && np[c] in rank && rank[np[c]] < rank[c]
    {
      assert Owned(planets, c) && Linked(planets, main, rank, c);
    }
  }

  /** After the losses each surviving planet hangs below its nearest surviving
      ancestor, and the forest is ranked as before. */
  lemma LossesKeepForest(planets: PlanetMap, main: MainMap, rank: Rank, lost: seq<Coord>)
    requires Ranked(planets, main, rank) && DistinctOwned(planets, lost)
    ensures var planets' := PlanetsAfterLosses(planets, main, lost);
      && planets'.Keys == planets.Keys
      && Ranked(planets', main, rank)
      && forall c :: c in planets ==>
           if Gone(planets, main, lost, c) then planets'[c] == Abandoned(planets[c], c)
           else
             && planets'[c].(parent := planets[c].parent) == planets[c]
             && (!Owned(planets, c) ==> planets'[c] == planets[c])
             && (Owned(planets, c) ==> NearestSurvivor(planets, main, lost, planets[c].parent, planets'[c].parent))
  {
    var planets' := PlanetsAfterLosses(planets, main, lost);
    var (ps, np) := LoseUpTo(planets, main, lost, |lost|);
    AllLosses(planets, main, lost);
    forall c | Owned(planets, c) && c !in np
      ensures Linked(planets', main, rank, c)
      ensures NearestSurvivor(planets, main, lost, planets[c].parent, planets'[c].parent)
    {
      assert Linked(planets, main, rank, c);
      var n, r := ChaseEnds(planets, main, rank, lost, np, planets[c].parent);
      assert Resolves(np, planets[c].parent, r);
      ResolveIs(np, planets[c].parent, r);
      ChaseFollowsAncestors(planets, main, lost, np, planets[c].parent, n, r);
      if IsMain(planets, main, c) {
        assert Chased(np, c, 0, c);
        assert Resolves(np, c, c);
        ResolveIs(np, c, c);
      }
    }
    forall c | Owned(planets', c)
      ensures Linked(planets', main, rank, c)
    {
      assert Owned(planets, c) && c !in np;
    }
  }

  /** After the losses the origin of each fleet is the nearest surviving ancestor
      of its old origin, still owned by the player of the fleet. */
  lemma LossesKeepOrigin(planets: PlanetMap, main: MainMap, rank: Rank, lost: seq<Coord>, fleets: FleetMap, id: FleetId)
    requires Ranked(planets, main, rank) && DistinctOwned(planets, lost)
    requires id in fleets && OriginOk(planets, fleets[id])
    ensures var f := FleetsAfterLosses(planets, fleets, main, lost)[id];
      && f.(origin := fleets[id].origin) == fleets[id]
      && NearestSurvivor(planets, main, lost, fleets[id].origin, f.origin)
      && OriginOk(PlanetsAfterLosses(planets, main, lost), f)
  {
    var (ps, np) := LoseUpTo(planets, main, lost, |lost|);
    AllLosses(planets, main, lost);
    var o := fleets[id].origin;
    var n, r := ChaseEnds(planets, main, rank, lost, np, o);
    assert Resolves(np, o, r);
    ResolveIs(np, o, r);
    ChaseFollowsAncestors(planets, main, lost, np, o, n, r);
  }
}
