/** One volley of `fighting.cpp`: who may shoot whom, what a shot does, and the
    closed form of a whole volley. */
module Combat {
  import opened Basics
  import opened Model

  /** A ship type, or a cannon type shifted by the number of ship types. */
  type UnitType = t: nat | t < SHIPS + CANNONS

  const PLANET_ARMY := -1

  datatype Unit = Unit(typ: UnitType, life: uint16, shield: uint16, army: int, owner: PlayerId)

  function StatsOf(typ: UnitType): UnitStats {
    if typ < SHIPS then SHIP_LIST[typ] else CANNON_LIST[typ - SHIPS]
  }

  // --------------------------------------------------------- hostility

  type FightingSet = map<PlayerId, set<PlayerId>>

  predicate Hostile(h: FightingSet, p: PlayerId, q: PlayerId) {
    p in h && q in h[p]
  }

  ghost predicate Symmetric(h: FightingSet) {
    forall p, q :: Hostile(h, p, q) ==> Hostile(h, q, p)
  }

  function AddHostile(h: FightingSet, p: PlayerId, q: PlayerId): FightingSet {
    h[p := (if p in h then h[p] else {}) + {q}]
  }

  /** The `do_fight` answers of a round: who wants to attack whom. */
  type FightingMap = map<(PlayerId, PlayerId), bool>

  predicate Wants(answers: FightingMap, p: PlayerId, q: PlayerId) {
    (p, q) in answers && answers[(p, q)]
  }

  /** Two players fight as soon as one of them wants to. */
  method CloseHostility(answers: FightingMap) returns (h: FightingSet)
    ensures forall p: PlayerId, q: PlayerId :: Hostile(h, p, q) <==>
      ((p, q) in answers && answers[(p, q)]) || ((q, p) in answers && answers[(q, p)])
    ensures Symmetric(h)
    ensures forall p :: p in h ==> h[p] != {}
  {
    h := map[];
    var todo := answers.Keys;
    while todo != {}
      invariant todo <= answers.Keys
      invariant forall p :: p in h ==> h[p] != {}
      invariant forall p: PlayerId, q: PlayerId :: Hostile(h, p, q) <==>
        (Wants(answers, p, q) && (p, q) !in todo) || (Wants(answers, q, p) && (q, p) !in todo)
      decreases todo
    {
      var pair :| pair in todo;
      todo := todo - {pair};
      if answers[pair] {
        h := AddHostile(AddHostile(h, pair.0, pair.1), pair.1, pair.0);
      }
    }
  }

  // -------------------------------------------------------- fightAgain

  /** Two units of different, hostile players. */
  ghost predicate HostilePair(units: seq<Unit>, h: FightingSet, i: int, j: int) {
    && 0 <= i < |units| && 0 <= j < |units|
    && units[i].owner != units[j].owner
    && Hostile(h, units[i].owner, units[j].owner)
  }

  ghost predicate MustFight(units: seq<Unit>, h: FightingSet) {
    exists i, j :: HostilePair(units, h, i, j)
  }

  /** `fightAgain` looks only at pairs in order of first appearance; because
      hostility is symmetric this misses no pair. */
  method FightAgain(units: seq<Unit>, h: FightingSet) returns (again: bool)
    requires Symmetric(h)
    ensures again <==> MustFight(units, h)
  {
    var players: seq<PlayerId> := [];
    for i := 0 to |units|
      invariant forall k :: 0 <= k < i ==> units[k].owner in players
      invariant forall p :: p in players ==> exists k :: 0 <= k < i && units[k].owner == p
      invariant forall a, b :: 0 <= a < b < |players| ==> players[a] != players[b]
    {
      if units[i].owner !in players {
        players := players + [units[i].owner];
      }
      assert units[i].owner in players;
    }
    for a := 0 to |players|
      invariant forall x, y :: 0 <= x < a && x < y < |players| ==> !Hostile(h, players[x], players[y])
    {
      for b := a + 1 to |players|
        invariant forall y :: a < y < b ==> !Hostile(h, players[a], players[y])
      {
        if Hostile(h, players[a], players[b]) {
          assert players[a] in players && players[b] in players;
          var i :| 0 <= i < |units| && units[i].owner == players[a];
          var j :| 0 <= j < |units| && units[j].owner == players[b];
          assert HostilePair(units, h, i, j);
          return true;
        }
      }
    }
    forall i, j | 0 <= i < |units| && 0 <= j < |units|
      ensures !HostilePair(units, h, i, j)
    {
      var x :| 0 <= x < |players| && players[x] == units[i].owner;
      var y :| 0 <= y < |players| && players[y] == units[j].owner;
      if x > y {
        assert !Hostile(h, players[y], players[x]);
      }
    }
    return false;
  }

  // -------------------------------------------------------------- hits

  /** One shot: the shield absorbs first, the rest wounds. */
  function Hit(u: Unit, power: uint16): (r: Unit)
    ensures r.typ == u.typ && r.army == u.army && r.owner == u.owner
  {
    if power < u.shield then u.(shield := u.shield - power)
    else
      var rest: uint16 := power - u.shield;
      u.(shield := 0, life := if rest < u.life then u.life - rest else 0)
  }

  /** A unit after damage `d` in all: shield first, then life, never below zero. */
  function Wounded(u: Unit, d: nat): Unit {
    u.(shield := Max(0, u.shield - d), life := Max(0, u.life - Max(0, d - u.shield)))
  }

  function HitAll(u: Unit, powers: seq<uint16>): Unit {
    if powers == [] then u else Hit(HitAll(u, powers[..|powers| - 1]), powers[|powers| - 1])
  }

  lemma HitAfterWounds(u: Unit, d: nat, power: uint16)
    ensures Hit(Wounded(u, d), power) == Wounded(u, d + power as int)
  {
  }

  /** Any sequence of shots does the damage of its total. */
  lemma {:induction false} HitsAddUp(u: Unit, powers: seq<uint16>)
    ensures Sum(powers) >= 0
    ensures HitAll(u, powers) == Wounded(u, Sum(powers))
  {
    SumNonNegative(powers);
    if powers != [] {
      var front := powers[..|powers| - 1];
      HitsAddUp(u, front);
      HitAfterWounds(u, Sum(front), powers[|powers| - 1]);
    }
  }

  /** The order of the shots on a unit does not matter. */
  lemma HitOrderIrrelevant(u: Unit, powers: seq<uint16>, powers': seq<uint16>)
    requires multiset(powers) == multiset(powers')
    ensures HitAll(u, powers) == HitAll(u, powers')
  {
    HitsAddUp(u, powers);
    HitsAddUp(u, powers');
    SumPermutation(powers, powers');
  }

  lemma WithoutOne(s: seq<uint16>, k: nat)
    requires k < |s|
    ensures multiset(s[..k] + s[k + 1..]) == multiset(s) - multiset{s[k]}
  {
    assert s == s[..k] + [s[k]] + s[k + 1..];
  }

  lemma {:induction false} SumPermutation(a: seq<uint16>, b: seq<uint16>)
    requires multiset(a) == multiset(b)
    ensures Sum(a) == Sum(b)
    decreases |a|
  {
    if a == [] {
      assert |multiset(b)| == 0;
    } else {
      var last := |a| - 1;
      var x := a[last];
      assert a[last] in multiset(b);
      var k :| 0 <= k < |b| && b[k] == x;
      WithoutOne(a, last);
      WithoutOne(b, k);
      assert a[..last] + a[last + 1..] == a[..last];
      SumPermutation(a[..last], b[..k] + b[k + 1..]);
      SumRemove(b, k);
    }
  }

  // ------------------------------------------------------------ volleys

  /** The random draw of the shooter with a given index among `n` targets. */
  type Draw = (nat, nat) -> nat

  /** The indices of the units that count `p` among their enemies, in order. */
  function EnemiesOf(units: seq<Unit>, h: FightingSet, p: PlayerId): seq<nat> {
    if units == [] then []
    else
      var last := |units| - 1;
      var front := EnemiesOf(units[..last], h, p);
      if Hostile(h, units[last].owner, p) then front + [last] else front
  }

  lemma {:induction false} EnemiesOfAre(units: seq<Unit>, h: FightingSet, p: PlayerId)
    ensures forall i :: i in EnemiesOf(units, h, p) <==> 0 <= i < |units| && Hostile(h, units[i].owner, p)
  {
    if units != [] {
      EnemiesOfAre(units[..|units| - 1], h, p);
    }
  }

  /** Every unit, were it to shoot, would find a target. */
  ghost predicate AllHaveTargets(units: seq<Unit>, h: FightingSet) {
    forall i :: 0 <= i < |units| ==> EnemiesOf(units, h, units[i].owner) != []
  }

  function Pick(draw: Draw, shooter: nat, targets: seq<nat>): (t: nat)
    requires targets != []
    ensures t in targets
  {
    targets[draw(shooter, |targets|) % |targets|]
  }

  function TargetOf(units: seq<Unit>, h: FightingSet, draw: Draw, i: nat): (t: nat)
    requires i < |units| && EnemiesOf(units, h, units[i].owner) != []
    ensures t < |units| && Hostile(h, units[t].owner, units[i].owner)
  {
    EnemiesOfAre(units, h, units[i].owner);
    Pick(draw, i, EnemiesOf(units, h, units[i].owner))
  }

  /** Where `x` first occurs, if it does. */
  function Position(s: seq<nat>, x: nat): (i: nat)
    ensures x in s ==> i < |s| && s[i] == x
  {
    if s == [] || s[0] == x then 0 else 1 + Position(s[1..], x)
  }

  lemma DrawnTarget(units: seq<Unit>, h: FightingSet, draw: Draw, i: nat, target: nat)
    requires i < |units| && target < |units| && Hostile(h, units[target].owner, units[i].owner)
    requires draw(i, |EnemiesOf(units, h, units[i].owner)|) == Position(EnemiesOf(units, h, units[i].owner), target)
    ensures EnemiesOf(units, h, units[i].owner) != [] && TargetOf(units, h, draw, i) == target
  {
    hide EnemiesOf, Hostile, Position;
    var targets := EnemiesOf(units, h, units[i].owner);
    EnemiesOfAre(units, h, units[i].owner);
    SmallRemainder(Position(targets, target), |targets|);
  }

  lemma SmallRemainder(x: nat, n: nat)
    requires x < n
    ensures x % n == x
  {
  }

  /** Whatever enemy one chooses for each shooter, some draw has them all hit. */
  lemma EveryTargetPossible(units: seq<Unit>, h: FightingSet, targets: seq<nat>) returns (draw: Draw)
    requires |targets| == |units|
    requires forall i :: 0 <= i < |units| ==>
      targets[i] < |units| && Hostile(h, units[targets[i]].owner, units[i].owner)
    ensures AllHaveTargets(units, h)
    ensures forall i :: 0 <= i < |units| ==> TargetOf(units, h, draw, i) == targets[i]
  {
    hide EnemiesOf, Hostile, Position, TargetOf;
    draw := (i: nat, n: nat) =>
      if i < |units| && i < |targets| then Position(EnemiesOf(units, h, units[i].owner), targets[i]) else 0;
    forall i | 0 <= i < |units|
      ensures EnemiesOf(units, h, units[i].owner) != [] && TargetOf(units, h, draw, i) == targets[i]
    {
      DrawnTarget(units, h, draw, i, targets[i]);
    }
  }

  function PowerOf(u: Unit): uint16 {
    StatsOf(u.typ).power
  }

  /** What the first `n` shooters fire at unit `j`. */
  ghost function DamageTo(units: seq<Unit>, h: FightingSet, draw: Draw, n: nat, j: nat): nat
    requires n <= |units| && AllHaveTargets(units, h)
  {
    if n == 0 then 0
    else
      DamageTo(units, h, draw, n - 1, j) +
      if TargetOf(units, h, draw, n - 1) == j then PowerOf(units[n - 1]) else 0
  }

  ghost function Damages(units: seq<Unit>, h: FightingSet, draw: Draw, n: nat): seq<int>
    requires n <= |units| && AllHaveTargets(units, h)
  {
    seq(|units|, j requires 0 <= j < |units| => DamageTo(units, h, draw, n, j))
  }

  lemma DamageStep(units: seq<Unit>, h: FightingSet, draw: Draw, n: nat)
    requires n < |units| && AllHaveTargets(units, h)
    ensures var d, t := Damages(units, h, draw, n), TargetOf(units, h, draw, n);
      Damages(units, h, draw, n + 1) == d[t := d[t] + PowerOf(units[n])]
  {
  }

  /** The units after the first `n` of them, in any order, have fired once:
      each is wounded by the total fired at it. */
  ghost function AfterShots(units: seq<Unit>, h: FightingSet, draw: Draw, n: nat): (r: seq<Unit>)
    requires n <= |units| && AllHaveTargets(units, h)
  {
    seq(|units|, j requires 0 <= j < |units| => Wounded(units[j], DamageTo(units, h, draw, n, j)))
  }

  ghost function AfterVolley(units: seq<Unit>, h: FightingSet, draw: Draw): seq<Unit>
    requires AllHaveTargets(units, h)
  {
    AfterShots(units, h, draw, |units|)
  }

  lemma NoShotsYet(units: seq<Unit>, h: FightingSet, draw: Draw)
    ensures AllHaveTargets(units, h) ==> AfterShots(units, h, draw, 0) == units
  {
  }

  lemma ShotStep(units: seq<Unit>, h: FightingSet, draw: Draw, n: nat)
    requires n < |units| && AllHaveTargets(units, h)
    ensures var s, t := AfterShots(units, h, draw, n), TargetOf(units, h, draw, n);
      AfterShots(units, h, draw, n + 1) == s[t := Hit(s[t], PowerOf(units[n]))]
  {
    var t := TargetOf(units, h, draw, n);
    HitAfterWounds(units[t], DamageTo(units, h, draw, n, t), PowerOf(units[n]));
  }

  function Lookup(m: map<PlayerId, seq<nat>>, p: PlayerId): seq<nat> {
    if p in m then m[p] else []
  }

  /** Unit `i` goes on the list of each of its enemies. */
  method PushToAll(enemies0: map<PlayerId, seq<nat>>, foes: set<PlayerId>, i: nat)
    returns (enemies: map<PlayerId, seq<nat>>)
    ensures forall p ::
      Lookup(enemies, p) == (if p in foes then Lookup(enemies0, p) + [i] else Lookup(enemies0, p))
  {
    enemies := enemies0;
    var todo := foes;
    while todo != {}
      invariant todo <= foes
      invariant forall p ::
        Lookup(enemies, p) == (if p in foes && p !in todo then Lookup(enemies0, p) + [i] else Lookup(enemies0, p))
      decreases todo
    {
      var p :| p in todo;
      todo := todo - {p};
      enemies := enemies[p := Lookup(enemies, p) + [i]];
    }
  }

  /** The enemy lists of all players, built unit by unit. */
  method BuildEnemies(units: seq<Unit>, h: FightingSet) returns (enemies: map<PlayerId, seq<nat>>)
    ensures forall p :: Lookup(enemies, p) == EnemiesOf(units, h, p)
  {
    enemies := map[];
    for i := 0 to |units|
      invariant forall p :: Lookup(enemies, p) == EnemiesOf(units[..i], h, p)
    {
      assert units[..i + 1][..i] == units[..i];
      enemies := PushToAll(enemies, if units[i].owner in h then h[units[i].owner] else {}, i);
    }
    assert units[..|units|] == units;
  }

  /** `fire`: every unit, dead or alive by now, shoots once; the targets are
      wounded in place.  The draw among no target throws. */
  method Fire(units: array<Unit>, enemies: map<PlayerId, seq<nat>>, ghost h: FightingSet, draw: Draw)
    returns (thrown: bool)
    requires forall p :: Lookup(enemies, p) == EnemiesOf(units[..], h, p)
    modifies units
    ensures thrown <==> !AllHaveTargets(old(units[..]), h)
    ensures !thrown ==> units[..] == AfterVolley(old(units[..]), h, draw)
  {
    hide AfterShots, Hit, EnemiesOf;
    ghost var start := units[..];
    assert AllHaveTargets(start, h) ==> start == AfterShots(start, h, draw, 0) by {
      NoShotsYet(start, h, draw);
    }
    for i := 0 to units.Length
      invariant forall k :: 0 <= k < i ==> EnemiesOf(start, h, start[k].owner) != []
      invariant forall j :: 0 <= j < units.Length ==>
        units[j].typ == start[j].typ && units[j].owner == start[j].owner
      invariant AllHaveTargets(start, h) ==> units[..] == AfterShots(start, h, draw, i)
    {
      var foes := Lookup(enemies, units[i].owner);
      assert foes == EnemiesOf(start, h, start[i].owner);
      if |foes| == 0 {
        return true;
      }
      EnemiesOfAre(start, h, start[i].owner);
      var target := Pick(draw, i, foes);
      if AllHaveTargets(start, h) {
        ShotStep(start, h, draw, i);
      }
      units[target] := Hit(units[target], PowerOf(units[i]));
    }
    return false;
  }

  // --------------------------------------------------- volley accounts

  ghost function Strength(units: seq<Unit>): seq<int> {
    seq(|units|, i requires 0 <= i < |units| => units[i].life + units[i].shield)
  }

  ghost function Powers(units: seq<Unit>): seq<int> {
    seq(|units|, i requires 0 <= i < |units| => PowerOf(units[i]))
  }

  lemma OneMoreShot(units: seq<Unit>, h: FightingSet, draw: Draw, n: nat)
    requires n < |units| && AllHaveTargets(units, h)
    ensures Sum(Damages(units, h, draw, n + 1)) == Sum(Damages(units, h, draw, n)) + Powers(units)[n]
  {
    DamageStep(units, h, draw, n);
    var t, d := TargetOf(units, h, draw, n), Damages(units, h, draw, n);
    SumUpdate(d, t, d[t] + PowerOf(units[n]));
  }

  /** Every unit fires exactly once: the damages add up to the powers fired. */
  lemma {:induction false} EveryShotCountsOnce(units: seq<Unit>, h: FightingSet, draw: Draw, n: nat)
    requires n <= |units| && AllHaveTargets(units, h)
    ensures Sum(Damages(units, h, draw, n)) == Sum(Powers(units)[..n])
  {
    if n == 0 {
      SumZero(Damages(units, h, draw, 0));
    } else {
      EveryShotCountsOnce(units, h, draw, n - 1);
      OneMoreShot(units, h, draw, n - 1);
      SumPrefix(Powers(units), n);
    }
  }

  /** A volley only wounds, and destroys at most as much as it fires. */
  lemma VolleyBounded(units: seq<Unit>, h: FightingSet, draw: Draw)
    requires AllHaveTargets(units, h)
    ensures Sum(Strength(units)) - Sum(Powers(units)) <= Sum(Strength(AfterVolley(units, h, draw))) <= Sum(Strength(units))
  {
    var after := AfterVolley(units, h, draw);
    var d := Damages(units, h, draw, |units|);
    EveryShotCountsOnce(units, h, draw, |units|);
    assert Powers(units)[..|units|] == Powers(units);
    SumMonotone(Strength(after), Strength(units));
    var floor := seq(|units|, i requires 0 <= i < |units| => Strength(after)[i] + d[i]);
    SumPointwise(Strength(after), d, floor);
    SumMonotone(Strength(units), floor);
  }

  ghost predicate HasEnemy(units: seq<Unit>, h: FightingSet, p: PlayerId) {
    exists j :: 0 <= j < |units| && Hostile(h, units[j].owner, p)
  }

  /** Nobody shoots into the void exactly when every player with a unit left has
      an enemy with a unit left. */
  lemma TargetsForAll(units: seq<Unit>, h: FightingSet)
    ensures AllHaveTargets(units, h) <==> forall i :: 0 <= i < |units| ==> HasEnemy(units, h, units[i].owner)
  {
    forall i | 0 <= i < |units|
      ensures EnemiesOf(units, h, units[i].owner) != [] <==> HasEnemy(units, h, units[i].owner)
    {
      EnemiesOfAre(units, h, units[i].owner);
      var foes := EnemiesOf(units, h, units[i].owner);
      if foes != [] {
        assert foes[0] in foes;
      }
    }
  }

  ghost predicate PairwiseHostile(units: seq<Unit>, h: FightingSet) {
    forall i, j :: 0 <= i < |units| && 0 <= j < |units| && units[i].owner != units[j].owner ==>
      Hostile(h, units[i].owner, units[j].owner)
  }

  /** Among pairwise hostile players, as long as the fight goes on everyone has
      a target. */
  lemma PairwiseHostileHaveTargets(units: seq<Unit>, h: FightingSet)
    requires PairwiseHostile(units, h) && MustFight(units, h)
    ensures AllHaveTargets(units, h)
  {
    var a, b :| HostilePair(units, h, a, b);
    forall i | 0 <= i < |units|
      ensures HasEnemy(units, h, units[i].owner)
    {
      var j := if units[i].owner == units[a].owner then b else a;
      assert Hostile(h, units[j].owner, units[i].owner);
    }
    TargetsForAll(units, h);
  }
}
