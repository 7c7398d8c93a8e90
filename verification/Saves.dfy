/** The pruning of old saves (`removeOldSaves` in Simulation.cpp): windows that
    grow by a tenth as they go back in time, one save kept in each. */
module Saves {
  import opened Basics

  type Time = nat

  /** The length of the `k`th window; the growth factor 1.1 is exact here. */
  function Lap(k: nat): (l: nat)
    ensures l >= 33
  {
    if k == 0 then 33 else Lap(k - 1) * 11 / 10
  }

  /** How far back the first `k` windows reach. */
  function Back(k: nat): (b: nat)
    ensures b >= 33 * k
  {
    if k == 0 then 0 else Back(k - 1) + Lap(k - 1)
  }

  /** Window `k` counted back from the newest save, open at its new end. */
  predicate InWindow(newest: Time, k: nat, t: Time) {
    newest - Back(k + 1) <= t < newest - Back(k)
  }

  lemma {:induction false} BackGrows(j: nat, k: nat)
    requires j < k
    ensures Back(j + 1) <= Back(k)
    ensures Back(j) < Back(k)
    decreases k
  {
    if j + 1 < k {
      BackGrows(j, k - 1);
    }
  }

  /** The windows do not overlap. */
  lemma WindowsDisjoint(newest: Time, j: nat, k: nat, t: Time)
    requires InWindow(newest, j, t) && InWindow(newest, k, t)
    ensures j == k
  {
    if j < k {
      BackGrows(j, k);
    } else if k < j {
      BackGrows(k, j);
    }
  }

  /** Every older time is in some window. */
  lemma {:induction false} WindowOf(newest: Time, t: Time, from: nat) returns (k: nat)
    requires t < newest - Back(from)
    ensures k >= from && InWindow(newest, k, t)
    decreases newest - Back(from)
  {
    if newest - Back(from + 1) <= t {
      k := from;
    } else {
      k := WindowOf(newest, t, from + 1);
    }
  }

  /** `t` is the oldest save of its window. */
  ghost predicate OldestOfWindow(times: set<Time>, newest: Time, t: Time) {
    exists k: nat :: InWindow(newest, k, t) && IsOldestIn(times, newest, k, t)
  }

  ghost predicate IsOldestIn(times: set<Time>, newest: Time, k: nat, t: Time) {
    forall u :: u in times && InWindow(newest, k, u) ==> t <= u
  }

  /** The newest save and the oldest of each window. */
  ghost function Kept(times: set<Time>): set<Time>
    requires times != {}
  {
    set t | t in times && (t == MaxOf(times) || OldestOfWindow(times, MaxOf(times), t))
  }

  /** The saves left by one pruning; fewer than two saves are left alone. */
  ghost function Pruned(times: set<Time>): set<Time> {
    if |times| < 2 then times else Kept(times)
  }

  // --------------------------------------------------------- properties

  lemma OldestExists(times: set<Time>, newest: Time, k: nat, t: Time) returns (u: Time)
    requires t in times && InWindow(newest, k, t)
    ensures u in times && InWindow(newest, k, u) && IsOldestIn(times, newest, k, u) && u <= t
    decreases t
  {
    if IsOldestIn(times, newest, k, t) {
      u := t;
    } else {
      var v :| v in times && InWindow(newest, k, v) && v < t;
      u := OldestExists(times, newest, k, v);
    }
  }

  /** The newest save is kept, and every deleted save has an older one that is
      kept in the very same window. */
  lemma DeletedHasOlderKept(times: set<Time>, t: Time) returns (k: nat, u: Time)
    requires t in times && t !in Pruned(times)
    ensures MaxOf(times) in Pruned(times)
    ensures u in Pruned(times) && u < t
    ensures InWindow(MaxOf(times), k, t) && InWindow(MaxOf(times), k, u)
  {
    var newest := MaxOf(times);
    k := WindowOf(newest, t, 0);
    assert !IsOldestIn(times, newest, k, t);
    var v :| v in times && InWindow(newest, k, v) && v < t;
    u := OldestExists(times, newest, k, v);
    assert OldestOfWindow(times, newest, u);
  }

  lemma MaxUnique(s: set<Time>, m: Time)
    requires m in s && forall k :: k in s ==> k <= m
    ensures s != {} && MaxOf(s) == m
  {
  }

  /** Pruning the result again deletes nothing. */
  lemma PruneTwice(times: set<Time>)
    ensures Pruned(Pruned(times)) == Pruned(times)
  {
    var kept := Pruned(times);
    if |times| >= 2 && |kept| >= 2 {
      var newest := MaxOf(times);
      MaxUnique(kept, newest);
      forall t | t in kept && t != newest
        ensures OldestOfWindow(kept, newest, t)
      {
        var k: nat :| InWindow(newest, k, t) && IsOldestIn(times, newest, k, t);
        assert IsOldestIn(kept, newest, k, t);
      }
    }
  }

  /** The kept saves in the first `k` windows. */
  ghost function KeptWithin(kept: set<Time>, newest: Time, k: nat): set<Time> {
    set t | t in kept && newest - Back(k) <= t < newest
  }

  lemma AtMostOneMore(small: set<Time>, large: set<Time>)
    requires forall t, u :: t in large - small && u in large - small ==> t == u
    ensures |large| <= |small| + 1
  {
    if t :| t in large && t !in small {
      assert t in large - small;
      forall u | u in large
        ensures u in small + {t}
      {
        if u !in small {
          assert u in large - small;
        }
      }
      SubsetSize(large, small + {t});
    } else {
      SubsetSize(large, small);
    }
  }

  lemma SubsetSize(a: set<Time>, b: set<Time>)
    requires a <= b
    ensures |a| <= |b|
  {
    assert b == a + (b - a);
  }

  lemma OnlyOldest(times: set<Time>, newest: Time, k: nat, t: Time, u: Time)
    requires t in times && OldestOfWindow(times, newest, t) && InWindow(newest, k, t)
    requires u in times && OldestOfWindow(times, newest, u) && InWindow(newest, k, u)
    ensures t == u
  {
    var i: nat :| InWindow(newest, i, t) && IsOldestIn(times, newest, i, t);
    var j: nat :| InWindow(newest, j, u) && IsOldestIn(times, newest, j, u);
    WindowsDisjoint(newest, i, k, t);
    WindowsDisjoint(newest, j, k, u);
  }

  /** A window that held a save holds exactly one afterwards, its oldest. */
  lemma OneSurvivor(times: set<Time>, k: nat, t: Time) returns (u: Time)
    requires |times| >= 2 && t in times && MaxOf(times) - Back(k + 1) <= t < MaxOf(times) - Back(k)
    ensures u in Pruned(times) && MaxOf(times) - Back(k + 1) <= u <= t
    ensures forall v :: v in Pruned(times) && MaxOf(times) - Back(k + 1) <= v < MaxOf(times) - Back(k) ==> v == u
  {
    hide Lap, Back, OldestOfWindow;
    var newest := MaxOf(times);
    u := OldestExists(times, newest, k, t);
    OldestCounts(times, newest, k, u);
    forall v | v in Pruned(times) && InWindow(newest, k, v)
      ensures v == u
    {
      BeforeNewest(newest, k, v);
      OnlyOldest(times, newest, k, u, v);
    }
  }

  lemma OldestCounts(times: set<Time>, newest: Time, k: nat, u: Time)
    requires InWindow(newest, k, u) && IsOldestIn(times, newest, k, u)
    ensures OldestOfWindow(times, newest, u)
  {
  }

  lemma BeforeNewest(newest: Time, k: nat, t: Time)
    requires InWindow(newest, k, t)
    ensures t < newest
  {
  }

  lemma OneMoreWindow(times: set<Time>, k: nat)
    requires |times| >= 2
    ensures var kept, newest := Pruned(times), MaxOf(times);
      |KeptWithin(kept, newest, k + 1)| <= |KeptWithin(kept, newest, k)| + 1
  {
    hide Lap, Back, OldestOfWindow;
    var kept, newest := Pruned(times), MaxOf(times);
    var small, large := KeptWithin(kept, newest, k), KeptWithin(kept, newest, k + 1);
    forall t, u | t in large - small && u in large - small
      ensures t == u
    {
      assert InWindow(newest, k, t) && InWindow(newest, k, u);
      OnlyOldest(times, newest, k, t, u);
    }
    AtMostOneMore(small, large);
  }

  /** At most one save survives per window. */
  lemma {:induction false} OnePerWindow(times: set<Time>, k: nat)
    requires |times| >= 2
    ensures |KeptWithin(Pruned(times), MaxOf(times), k)| <= k
  {
    hide Pruned, Kept, Lap;
    if k > 0 {
      OnePerWindow(times, k - 1);
      OneMoreWindow(times, k - 1);
    }
  }

  lemma TwoSpread(times: set<Time>, low: Time, high: Time)
    requires |times| >= 2
    requires forall t :: t in times ==> low <= t <= high
    ensures low < high
  {
    if high <= low {
      SubsetSize(times, {low});
    }
  }

  lemma KeptIsWithin(times: set<Time>, oldest: Time, k: nat)
    requires |times| >= 2
    requires forall t :: t in times ==> oldest <= t
    requires InWindow(MaxOf(times), k, oldest)
    ensures |Pruned(times)| <= |KeptWithin(Pruned(times), MaxOf(times), k + 1)| + 1
  {
    hide Back, OldestOfWindow;
    var kept, newest := Pruned(times), MaxOf(times);
    assert kept <= KeptWithin(kept, newest, k + 1) + {newest};
    SubsetSize(kept, KeptWithin(kept, newest, k + 1) + {newest});
  }

  /** With `n + 2` saves kept the oldest of them lies beyond the first `n` windows. */
  lemma KeptSpan(times: set<Time>, oldest: Time)
    requires |Pruned(times)| >= 2 && |times| >= 2
    requires oldest in times && forall t :: t in times ==> oldest <= t
    ensures MaxOf(times) - oldest > Back(|Pruned(times)| - 2)
  {
    hide Pruned, Kept, Lap, KeptWithin;
    var newest := MaxOf(times);
    var kept := Pruned(times);
    TwoSpread(times, oldest, newest);
    var k := WindowOf(newest, oldest, 0);
    OnePerWindow(times, k + 1);
    KeptIsWithin(times, oldest, k);
    if |kept| - 2 < k {
      BackGrows(|kept| - 2, k);
    }
  }

  lemma ScaledLap(l: nat)
    ensures 10 * (l * 11 / 10) >= 11 * l - 9
    ensures 10 * (l * 11 / 10) <= 11 * l
  {
  }

  /** The windows grow like powers of 11/10. */
  lemma {:induction false} LapsGrow(k: nat)
    ensures Pow(10, k) * (Lap(k) - 9) >= 24 * Pow(11, k)
  {
    if k > 0 {
      LapsGrow(k - 1);
      ScaledLap(Lap(k - 1));
      LapStep(Pow(10, k - 1), Pow(11, k - 1), Lap(k - 1), Lap(k));
    }
  }

  lemma LapStep(p: nat, q: nat, l: nat, l': nat)
    requires p * (l - 9) >= 24 * q && 10 * l' >= 11 * l - 9
    ensures (10 * p) * (l' - 9) >= 24 * (11 * q)
  {
    ScaleUp(p, 10 * (l' - 9), 11 * (l - 9));
    assert p * (11 * (l - 9)) == 11 * (p * (l - 9));
    assert p * (10 * (l' - 9)) == (10 * p) * (l' - 9);
  }

  lemma {:induction false} BackFromLap(k: nat)
    ensures Back(k) >= 10 * (Lap(k) - 33)
  {
    if k > 0 {
      BackFromLap(k - 1);
      ScaledLap(Lap(k - 1));
    }
  }

  lemma ScaleUp(p: nat, a: int, b: int)
    requires a >= b
    ensures p * a >= p * b
  {
  }

  /** The number of saves kept is logarithmic in the time they span: with n + 2
      saves, span * 10^n exceeds 240 * (11^n - 10^n). */
  lemma KeptIsLogarithmic(times: set<Time>, oldest: Time)
    requires |Pruned(times)| >= 2 && |times| >= 2
    requires oldest in times && forall t :: t in times ==> oldest <= t
    ensures var n := |Pruned(times)| - 2;
      Pow(10, n) * (MaxOf(times) - oldest) > 240 * Pow(11, n) - 240 * Pow(10, n)
  {
    var n := |Pruned(times)| - 2;
    hide Pruned, Pow, Back, Lap;
    LapsGrow(n);
    BackFromLap(n);
    KeptSpan(times, oldest);
    PowPositive(10, n);
    var p, span, l := Pow(10, n), MaxOf(times) - oldest, Lap(n);
    assert span >= 10 * (l - 9) - 240 + 1;
    ScaleUp(p, span, 10 * (l - 9) - 240 + 1);
    assert p * (10 * (l - 9) - 240 + 1) == 10 * (p * (l - 9)) - 240 * p + p;
  }

  /** Pruning loses little: every deleted save has an older one that is kept, at
      most 33 and a tenth of its own age away. */
  lemma DeletedHasCloseKept(times: set<Time>, t: Time) returns (u: Time)
    requires t in times && t !in Pruned(times)
    ensures u in Pruned(times) && u < t
    ensures 10 * (t - u) < 330 + (MaxOf(times) - t)
  {
    hide Pruned, Lap;
    var k;
    k, u := DeletedHasOlderKept(times, t);
    BackFromLap(k);
    assert Back(k + 1) == Back(k) + Lap(k);
  }

  // ----------------------------------------------------------- the loop

  /** `*boost::prior(timeSet.end())`. */
  function Newest(times: set<Time>): (t: Time)
    requires times != {}
    ensures t == MaxOf(times)
  {
    MaxOf(times)
  }

  /** The times from `begin` up to `end` that have an earlier one there. */
  ghost function LaterOnes(times: set<Time>, begin: int, end: int): set<Time> {
    set t, u | t in times && u in times && begin <= u < t < end :: t
  }

  lemma LaterInWindow(times: set<Time>, begin: int, end: int, window: seq<Time>)
    requires forall t :: t in window <==> t in times && begin <= t < end
    requires forall i, j :: 0 <= i < j < |window| ==> window[i] < window[j]
    ensures LaterOnes(times, begin, end) == set k | 1 <= k < |window| :: window[k]
  {
    forall t | t in LaterOnes(times, begin, end)
      ensures exists k :: 1 <= k < |window| && window[k] == t
    {
      var u :| u in times && begin <= u < t < end;
      var k :| 0 <= k < |window| && window[k] == t;
      var j :| 0 <= j < |window| && window[j] == u;
      assert k >= 1;
    }
    forall k | 1 <= k < |window|
      ensures window[k] in LaterOnes(times, begin, end)
    {
      assert window[0] in window && window[k] in window && window[0] < window[k];
    }
  }

  class SaveDirectory {
    var saves: set<Time>     // the times in the names of the save files

    constructor (saves: set<Time>)
      ensures this.saves == saves
    {
      this.saves := saves;
    }

    /** Removes all but the first of the saves of one window. */
    method PruneWindow(timeSet: set<Time>, begin: int, end: int)
      modifies this
      ensures saves == old(saves) - LaterOnes(timeSet, begin, end)
    {
      var window := SortedKeys(set t | t in timeSet && begin <= t < end);
      for i := 0 to |window|
        invariant saves == old(saves) - set k | 1 <= k < i :: window[k]
      {
        if i >= 1 {
          saves := saves - {window[i]};
        }
      }
      LaterInWindow(timeSet, begin, end, window);
    }

    /** `removeOldSaves`. */
    method RemoveOldSaves()
      modifies this
      ensures saves == Pruned(old(saves))
    {
      var timeSet := saves;
      if |timeSet| < 2 {
        return;
      }
      var newest := Newest(timeSet);
      var endTime: int := newest;
      var beginTime: int := newest;
      var timeLaps := 30;
      ghost var k := 0;
      hide InStep, LaterOnes, AnyBefore, Pruned;
      FirstStep(timeSet);
      while true
        invariant InStep(timeSet, k, beginTime, timeLaps, saves)
        decreases beginTime
      {
        OneStep(timeSet, k, beginTime, timeLaps, saves);
        timeLaps := timeLaps * 11 / 10;
        endTime := beginTime;
        beginTime := endTime - timeLaps;
        PruneWindow(timeSet, beginTime, endTime);
        k := k + 1;
        if !AnyBefore(timeSet, endTime) {
          break;
        }
      }
    }
  }

  /** Where the loop stands after `k` windows. */
  ghost predicate InStep(times: set<Time>, k: nat, begin: int, laps: int, saves: set<Time>) {
    && |times| >= 2 && laps >= 30
    && begin == Newest(times) - Back(k)
    && laps * 11 / 10 == Lap(k)
    && PrunedBack(times, Newest(times), k, saves)
  }

  lemma FirstStep(times: set<Time>)
    requires |times| >= 2
    ensures InStep(times, 0, Newest(times), 30, times)
  {
    hide PrunedBack;
    FirstWindow(times, Newest(times));
  }

  /** One turn of the loop: the next window is dealt with, and when no save is
      older than it everything is pruned. */
  lemma OneStep(times: set<Time>, k: nat, begin: int, laps: int, saves: set<Time>)
    requires InStep(times, k, begin, laps, saves)
    ensures var laps' := laps * 11 / 10;
      var saves' := saves - LaterOnes(times, begin - laps', begin);
      && laps' > 0
      && InStep(times, k + 1, begin - laps', laps', saves')
      && (AnyBefore(times, begin) ==> begin > 0)
      && (!AnyBefore(times, begin) ==> saves' == Pruned(times))
  {
    hide PrunedBack, LaterOnes, Lap, Back, AnyBefore, Kept;
    var newest := Newest(times);
    var saves' := saves - LaterOnes(times, begin - laps * 11 / 10, begin);
    WindowStep(newest, k, laps);
    WindowPruned(times, newest, k, saves, saves');
    LastWindow(times, newest, k, saves');
  }

  /** `end != timeSet.begin()`: some save is older than this. */
  predicate AnyBefore(times: set<Time>, end: int) {
    exists t :: t in times && t < end
  }

  lemma FirstWindow(times: set<Time>, newest: Time)
    requires times != {} && newest == MaxOf(times)
    ensures Back(0) == 0 && Lap(0) == 33 && PrunedBack(times, newest, 0, times)
  {
    NothingPrunedYet(times, newest);
  }

  lemma WindowStep(newest: Time, k: nat, laps: nat)
    requires laps * 11 / 10 == Lap(k)
    ensures Back(k + 1) == Back(k) + laps * 11 / 10 && Lap(k + 1) == laps * 11 / 10 * 11 / 10
    ensures laps * 11 / 10 >= 33
  {
  }

  /** When no save is older than a window, everything is pruned; otherwise the
      window does not reach back to the epoch. */
  lemma LastWindow(times: set<Time>, newest: Time, k: nat, saves: set<Time>)
    requires times != {} && PrunedBack(times, newest, k + 1, saves)
    ensures AnyBefore(times, newest - Back(k)) ==> newest - Back(k) > 0
    ensures !AnyBefore(times, newest - Back(k)) ==> saves == Kept(times)
  {
    hide Kept, PrunedBack, Back;
    if !AnyBefore(times, newest - Back(k)) {
      AllPruned(times, newest, k, saves);
    }
  }

  /** The windows before the `k`th have been dealt with. */
  ghost predicate PrunedBack(times: set<Time>, newest: Time, k: nat, saves: set<Time>) {
    times != {} && LeftTo(times, Kept(times), newest - Back(k), saves)
  }

  /** The saves are those older than `begin` and those to keep. */
  ghost predicate LeftTo(times: set<Time>, kept: set<Time>, begin: int, saves: set<Time>) {
    forall t :: t in saves <==> t in times && (t < begin || t in kept)
  }

  lemma NoneOlder(times: set<Time>, kept: set<Time>, begin: int, saves: set<Time>)
    requires LeftTo(times, kept, begin, saves) && kept <= times
    requires forall t :: t in times ==> t >= begin
    ensures saves == kept
  {
  }

  lemma NothingPrunedYet(times: set<Time>, newest: Time)
    requires times != {} && newest == MaxOf(times)
    ensures PrunedBack(times, newest, 0, times)
  {
  }

  lemma KeptWereThere(times: set<Time>)
    requires times != {}
    ensures Kept(times) <= times
  {
    hide OldestOfWindow;
  }

  lemma AllPruned(times: set<Time>, newest: Time, k: nat, saves: set<Time>)
    requires PrunedBack(times, newest, k + 1, saves)
    requires forall t :: t in times ==> t >= newest - Back(k)
    ensures saves == Kept(times)
  {
    hide Kept, Lap, Back, LeftTo;
    BackGrows(k, k + 1);
    KeptWereThere(times);
    NoneOlder(times, Kept(times), newest - Back(k + 1), saves);
  }

  /** One window's worth of deletions. */
  lemma WindowPruned(times: set<Time>, newest: Time, k: nat, before: set<Time>, after: set<Time>)
    requires times != {} && newest == MaxOf(times)
    requires PrunedBack(times, newest, k, before)
    requires after == before - LaterOnes(times, newest - Back(k + 1), newest - Back(k))
    ensures PrunedBack(times, newest, k + 1, after)
  {
    BackGrows(k, k + 1);
    forall t | t in times && InWindow(newest, k, t)
      ensures t in Kept(times) <==> IsOldestIn(times, newest, k, t)
    {
      if t in Kept(times) {
        var j: nat :| InWindow(newest, j, t) && IsOldestIn(times, newest, j, t);
        WindowsDisjoint(newest, j, k, t);
      }
    }
  }
}
