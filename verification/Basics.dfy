/** Integer widths, optional values and the small container helpers of Tools.h
    that the rest of the model shares. */
module Basics {

  datatype Option<+T> = None | Some(value: T)

  /** The result of code that may throw and thereby abandon the whole round. */
  datatype Attempt<+T> = Done(value: T) | Throws

  const MAX16 := 0xFFFF
  const MAX32 := 0xFFFF_FFFF
  const TWO16 := 0x1_0000
  const TWO31 := 0x8000_0000
  const TWO32 := 0x1_0000_0000
  const TWO64 := 0x1_0000_0000_0000_0000

  type uint16 = x: int | 0 <= x < 0x1_0000
  type uint32 = x: int | 0 <= x < 0x1_0000_0000

  function Min(a: int, b: int): int {
    if a < b then a else b
  }

  function Max(a: int, b: int): int {
    if a < b then b else a
  }

  function Pow(base: nat, exp: nat): nat {
    if exp == 0 then 1 else base * Pow(base, exp - 1)
  }

  lemma {:induction false} PowPositive(base: nat, exp: nat)
    requires base > 0
    ensures Pow(base, exp) > 0
  {
    if exp > 0 {
      PowPositive(base, exp - 1);
    }
  }

  lemma {:induction false} PowSum(base: nat, m: nat, n: nat)
    ensures Pow(base, m + n) == Pow(base, m) * Pow(base, n)
  {
    if m > 0 {
      PowSum(base, m - 1, n);
      TimesGrouping(base, Pow(base, m - 1), Pow(base, n));
    }
  }

  lemma TimesGrouping(a: nat, b: nat, c: nat)
    ensures a * (b * c) == (a * b) * c
  {
  }

  /** An `int` that overflowed, read back in two's complement. */
  function Wrap32Signed(x: int): (r: int)
    ensures -TWO31 <= r < TWO31
  {
    var m := x % TWO32;
    if m < TWO31 then m else m - TWO32
  }

  /** An `int` stored into an `int8_t`. */
  function Wrap8Signed(x: int): (r: int)
    ensures -128 <= r < 128
    ensures -128 <= x < 128 ==> r == x
  {
    var m := x % 256;
    if m < 128 then m else m - 256
  }

  // ---------------------------------------------------------------- sums

  function Sum(s: seq<int>): int {
    if s == [] then 0 else Sum(s[..|s| - 1]) + s[|s| - 1]
  }

  lemma {:induction false} SumNonNegative(s: seq<int>)
    requires forall i :: 0 <= i < |s| ==> s[i] >= 0
    ensures Sum(s) >= 0
    ensures forall i :: 0 <= i < |s| ==> s[i] <= Sum(s)
  {
    if s != [] {
      SumNonNegative(s[..|s| - 1]);
      assert forall i :: 0 <= i < |s| - 1 ==> s[i] == s[..|s| - 1][i];
    }
  }

  /** A table of counts sums to zero exactly when every count is zero. */
  lemma {:induction false} SumZero(s: seq<int>)
    requires forall i :: 0 <= i < |s| ==> s[i] >= 0
    ensures Sum(s) == 0 <==> forall i :: 0 <= i < |s| ==> s[i] == 0
  {
    if s != [] {
      var front := s[..|s| - 1];
      SumZero(front);
      SumNonNegative(front);
      assert forall i :: 0 <= i < |front| ==> front[i] == s[i];
    }
  }

  lemma {:induction false} SumPointwise(a: seq<int>, b: seq<int>, c: seq<int>)
    requires |a| == |b| == |c|
    requires forall i :: 0 <= i < |a| ==> c[i] == a[i] + b[i]
    ensures Sum(c) == Sum(a) + Sum(b)
  {
    if a != [] {
      SumPointwise(a[..|a| - 1], b[..|b| - 1], c[..|c| - 1]);
    }
  }

  lemma {:induction false} SumMonotone(a: seq<int>, b: seq<int>)
    requires |a| == |b|
    requires forall i :: 0 <= i < |a| ==> a[i] <= b[i]
    ensures Sum(a) <= Sum(b)
  {
    if a != [] {
      SumMonotone(a[..|a| - 1], b[..|b| - 1]);
    }
  }

  lemma {:induction false} SumUpdate(s: seq<int>, i: nat, v: int)
    requires i < |s|
    ensures Sum(s[i := v]) == Sum(s) - s[i] + v
  {
    var t := s[i := v];
    var last := |s| - 1;
    if i == last {
      assert t[..last] == s[..last];
    } else {
      assert t[..last] == s[..last][i := v];
      SumUpdate(s[..last], i, v);
    }
  }

  lemma SumPrefix(s: seq<int>, n: nat)
    requires 0 < n <= |s|
    ensures Sum(s[..n]) == Sum(s[..n - 1]) + s[n - 1]
  {
    assert s[..n][..n - 1] == s[..n - 1];
  }

  lemma {:induction false} SumRemove(s: seq<int>, i: nat)
    requires i < |s|
    ensures Sum(s[..i] + s[i + 1..]) == Sum(s) - s[i]
  {
    var last := |s| - 1;
    if i == last {
      assert s[..i] + s[i + 1..] == s[..last];
    } else {
      SumRemove(s[..last], i);
      assert (s[..i] + s[i + 1..])[..last - 1] == s[..last][..i] + s[..last][i + 1..];
      assert (s[..i] + s[i + 1..])[last - 1] == s[last];
    }
  }

  // ------------------------------------------------- capped additions

  /** The saturating addition of two 32-bit counts. */
  function CappedAdd(a: uint32, b: uint32): (r: uint32)
    ensures r == Min(a + b, MAX32)
  {
    var maxAdd := MAX32 - a;
    if b > maxAdd then MAX32 else a + b
  }

  /** Saturating addition gives the capped sum whatever the grouping. */
  lemma CappedAddGrouping(a: uint32, b: uint32, c: uint32)
    ensures CappedAdd(CappedAdd(a, b), c) == CappedAdd(a, CappedAdd(b, c)) == Min(a + b + c, MAX32)
    ensures CappedAdd(a, b) == CappedAdd(b, a)
  {
  }

  function AddTab(a: seq<uint32>, b: seq<uint32>): (r: seq<uint32>)
    requires |a| == |b|
    ensures |r| == |a|
    ensures forall i :: 0 <= i < |a| ==> r[i] == Min(a[i] as int + b[i] as int, MAX32)
  {
    seq(|a|, i requires 0 <= i < |a| => CappedAdd(a[i], b[i]))
  }

  /** `addArray`: adds every cell of `other` into `out`, in place. */
  method AddArray(out: array<uint32>, other: seq<uint32>)
    requires out.Length == |other|
    modifies out
    ensures out[..] == AddTab(old(out[..]), other)
  {
    for i := 0 to out.Length
      invariant forall k :: 0 <= k < i ==> out[k] == CappedAdd(old(out[k]), other[k])
      invariant forall k :: i <= k < out.Length ==> out[k] == old(out[k])
    {
      out[i] := CappedAdd(out[i], other[i]);
    }
  }

  /** When the totals stay below the 32-bit limit nothing is lost to saturation. */
  lemma AddTabExact(a: seq<uint32>, b: seq<uint32>)
    requires |a| == |b|
    requires Sum(a) + Sum(b) <= MAX32
    ensures forall i :: 0 <= i < |a| ==> AddTab(a, b)[i] as int == a[i] as int + b[i] as int
    ensures Sum(AddTab(a, b)) == Sum(a) + Sum(b)
  {
    SumNonNegative(a);
    SumNonNegative(b);
    SumPointwise(a, b, AddTab(a, b));
  }

  function AllZero(s: seq<int>): bool {
    forall i :: 0 <= i < |s| ==> s[i] == 0
  }

  /** `boost::accumulate(tab, 0)`: the sum is carried in an `int`. */
  function AccumulateInt(s: seq<uint32>): (r: int)
    ensures r == Wrap32Signed(Sum(s))
  {
    Wrap32Signed(Sum(s))
  }

  /** The `int` accumulation is the true sum whenever that sum fits in an `int`. */
  lemma AccumulateIntExact(s: seq<uint32>)
    requires Sum(s) < TWO31
    ensures AccumulateInt(s) == Sum(s) >= 0
    ensures AccumulateInt(s) == 0 <==> AllZero(s)
  {
    SumNonNegative(s);
    SumZero(s);
  }

  // -------------------------------------------------------- finite maps

  /** `order` lists every key of `keys` exactly once. */
  ghost predicate Enumerates<T(!new)>(order: seq<T>, keys: set<T>) {
    && (forall i :: 0 <= i < |order| ==> order[i] in keys)
    && (forall k :: k in keys ==> k in order)
    && (forall i, j :: 0 <= i < j < |order| ==> order[i] != order[j])
  }

  function MaxOf(s: set<nat>): (m: nat)
    requires s != {}
    ensures m in s && forall k :: k in s ==> k <= m
  {
    MaxExists(s);
    var m :| m in s && forall k :: k in s ==> k <= m;
    m
  }

  lemma {:induction false} MaxExists(s: set<nat>)
    requires s != {}
    ensures exists m :: m in s && forall k :: k in s ==> k <= m
    decreases |s|
  {
    var x :| x in s;
    if s != {x} {
      var rest := s - {x};
      assert rest != {} by {
        assert s == rest + {x};
      }
      assert |rest| < |s|;
      MaxExists(rest);
      var m :| m in rest && forall k :: k in rest ==> k <= m;
      var top := Max(m, x);
      assert forall k :: k in s ==> k in rest || k == x;
      assert top in s && forall k :: k in s ==> k <= top;
    } else {
      assert x in s && forall k :: k in s ==> k <= x;
    }
  }

  /** The keys of a `std::map` keyed by integers, in its iteration order. */
  function SortedKeys(s: set<nat>): (r: seq<nat>)
    ensures forall i, j :: 0 <= i < j < |r| ==> r[i] < r[j]
    ensures forall k :: k in s <==> k in r
    ensures forall i :: 0 <= i < |r| ==> r[i] in s
    decreases |s|
  {
    if s == {} then []
    else
      var m := MaxOf(s);
      assert |s - {m}| < |s|;
      SortedKeys(s - {m}) + [m]
  }
}
