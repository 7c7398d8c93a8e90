/** Building prices: `getBuilingPrice` of UnivManip.cpp, and the highest level
    that still has a price. The growth factor 1.6 is the exact fraction 8/5. */
module Prices {
  import opened Basics
  import opened Model

  const BASE_PRICE: Resources := MetalOnly(100)
  const MAX_LEVEL := 23

  datatype PriceError = BadBuilding | BadLevel
  datatype PriceResult = Price(price: Option<Resources>) | OutOfRange(error: PriceError)

  /** floor(100 * 1.6^(level-1)). */
  function MetalPrice(level: nat): nat
    requires level >= 1
  {
    PowPositive(5, level - 1);
    100 * Pow(8, level - 1) / Pow(5, level - 1)
  }

  /** Whether the price of a level, in thousandths, fits in 32 bits. */
  predicate PriceFits(level: nat)
    requires level >= 1
  {
    100 * 1000 * Pow(8, level - 1) <= MAX32 * Pow(5, level - 1)
  }

  lemma {:induction false} PriceFitsDownward(level: nat, lower: nat)
    requires 1 <= lower <= level
    requires PriceFits(level)
    ensures PriceFits(lower)
    decreases level
  {
    if lower < level {
      var n := level - 1;
      calc {
        8 * (100 * 1000 * Pow(8, n - 1));
        100 * 1000 * Pow(8, n);
      <=
        MAX32 * Pow(5, n);
        5 * (MAX32 * Pow(5, n - 1));
      }
      PowPositive(5, n - 1);
      PriceFitsDownward(level - 1, lower);
    }
  }

  /** 100000 * 1.6^22 fits in 32 bits and 100000 * 1.6^23 does not. */
  lemma PowersAtTheLimit()
    ensures Pow(8, 22) == 73786976294838206464 && Pow(5, 22) == 2384185791015625
  {
    assert Pow(8, 5) == 32768 && Pow(5, 5) == 3125;
    PowSum(8, 5, 5);
    PowSum(5, 5, 5);
    PowSum(8, 10, 10);
    PowSum(5, 10, 10);
    PowSum(8, 20, 2);
    PowSum(5, 20, 2);
    assert Pow(8, 2) == 64 && Pow(5, 2) == 25;
  }

  /** A price exists exactly up to level 23. */
  lemma PriceFitsIff(level: nat)
    requires level >= 1
    ensures PriceFits(level) <==> level <= MAX_LEVEL
  {
    PowersAtTheLimit();
    assert PriceFits(MAX_LEVEL);
    assert Pow(8, 23) == 8 * Pow(8, 22) && Pow(5, 23) == 5 * Pow(5, 22);
    assert !PriceFits(MAX_LEVEL + 1);
    if level <= MAX_LEVEL {
      PriceFitsDownward(MAX_LEVEL, level);
    } else if PriceFits(level) {
      PriceFitsDownward(level, MAX_LEVEL + 1);
    }
  }

  lemma ScaledLess(a: int, b: int, d: nat)
    requires d > 0 && a * d < b * d
    ensures a < b
  {
  }

  lemma QuotientAtLeast(a: nat, d: nat, q: nat)
    requires d > 0 && a >= q * d
    ensures a / d >= q
  {
    var r := a / d;
    assert a < (r + 1) * d;
    ScaledLess(q, r + 1, d);
  }

  lemma QuotientAtMost(a: nat, d: nat, q: nat)
    requires d > 0 && a < (q + 1) * d
    ensures a / d <= q
  {
    var r := a / d;
    assert r * d <= a;
    ScaledLess(r, q + 1, d);
  }

  lemma FloorOfThousandths(x: nat, d: nat)
    requires d > 0
    ensures 1000 * x / d / 1000 == x / d
  {
    var q := x / d;
    assert q * d <= x < (q + 1) * d;
    assert (1000 * q) * d == 1000 * (q * d);
    assert (1000 * q + 1000) * d == 1000 * ((q + 1) * d);
    QuotientAtLeast(1000 * x, d, 1000 * q);
    QuotientAtMost(1000 * x, d, 1000 * q + 999);
  }

  lemma MetalPriceBound(level: nat)
    requires 1 <= level <= MAX_LEVEL
    ensures Pow(5, level - 1) > 0
    ensures 100 * 1000 * Pow(8, level - 1) / Pow(5, level - 1) <= MAX32
    ensures MetalPrice(level) <= MAX32
  {
    hide Pow;
    PriceFitsIff(level);
    PowPositive(5, level - 1);
    assert 100 * 1000 * Pow(8, level - 1) == 1000 * (100 * Pow(8, level - 1));
    FittingQuotients(100 * Pow(8, level - 1), Pow(5, level - 1));
  }

  lemma FittingQuotients(n: nat, d: nat)
    requires d > 0 && 1000 * n <= MAX32 * d
    ensures 1000 * n / d <= MAX32 && n / d <= MAX32
  {
    assert (MAX32 + 1) * d == MAX32 * d + d;
    QuotientAtMost(1000 * n, d, MAX32);
    QuotientAtMost(n, d, MAX32);
  }

  /** The price of raising a building to `level`; no price means "too expensive". */
  function BuildingPrice(level: nat): Option<Resources>
    requires level >= 1
  {
    if level <= MAX_LEVEL then
      MetalPriceBound(level);
      Some(MetalOnly(MetalPrice(level)))
    else
      None
  }

  /** Each level costs strictly more than the one before. */
  lemma {:induction false} MetalPriceGrows(level: nat, higher: nat)
    requires 1 <= level < higher
    ensures MetalPrice(level) < MetalPrice(higher)
    decreases higher
  {
    var n := higher - 2;
    var a, d := 100 * Pow(8, n), Pow(5, n);
    PowPositive(5, n);
    PowPositive(8, n);
    PowerGap(n);
    var q := a / d;
    assert 100 * Pow(8, n + 1) == 8 * a && Pow(5, n + 1) == 5 * d;
    assert q * d <= a;
    assert 8 * a == 5 * a + 3 * a && 3 * a >= 300 * d;
    assert 8 * a >= (q + 1) * (5 * d) by {
      assert 5 * a >= 5 * (q * d);
      assert (q + 1) * (5 * d) == 5 * (q * d) + 5 * d;
    }
    QuotientAtLeast(8 * a, 5 * d, q + 1);
    if level < higher - 1 {
      MetalPriceGrows(level, higher - 1);
    }
  }

  lemma {:induction false} PowerGap(n: nat)
    ensures Pow(8, n) >= Pow(5, n)
  {
    if n > 0 {
      PowerGap(n - 1);
    }
  }

  /** The growth of a level in thousandths, as a numerator and a denominator. */
  function Numerator(level: nat): nat
    requires level >= 1
  {
    1000 * Pow(8, level - 1)
  }

  function Denominator(level: nat): (d: nat)
    requires level >= 1
    ensures d > 0
  {
    PowPositive(5, level - 1);
    Pow(5, level - 1)
  }

  /** What the two loops of `getBuilingPrice` make of a cell holding 100 or 0. */
  lemma ScaledCell(level: nat, val: nat)
    requires level >= 1 && (val == 100 || val == 0)
    ensures val * Numerator(level) > MAX32 * Denominator(level) <==> val == 100 && level > MAX_LEVEL
    ensures level <= MAX_LEVEL || val == 0 ==>
      var scaled := val * Numerator(level) / Denominator(level);
      scaled <= MAX32 && scaled / 1000 == if val == 100 then MetalPrice(level) else 0
  {
    if val == 0 {
      assert 0 * Numerator(level) == 0;
      assert 0 / Denominator(level) == 0;
    } else {
      PriceFitsIff(level);
      assert 100 * Numerator(level) == 100 * 1000 * Pow(8, level - 1) == 1000 * (100 * Pow(8, level - 1));
      if level <= MAX_LEVEL {
        MetalPriceBound(level);
        FloorOfThousandths(100 * Pow(8, level - 1), Denominator(level));
      }
    }
  }

  /** `getBuilingPrice`: fills the local table cell by cell and gives up as soon
      as one cell, in thousandths, no longer fits in 32 bits. */
  method GetBuildingPrice(id: int, level: int) returns (r: PriceResult)
    ensures r.OutOfRange? && r.error == BadBuilding <==> !(0 <= id < BUILDINGS)
    ensures r.OutOfRange? && r.error == BadLevel <==> 0 <= id < BUILDINGS && level < 1
    ensures 0 <= id < BUILDINGS && level >= 1 ==> r == Price(BuildingPrice(level))
  {
    if id < 0 || id >= BUILDINGS {
      return OutOfRange(BadBuilding);
    }
    if level < 1 {
      return OutOfRange(BadLevel);
    }
    ScaledCell(level, 100);
    ScaledCell(level, 0);
    var num, den := Numerator(level), Denominator(level);
    var tab: seq<uint32> := BASE_PRICE;
    for i := 0 to RESOURCES
      invariant |tab| == RESOURCES
      invariant forall k :: i <= k < RESOURCES ==> tab[k] == BASE_PRICE[k]
      invariant i > 0 ==> level <= MAX_LEVEL
      invariant forall k :: 0 <= k < i ==> tab[k] / 1000 == if k == 0 then MetalPrice(level) else 0
    {
      var val: nat := tab[i];
      if val * num > MAX32 * den {
        return Price(None);
      }
      tab := tab[i := val * num / den];
    }
    for i := 0 to RESOURCES
      invariant |tab| == RESOURCES
      invariant forall k :: i <= k < RESOURCES ==> tab[k] / 1000 == if k == 0 then MetalPrice(level) else 0
      invariant forall k :: 0 <= k < i ==> tab[k] as int == if k == 0 then MetalPrice(level) else 0
    {
      tab := tab[i := tab[i] / 1000];
    }
    assert tab == MetalOnly(MetalPrice(level));
    r := Price(Some(tab));
  }
}
