/** The balance tables: per-kind constants for the four sushi kinds, the shop's
    base prices and the documented exponential price curve. C# `float`/`double`
    constants are exact reals here. */
module GameBalance {

  /** Number of sushi kinds every per-kind table covers. */
  const SushiKinds: nat := 4

  const BaseBonus: seq<real> := [350.0, 250.0, 250.0, 150.0]
  const Coefficient: seq<real> := [23.0, 27.0, 27.0, 31.0]
  const BaseRate: seq<real> := [10.0, 15.0, 30.0, 45.0]
  const MaxRate: seq<real> := [45.0, 30.0, 15.0, 10.0]

  const MaxSp: real := 150.0
  const BaseSp: real := 1.0
  const BaseReward: real := 1.0

  const BaseBonusPrice: real := 1800.0
  const BaseRatePrice: real := 2000.0
  const BaseSpPrice: real := 2200.0
  const BaseRewardPrice: real := 2000.0

  /** The four shop base prices, in declaration order. */
  const BasePrices: seq<real> := [BaseBonusPrice, BaseRatePrice, BaseSpPrice, BaseRewardPrice]

  const PriceGrowthFactor: real := 1.15

  const InitialCoins: int := 1000

  function Sum(s: seq<real>): real {
    if |s| == 0 then 0.0 else Sum(s[..|s| - 1]) + s[|s| - 1]
  }

  function Reverse(s: seq<real>): (r: seq<real>)
    ensures |r| == |s|
    ensures forall i :: 0 <= i < |s| ==> r[i] == s[|s| - 1 - i]
  {
    if |s| == 0 then [] else [s[|s| - 1]] + Reverse(s[..|s| - 1])
  }

  predicate AllPositive(s: seq<real>) {
    forall i :: 0 <= i < |s| ==> s[i] > 0.0
  }

  /** `x` raised to the natural power `n`. */
  function Pow(x: real, n: nat): (r: real)
    ensures x > 0.0 ==> r > 0.0
    ensures x >= 1.0 ==> r >= 1.0
  {
    if n == 0 then 1.0 else x * Pow(x, n - 1)
  }

  /** The price of an upgrade at `level`, by the documented rule
      price = base price * PriceGrowthFactor ^ level. */
  function Price(basePrice: real, level: nat): (price: real)
    ensures level == 0 ==> price == basePrice
    ensures basePrice > 0.0 ==> price >= basePrice
    ensures basePrice >= 0.0 ==> price >= 0.0
  {
    basePrice * Pow(PriceGrowthFactor, level)
  }

  lemma SumOfFour(s: seq<real>)
    requires |s| == 4
    ensures Sum(s) == s[0] + s[1] + s[2] + s[3]
  {
    assert s[..4] == s;
    assert s[..3][..2] == s[..2];
    assert s[..2][..1] == s[..1];
    assert s[..1][..0] == [];
    assert Sum(s[..1]) == s[0];
    assert Sum(s[..2]) == s[0] + s[1];
    assert Sum(s[..3]) == s[0] + s[1] + s[2];
  }

  /** Every per-kind table has one entry per sushi kind. */
  lemma TablesCoverEveryKind()
    ensures |BaseBonus| == SushiKinds && |Coefficient| == SushiKinds
    ensures |BaseRate| == SushiKinds && |MaxRate| == SushiKinds
  {
  }

  /** Both spawn-rate tables are percentages summing to 100, and the maximum
      rates are the base rates in reverse kind order. */
  lemma RateTablesArePercentages()
    ensures Sum(BaseRate) == 100.0 && Sum(MaxRate) == 100.0
    ensures MaxRate == Reverse(BaseRate)
  {
    SumOfFour(BaseRate);
    SumOfFour(MaxRate);
  }

  /** Bonuses, coefficients, SP and reward constants are positive; the starting
      coin stake is not negative. */
  lemma ConstantsPositive()
    ensures AllPositive(BaseBonus) && AllPositive(Coefficient) && AllPositive(BasePrices)
    ensures MaxSp > 0.0 && BaseSp > 0.0 && BaseReward > 0.0 && InitialCoins >= 0
  {
  }

  /** At level 0 the price is the base price; one purchase later it is 1.15 times it. */
  lemma PriceStart(basePrice: real)
    ensures Price(basePrice, 0) == basePrice
    ensures Price(basePrice, 1) == basePrice * 1.15
  {
  }

  /** Each level costs strictly more than the one before. */
  lemma PriceStep(basePrice: real, level: nat)
    requires basePrice > 0.0
    ensures Price(basePrice, level) < Price(basePrice, level + 1)
  {
    var p := Pow(PriceGrowthFactor, level);
    assert Pow(PriceGrowthFactor, level + 1) == PriceGrowthFactor * p;
    assert basePrice * (PriceGrowthFactor * p) - basePrice * p == basePrice * p * 0.15;
    assert basePrice * p > 0.0;
  }

  /** The price curve is strictly increasing in the level, for any positive base. */
  lemma {:induction false} PriceStrictlyIncreasing(basePrice: real, lo: nat, hi: nat)
    requires basePrice > 0.0
    requires lo < hi
    ensures Price(basePrice, lo) < Price(basePrice, hi)
    decreases hi - lo
  {
    PriceStep(basePrice, lo);
    if lo + 1 < hi {
      PriceStrictlyIncreasing(basePrice, lo + 1, hi);
    }
  }

  /** In particular, the price of each of the four shop items rises with every purchase. */
  lemma ShopPricesIncrease(item: nat, lo: nat, hi: nat)
    requires item < |BasePrices|
    requires lo < hi
    ensures Price(BasePrices[item], lo) < Price(BasePrices[item], hi)
  {
    PriceStrictlyIncreasing(BasePrices[item], lo, hi);
  }
}
