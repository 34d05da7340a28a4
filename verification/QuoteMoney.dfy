/** Atomic quote costs and fees: what flooring does to an order that is filled in parts. */
module QuoteMoney {
  import opened Wrappers

  const BUY_SIDE := 1
  const MAX_PRICE := 1000

  /** Division of big integers: the quotient is truncated toward zero. */
  function TruncatedDiv(a: int, b: int): int
    requires b > 0
  {
    if a >= 0 then a / b else -((-a) / b)
  }

  function PriceComponent(side: int, price: int): int {
    if side == BUY_SIDE then price else MAX_PRICE - price
  }

  /** The monitor's cost of an amount at a price. */
  function QuoteCost(side: int, price: int, amount: int): int {
    TruncatedDiv(amount * PriceComponent(side, price), 1000)
  }

  /** What the monitor sends along with an order: cost, fees of two percent, and a fixed pad. */
  function QuoteOrderValue(side: int, price: int, amount: int): int {
    var cost := QuoteCost(side, price, amount);
    var fee := TruncatedDiv(cost * 200, 10_000);
    cost + fee + 20
  }

  /** The keeper's cost of a recorded order; none when there is nothing to pay. */
  function CalculateQuoteCostAtomic(side: int, price: int, amount: int): Option<int> {
    if amount <= 0 then None
    else
      var priceComponent := PriceComponent(side, price);
      if priceComponent <= 0 then None
      else
        var cost := TruncatedDiv(amount * priceComponent, MAX_PRICE);
        if cost > 0 then Some(cost) else None
  }

  function CalculateBpsFeeAtomic(amount: int, feeBps: int): int {
    if amount <= 0 || feeBps <= 0 then 0 else TruncatedDiv(amount * feeBps, 10_000)
  }

  predicate InRange(price: int) { 0 <= price <= MAX_PRICE }

  predicate NonNegative(fills: seq<int>) { forall i :: 0 <= i < |fills| ==> fills[i] >= 0 }

  function Sum(fills: seq<int>): int {
    if fills == [] then 0 else Sum(fills[..|fills| - 1]) + fills[|fills| - 1]
  }

  function SumCosts(side: int, price: int, fills: seq<int>): int {
    if fills == [] then 0
    else SumCosts(side, price, fills[..|fills| - 1]) + QuoteCost(side, price, fills[|fills| - 1])
  }

  /** Two floors of parts fall short of the floor of the whole by zero or one. */
  lemma FloorOfSum(a: int, b: int)
    requires 0 <= a && 0 <= b
    ensures 0 <= (a + b) / 1000 - a / 1000 - b / 1000 <= 1
    ensures 0 <= (a + b) / 10_000 - a / 10_000 - b / 10_000 <= 1
  {
  }

  lemma CostParts(side: int, price: int, a: int, b: int)
    requires InRange(price) && 0 <= a && 0 <= b
    ensures 0 <= QuoteCost(side, price, a + b) - QuoteCost(side, price, a) - QuoteCost(side, price, b) <= 1
    ensures 0 <= QuoteCost(side, price, a) && 0 <= QuoteCost(side, price, b)
  {
    var c := PriceComponent(side, price);
    assert (a + b) * c == a * c + b * c;
    assert 0 <= a * c && 0 <= b * c;
    FloorOfSum(a * c, b * c);
  }

  lemma {:induction false} SumNonNegative(fills: seq<int>)
    requires NonNegative(fills)
    ensures 0 <= Sum(fills)
  {
    if fills != [] {
      SumNonNegative(fills[..|fills| - 1]);
    }
  }

  /** Rounding dust: filling an order in n parts at one price costs no more than filling it at once, and at most
      n - 1 atoms less. */
  lemma {:induction false} DustBound(side: int, price: int, fills: seq<int>)
    requires InRange(price) && NonNegative(fills) && fills != []
    ensures 0 <= QuoteCost(side, price, Sum(fills)) - SumCosts(side, price, fills) <= |fills| - 1
    ensures 0 <= SumCosts(side, price, fills)
  {
    hide QuoteCost;
    var n := |fills| - 1;
    SumNonNegative(fills[..n]);
    CostParts(side, price, Sum(fills[..n]), fills[n]);
    if n > 0 {
      DustBound(side, price, fills[..n]);
    } else {
      assert fills[..n] == [] && Sum([]) == 0 && SumCosts(side, price, []) == 0;
    }
  }

  /** The dust bound is reached: up to a thousand single-atom fills at price 999 each cost nothing, the whole
      n - 1 atoms. */
  lemma {:induction false} DustOfSingleAtoms(n: nat)
    requires 1 <= n <= 1000
    ensures var fills := seq(n, i => 1);
      QuoteCost(BUY_SIDE, 999, Sum(fills)) - SumCosts(BUY_SIDE, 999, fills) == n - 1
  {
    SingleAtoms(n);
    assert QuoteCost(BUY_SIDE, 999, n) == n - 1;
  }

  lemma {:induction false} SingleAtoms(n: nat)
    ensures SumCosts(BUY_SIDE, 999, seq(n, i => 1)) == 0 && Sum(seq(n, i => 1)) == n
  {
    if n > 0 {
      assert seq(n, i => 1)[..n - 1] == seq(n - 1, i => 1);
      SingleAtoms(n - 1);
    }
  }

  /** The two sides of a trade pay the whole amount between them, or one atom less when the split is uneven. */
  lemma SidesAddUp(price: int, amount: int, other: int)
    requires InRange(price) && 0 <= amount && other != BUY_SIDE
    ensures QuoteCost(BUY_SIDE, price, amount) + QuoteCost(other, price, amount)
         == if amount * price % 1000 == 0 then amount else amount - 1
  {
    var x, y := amount * price, amount * (1000 - price);
    assert x + y == amount * 1000;
    assert 0 <= x && 0 <= y;
    assert x == 1000 * (x / 1000) + x % 1000;
    assert y == 1000 * (y / 1000) + y % 1000;
  }

  // ---------------------------------------------------------------------------------------------
  // Fees

  /** The keeper's fee is the exact share rounded down, and nothing for no amount or no rate. */
  lemma FeeIsShareRoundedDown(amount: int, feeBps: int)
    ensures
      var fee := CalculateBpsFeeAtomic(amount, feeBps);
      if amount > 0 && feeBps > 0 then 10_000 * fee <= amount * feeBps < 10_000 * (fee + 1) else fee == 0
  {
    if amount > 0 && feeBps > 0 {
      assert amount * feeBps > 0;
    }
  }

  /** A cost within the price range is the exact share of the amount rounded down: the price for a buyer, what it
      lacks of a thousand for a seller. */
  lemma CostIsShareRoundedDown(side: int, price: int, amount: int)
    requires InRange(price) && 0 <= amount
    ensures
      var cost := QuoteCost(side, price, amount);
      var share := amount * (if side == 1 then price else 1000 - price);
      1000 * cost <= share < 1000 * (cost + 1)
  {
    var c := PriceComponent(side, price);
    assert 0 <= amount * c;
  }

  /** A fill's price with the treasury's and the market maker's one percent floored separately. */
  function FillCharge(side: int, price: int, amount: int): int {
    var cost := QuoteCost(side, price, amount);
    cost + CalculateBpsFeeAtomic(cost, 100) + CalculateBpsFeeAtomic(cost, 100)
  }

  function SumCharges(side: int, price: int, fills: seq<int>): int {
    if fills == [] then 0
    else SumCharges(side, price, fills[..|fills| - 1]) + FillCharge(side, price, fills[|fills| - 1])
  }

  function Fee(cost: int): int { TruncatedDiv(cost * 200, 10_000) }

  lemma FeeParts(a: int, b: int)
    requires 0 <= a && 0 <= b
    ensures 0 <= Fee(a + b) - Fee(a) - Fee(b) <= 1
  {
    FloorOfSum(a * 200, b * 200);
  }

  lemma TwoFees(cost: int)
    requires 0 <= cost
    ensures 0 <= Fee(cost) - 2 * CalculateBpsFeeAtomic(cost, 100) <= 1
  {
    var q, r := cost / 100, cost % 100;
    assert cost == 100 * q + r;
    assert CalculateBpsFeeAtomic(cost, 100) == q;
    assert cost * 200 / 10_000 == (2 * cost) / 100;
  }

  /** Growing the fee's base by a few atoms grows the fee by no more than those atoms. */
  lemma FeeGrowth(cost: int, dust: int)
    requires 0 <= cost && 0 <= dust
    ensures 0 <= Fee(cost + dust) - Fee(cost) <= dust
  {
    FeeParts(cost, dust);
    if dust > 0 && dust < 50 {
      assert Fee(dust) == 0;
    } else {
      assert dust > 0 ==> Fee(dust) + 1 <= dust;
    }
  }

  lemma {:induction false} ChargesAgainstCosts(side: int, price: int, fills: seq<int>)
    requires InRange(price) && NonNegative(fills) && fills != []
    ensures var costs := SumCosts(side, price, fills);
      0 <= costs && 0 <= costs + Fee(costs) - SumCharges(side, price, fills) <= 2 * |fills| - 1
  {
    hide QuoteCost, Fee, CalculateBpsFeeAtomic;
    var n := |fills| - 1;
    var cost := QuoteCost(side, price, fills[n]);
    CostParts(side, price, fills[n], 0);
    TwoFees(cost);
    if n > 0 {
      ChargesAgainstCosts(side, price, fills[..n]);
      FeeParts(SumCosts(side, price, fills[..n]), cost);
    } else {
      assert fills[..n] == [] && SumCosts(side, price, []) == 0 && SumCharges(side, price, []) == 0;
    }
  }

  /** However an order is split into fills, and with both fees floored on every fill, the value sent with it covers
      all charges, pad aside, and leaves over at most four atoms per fill beyond the pad. */
  lemma OrderValueCoversFills(side: int, price: int, fills: seq<int>)
    requires InRange(price) && NonNegative(fills) && fills != []
    ensures 20 <= QuoteOrderValue(side, price, Sum(fills)) - SumCharges(side, price, fills) <= 20 + 4 * |fills|
  {
    var costs, whole := SumCosts(side, price, fills), QuoteCost(side, price, Sum(fills));
    DustBound(side, price, fills);
    ChargesAgainstCosts(side, price, fills);
    FeeGrowth(costs, whole - costs);
    assert QuoteOrderValue(side, price, Sum(fills)) == whole + Fee(whole) + 20;
  }

  /** The keeper and the monitor price alike: the keeper names a cost exactly when the monitor's is positive and the
      amount is, and then it is the same cost. */
  lemma KeeperAgreesWithMonitor(side: int, price: int, amount: int)
    ensures
      var keeper := CalculateQuoteCostAtomic(side, price, amount);
      && (keeper.Some? <==> amount > 0 && QuoteCost(side, price, amount) > 0)
      && (keeper.Some? ==> keeper.value == QuoteCost(side, price, amount))
  {
    var c := PriceComponent(side, price);
    if amount > 0 && c <= 0 {
      assert amount * c <= 0;
    }
  }
}
