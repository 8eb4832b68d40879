/**
 Fixed-point money: raw token amounts, 18-decimal USD ("wad") and basis points.
 Every division is the bigint division of the source, which on the non-negative
 operands that occur here is the floor.
 */
module FixedPoint {

  const WAD: nat := 1_000_000_000_000_000_000
  const BPS_DENOM: nat := 10_000
  const WAD_PER_BPS: nat := 100_000_000_000_000

  function Pow10(n: nat): (r: nat)
    ensures r >= 1
  {
    if n == 0 then 1 else 10 * Pow10(n - 1)
  }

  function CeilDiv(a: nat, b: nat): nat
    requires b > 0
  {
    (a + b - 1) / b
  }

  function ToUsdWad(amount: int, decimals: nat, priceUsdWad: int): nat {
    if amount <= 0 || priceUsdWad <= 0 then 0
    else DivBounds(amount * priceUsdWad, Pow10(decimals)); amount * priceUsdWad / Pow10(decimals)
  }

  function FromUsdWadToAmount(usdWad: int, decimals: nat, priceUsdWad: int): nat {
    if usdWad <= 0 || priceUsdWad <= 0 then 0
    else DivBounds(usdWad * Pow10(decimals), priceUsdWad); usdWad * Pow10(decimals) / priceUsdWad
  }

  function EffectiveCollateral(collateralUsdWad: nat, liquidationThresholdBps: nat): nat {
    collateralUsdWad * liquidationThresholdBps / BPS_DENOM
  }

  function HealthFactor(effectiveUsdWad: nat, debtUsdWad: nat): nat
    requires debtUsdWad > 0
  {
    DivBounds(effectiveUsdWad * WAD, debtUsdWad);
    effectiveUsdWad * WAD / debtUsdWad
  }

  // ---- Floor division as a pair of inequalities ----

  lemma DivBounds(a: nat, b: nat)
    requires b > 0
    ensures 0 <= a / b
    ensures a / b * b <= a < (a / b + 1) * b
  {
    assert a == b * (a / b) + a % b;
  }

  lemma DivAtLeast(a: nat, b: nat, q: int)
    requires b > 0 && q * b <= a
    ensures q <= a / b
  {
    DivBounds(a, b);
    if q > a / b {
      MulMonotone(a / b + 1, q, b);
    }
  }

  lemma DivAtMost(a: nat, b: nat, q: int)
    requires b > 0 && a < (q + 1) * b
    ensures a / b <= q
  {
    DivBounds(a, b);
    if a / b > q {
      MulMonotone(q + 1, a / b, b);
    }
  }

  lemma DivReaches(a: nat, b: nat, q: nat)
    requires b > 0
    ensures q <= a / b <==> q * b <= a
  {
    if q <= a / b {
      DivBounds(a, b);
      MulMonotone(q, a / b, b);
    } else if q * b <= a {
      DivAtLeast(a, b, q);
    }
  }

  lemma DivMonotone(a: nat, a': nat, b: nat)
    requires b > 0 && a <= a'
    ensures a / b <= a' / b
  {
    DivBounds(a, b);
    DivAtLeast(a', b, a / b);
  }

  lemma CeilDivBounds(a: nat, b: nat)
    requires b > 0
    ensures a <= CeilDiv(a, b) * b < a + b
  {
    DivBounds(a + b - 1, b);
    assert (CeilDiv(a, b) + 1) * b == CeilDiv(a, b) * b + b;
  }

  lemma MulMonotone(x: int, y: int, k: nat)
    requires x <= y
    ensures x * k <= y * k
  {
  }

  lemma MulCancel(x: int, y: int, k: nat)
    requires k > 0 && x * k <= y * k
    ensures x <= y
  {
    if x > y {
      MulMonotone(y + 1, x, k);
    }
  }

  // ---- The two unit conversions, exactly ----

  lemma UsdBounds(amount: nat, decimals: nat, price: nat)
    requires price > 0
    ensures ToUsdWad(amount, decimals, price) * Pow10(decimals) <= amount * price
    ensures amount * price < (ToUsdWad(amount, decimals, price) + 1) * Pow10(decimals)
  {
    if amount > 0 {
      assert amount * price > 0;
      DivBounds(amount * price, Pow10(decimals));
    }
  }

  lemma AmountBounds(usd: nat, decimals: nat, price: nat)
    requires price > 0
    ensures FromUsdWadToAmount(usd, decimals, price) * price <= usd * Pow10(decimals)
    ensures usd * Pow10(decimals) < (FromUsdWadToAmount(usd, decimals, price) + 1) * price
  {
    if usd > 0 {
      DivBounds(usd * Pow10(decimals), price);
    }
  }

  lemma UsdAtLeast(amount: nat, decimals: nat, price: nat, q: int)
    requires price > 0 && q * Pow10(decimals) <= amount * price
    ensures q <= ToUsdWad(amount, decimals, price)
  {
    UsdBounds(amount, decimals, price);
    var u := ToUsdWad(amount, decimals, price);
    if q > u {
      MulMonotone(u + 1, q, Pow10(decimals));
    }
  }

  lemma UsdAtMost(amount: nat, decimals: nat, price: nat, q: int)
    requires price > 0 && amount * price < (q + 1) * Pow10(decimals)
    ensures ToUsdWad(amount, decimals, price) <= q
  {
    UsdBounds(amount, decimals, price);
    var u := ToUsdWad(amount, decimals, price);
    if u > q {
      MulMonotone(q + 1, u, Pow10(decimals));
    }
  }

  lemma AmountAtLeast(usd: nat, decimals: nat, price: nat, x: nat)
    requires price > 0 && x * price <= usd * Pow10(decimals)
    ensures x <= FromUsdWadToAmount(usd, decimals, price)
  {
    AmountBounds(usd, decimals, price);
    var y := FromUsdWadToAmount(usd, decimals, price);
    if x > y {
      MulMonotone(y + 1, x, price);
    }
  }

  lemma EffectiveBounds(usd: nat, lt: nat)
    ensures EffectiveCollateral(usd, lt) * BPS_DENOM <= usd * lt < (EffectiveCollateral(usd, lt) + 1) * BPS_DENOM
  {
    DivBounds(usd * lt, BPS_DENOM);
  }

  /** What comes back from converting a dollar value to tokens and again to dollars: never more, and
      less by at most the price of one raw unit. */
  lemma UsdAmountRoundTrip(usd: nat, decimals: nat, price: nat)
    requires price > 0
    ensures var back := ToUsdWad(FromUsdWadToAmount(usd, decimals, price), decimals, price);
            back <= usd <= back + CeilDiv(price, Pow10(decimals))
  {
    hide *;
    var unit := Pow10(decimals);
    var x := FromUsdWadToAmount(usd, decimals, price);
    AmountBounds(usd, decimals, price);
    assert (usd + 1) * unit == usd * unit + unit;
    UsdAtMost(x, decimals, price, usd);
    var k := CeilDiv(price, unit);
    CeilDivBounds(price, unit);
    assert (x + 1) * price == x * price + price;
    assert (usd - k) * unit == usd * unit - k * unit;
    UsdAtLeast(x, decimals, price, usd - k);
  }
}
