/**
 What the planner's nested roundings guarantee: the source keeps its health-factor floor, a top-up
 does not overshoot the target, a repayment leaves the debt the target supports, and none of the
 three is needlessly small.
 */
module RescueSizing {
  import opened Common
  import opened FixedPoint
  import opened RescuePlanner

  function Withdrawn(p: Position, x: nat): Position
    requires x <= p.collateralAmount
  {
    p.(collateralAmount := p.collateralAmount - x)
  }

  function ToppedUp(p: Position, x: nat): Position {
    p.(collateralAmount := p.collateralAmount + x)
  }

  function Repaid(p: Position, x: nat): Position
    requires x <= p.debtAmount
  {
    p.(debtAmount := p.debtAmount - x)
  }

  function PositionHf(p: Position, market: Market): nat
    requires DebtUsd(p, market) > 0
  {
    HealthFactor(EffectiveUsd(p, market), DebtUsd(p, market))
  }

  // ---- the same facts on bare numbers ----

  /** A gap in effective collateral, turned into tokens of the collateral. */
  function GapAsAmount(gap: nat, lt: nat, decimals: nat, price: nat): nat
    requires lt > 0
  {
    DivBounds(gap * BPS_DENOM, lt);
    FromUsdWadToAmount(gap * BPS_DENOM / lt, decimals, price)
  }

  lemma GapBounds(gap: nat, lt: nat, decimals: nat, price: nat) returns (k: nat)
    requires lt > 0 && price > 0
    ensures k * lt <= gap * BPS_DENOM < (k + 1) * lt
    ensures GapAsAmount(gap, lt, decimals, price) * price <= k * Pow10(decimals)
    ensures k * Pow10(decimals) < (GapAsAmount(gap, lt, decimals, price) + 1) * price
  {
    DivBounds(gap * BPS_DENOM, lt);
    k := gap * BPS_DENOM / lt;
    AmountBounds(k, decimals, price);
  }

  /** Moving tokens worth at most k wad out of a balance lowers its value by at most k wad. */
  lemma ValueAfterWithdrawal(coll: nat, x: nat, k: nat, decimals: nat, price: nat)
    requires price > 0 && x <= coll && x * price <= k * Pow10(decimals)
    ensures ToUsdWad(coll, decimals, price) - k <= ToUsdWad(coll - x, decimals, price)
  {
    var usd, unit := ToUsdWad(coll, decimals, price), Pow10(decimals);
    UsdBounds(coll, decimals, price);
    assert (coll - x) * price == coll * price - x * price;
    assert (usd - k) * unit == usd * unit - k * unit;
    UsdAtLeast(coll - x, decimals, price, usd - k);
  }

  lemma CapWithinCollateral(coll: nat, gap: nat, lt: nat, decimals: nat, price: nat)
    requires lt > 0 && price > 0
    requires gap <= EffectiveCollateral(ToUsdWad(coll, decimals, price), lt)
    ensures GapAsAmount(gap, lt, decimals, price) <= coll
  {
    var usd, unit := ToUsdWad(coll, decimals, price), Pow10(decimals);
    var k := GapBounds(gap, lt, decimals, price);
    EffectiveBounds(usd, lt);
    MulMonotone(gap, EffectiveCollateral(usd, lt), BPS_DENOM);
    MulCancel(k, usd, lt);
    MulMonotone(k, usd, unit);
    UsdBounds(coll, decimals, price);
    MulCancel(GapAsAmount(gap, lt, decimals, price), coll, price);
  }

  lemma EffectiveDrop(usd: nat, usd': nat, k: nat, gap: nat, lt: nat)
    requires usd' >= usd - k && k * lt <= gap * BPS_DENOM
    ensures EffectiveCollateral(usd', lt) >= EffectiveCollateral(usd, lt) - gap
  {
    EffectiveBounds(usd, lt);
    MulMonotone(usd - k, usd', lt);
    assert (usd - k) * lt == usd * lt - k * lt;
    DivAtLeast(usd' * lt, BPS_DENOM, EffectiveCollateral(usd, lt) - gap);
  }

  lemma EffectiveRise(usd: nat, usd': nat, k: nat, gap: nat, lt: nat)
    requires usd' <= usd + k && k * lt <= gap * BPS_DENOM
    ensures EffectiveCollateral(usd', lt) <= EffectiveCollateral(usd, lt) + gap
  {
    EffectiveBounds(usd, lt);
    MulMonotone(usd', usd + k, lt);
    assert (usd + k) * lt == usd * lt + k * lt;
    DivAtMost(usd' * lt, BPS_DENOM, EffectiveCollateral(usd, lt) + gap);
  }

  lemma EffectiveDropBeyond(usd: nat, usd': nat, k: nat, q: nat, gap: nat, lt: nat)
    requires usd' <= usd - k - q - 1 && gap * BPS_DENOM < (k + 1) * lt && BPS_DENOM <= q * lt
    ensures EffectiveCollateral(usd', lt) < EffectiveCollateral(usd, lt) - gap
  {
    EffectiveBounds(usd, lt);
    EffectiveBounds(usd', lt);
    MulMonotone(usd', usd - k - q - 1, lt);
    assert (usd - k - q - 1) * lt == usd * lt - (k + 1) * lt - q * lt;
  }

  lemma EffectiveRiseFully(usd: nat, usd': nat, k: nat, u: nat, gap: nat, lt: nat)
    requires usd' >= usd + k - u && gap * BPS_DENOM < (k + 1) * lt
    ensures EffectiveCollateral(usd', lt) >= EffectiveCollateral(usd, lt) + gap - CeilDiv((u + 1) * lt, BPS_DENOM)
  {
    EffectiveBounds(usd, lt);
    MulMonotone(usd + k - u, usd', lt);
    assert (usd + k - u) * lt == usd * lt + (k + 1) * lt - (u + 1) * lt;
    CeilDivBounds((u + 1) * lt, BPS_DENOM);
    DivAtLeast(usd' * lt, BPS_DENOM, EffectiveCollateral(usd, lt) + gap - CeilDiv((u + 1) * lt, BPS_DENOM));
  }

  /** Taking out tokens worth at least k wad lowers the balance's value by at least k wad. */
  lemma ValueAfterLargeWithdrawal(coll: nat, x: nat, k: nat, decimals: nat, price: nat)
    requires price > 0 && x <= coll && x * price >= k * Pow10(decimals)
    ensures ToUsdWad(coll - x, decimals, price) <= ToUsdWad(coll, decimals, price) - k
  {
    var usd, usd', unit := ToUsdWad(coll, decimals, price), ToUsdWad(coll - x, decimals, price), Pow10(decimals);
    UsdBounds(coll, decimals, price);
    UsdBounds(coll - x, decimals, price);
    assert (coll - x) * price == coll * price - x * price;
    assert (usd + 1) * unit - k * unit == (usd + 1 - k) * unit;
    if usd' > usd - k {
      MulMonotone(usd - k + 1, usd', unit);
    }
  }

  lemma ValueAfterDeposit(coll: nat, x: nat, k: nat, decimals: nat, price: nat)
    requires price > 0 && x * price <= k * Pow10(decimals)
    ensures ToUsdWad(coll + x, decimals, price) <= ToUsdWad(coll, decimals, price) + k
  {
    var usd, unit := ToUsdWad(coll, decimals, price), Pow10(decimals);
    UsdBounds(coll, decimals, price);
    assert (coll + x) * price == coll * price + x * price;
    assert (usd + k + 1) * unit == (usd + 1) * unit + k * unit;
    UsdAtMost(coll + x, decimals, price, usd + k);
  }

  lemma Distribute(a: int, b: int, c: int, m: int)
    ensures (a + b - c) * m == a * m + b * m - c * m
  {
  }

  /** Adding the tokens bought for k wad raises the balance's value by k wad, less the price of one unit. */
  lemma ValueAfterPurchase(coll: nat, x: nat, k: nat, decimals: nat, price: nat)
    requires price > 0 && k * Pow10(decimals) < (x + 1) * price
    ensures ToUsdWad(coll + x, decimals, price)
            >= ToUsdWad(coll, decimals, price) + k - CeilDiv(price, Pow10(decimals))
  {
    var usd, unit := ToUsdWad(coll, decimals, price), Pow10(decimals);
    var u := CeilDiv(price, unit);
    CeilDivBounds(price, unit);
    UsdBounds(coll, decimals, price);
    Distribute(coll, x + 1, 1, price);
    Distribute(usd, k, u, unit);
    UsdAtLeast(coll + x, decimals, price, usd + k - u);
  }

  lemma ValueAfterRepurchase(coll: nat, x: nat, k: nat, decimals: nat, price: nat)
    requires price > 0 && x <= coll && k * Pow10(decimals) < (x + 1) * price
    ensures ToUsdWad(coll - x, decimals, price)
            <= ToUsdWad(coll, decimals, price) - k + CeilDiv(price, Pow10(decimals))
  {
    var usd, usd', unit := ToUsdWad(coll, decimals, price), ToUsdWad(coll - x, decimals, price), Pow10(decimals);
    var u := CeilDiv(price, unit);
    CeilDivBounds(price, unit);
    UsdBounds(coll, decimals, price);
    UsdBounds(coll - x, decimals, price);
    Distribute(coll, 1, x + 1, price);
    Distribute(usd + 1, u, k, unit);
    if usd' > usd - k + u {
      MulMonotone(usd + 1 + u - k, usd', unit);
    }
  }

  lemma EffectiveAfterWithdrawal(coll: nat, x: nat, gap: nat, lt: nat, decimals: nat, price: nat)
    requires lt > 0 && price > 0 && x <= coll && x <= GapAsAmount(gap, lt, decimals, price)
    ensures EffectiveCollateral(ToUsdWad(coll - x, decimals, price), lt)
            >= EffectiveCollateral(ToUsdWad(coll, decimals, price), lt) - gap
  {
    var k := GapBounds(gap, lt, decimals, price);
    MulMonotone(x, GapAsAmount(gap, lt, decimals, price), price);
    ValueAfterWithdrawal(coll, x, k, decimals, price);
    EffectiveDrop(ToUsdWad(coll, decimals, price), ToUsdWad(coll - x, decimals, price), k, gap, lt);
  }

  /** How many raw units beyond the cap are certain to break the floor. */
  function CapSlack(lt: nat, decimals: nat, price: nat): nat
    requires lt > 0 && price > 0
  {
    1 + CeilDiv((1 + CeilDiv(BPS_DENOM, lt)) * Pow10(decimals), price)
  }

  lemma EffectiveBeyondCap(coll: nat, x: nat, gap: nat, lt: nat, decimals: nat, price: nat)
    requires lt > 0 && price > 0 && x <= coll
    requires x >= GapAsAmount(gap, lt, decimals, price) + CapSlack(lt, decimals, price)
    ensures EffectiveCollateral(ToUsdWad(coll - x, decimals, price), lt)
            < EffectiveCollateral(ToUsdWad(coll, decimals, price), lt) - gap
  {
    var unit, cap, q := Pow10(decimals), GapAsAmount(gap, lt, decimals, price), CeilDiv(BPS_DENOM, lt);
    var extra := CeilDiv((1 + q) * unit, price);
    var k := GapBounds(gap, lt, decimals, price);
    CeilDivBounds(BPS_DENOM, lt);
    CeilDivBounds((1 + q) * unit, price);
    MulMonotone(cap + 1 + extra, x, price);
    Distribute(cap + 1, extra, 0, price);
    Distribute(k, 1 + q, 0, unit);
    ValueAfterLargeWithdrawal(coll, x, k + 1 + q, decimals, price);
    EffectiveDropBeyond(ToUsdWad(coll, decimals, price), ToUsdWad(coll - x, decimals, price), k, q, gap, lt);
  }

  lemma EffectiveAfterDeposit(coll: nat, x: nat, gap: nat, lt: nat, decimals: nat, price: nat)
    requires lt > 0 && price > 0 && x <= GapAsAmount(gap, lt, decimals, price)
    ensures EffectiveCollateral(ToUsdWad(coll + x, decimals, price), lt)
            <= EffectiveCollateral(ToUsdWad(coll, decimals, price), lt) + gap
  {
    var k := GapBounds(gap, lt, decimals, price);
    MulMonotone(x, GapAsAmount(gap, lt, decimals, price), price);
    ValueAfterDeposit(coll, x, k, decimals, price);
    EffectiveRise(ToUsdWad(coll, decimals, price), ToUsdWad(coll + x, decimals, price), k, gap, lt);
  }

  /** How far short of the wanted effective collateral the full top-up may fall. */
  function TopUpShortfall(lt: nat, decimals: nat, price: nat): nat {
    CeilDiv((CeilDiv(price, Pow10(decimals)) + 1) * lt, BPS_DENOM)
  }

  lemma EffectiveAfterFullDeposit(coll: nat, gap: nat, lt: nat, decimals: nat, price: nat)
    requires lt > 0 && price > 0
    ensures EffectiveCollateral(ToUsdWad(coll + GapAsAmount(gap, lt, decimals, price), decimals, price), lt)
            >= EffectiveCollateral(ToUsdWad(coll, decimals, price), lt) + gap - TopUpShortfall(lt, decimals, price)
  {
    var x := GapAsAmount(gap, lt, decimals, price);
    var k := GapBounds(gap, lt, decimals, price);
    ValueAfterPurchase(coll, x, k, decimals, price);
    EffectiveRiseFully(ToUsdWad(coll, decimals, price), ToUsdWad(coll + x, decimals, price), k,
                       CeilDiv(price, Pow10(decimals)), gap, lt);
  }

  // ---- the source ----

  lemma CapWithinOwnOrTotal(source: FlatPosition, floorHfBps: nat, market: Market)
    ensures SourceHfSafeCap(source, floorHfBps, market) <= source.position.collateralAmount
            <==> FloorApplies(source.position, floorHfBps, market)
                 || source.availableCollateral <= source.position.collateralAmount
  {
    var p := source.position;
    if FloorApplies(p, floorHfBps, market) {
      var gap := EffectiveUsd(p, market) - EffectiveAtHf(floorHfBps, DebtUsd(p, market));
      if p.liquidationThresholdBps != 0 && gap > 0 {
        CapWithinCollateral(p.collateralAmount, gap, p.liquidationThresholdBps,
                            market.Decimals(p.collateralAsset), market.Price(p.collateralAsset));
      }
    }
  }

  lemma {:induction false} TotalVersusOne(positions: seq<Position>, i: nat)
    requires i < |positions|
    ensures TotalCollateral(positions) >= positions[i].collateralAmount
    ensures TotalCollateral(positions) == positions[i].collateralAmount
            <==> forall j :: 0 <= j < |positions| && j != i ==> positions[j].collateralAmount == 0
  {
    var rest := positions[..|positions| - 1];
    if i < |rest| {
      TotalVersusOne(rest, i);
      assert forall j :: 0 <= j < |rest| ==> rest[j] == positions[j];
    } else {
      TotalIsZero(rest);
      assert forall j :: 0 <= j < |rest| ==> rest[j] == positions[j];
    }
  }

  lemma {:induction false} TotalIsZero(positions: seq<Position>)
    ensures TotalCollateral(positions) == 0
            <==> forall j :: 0 <= j < |positions| ==> positions[j].collateralAmount == 0
  {
    if positions != [] {
      var rest := positions[..|positions| - 1];
      TotalIsZero(rest);
      assert forall j :: 0 <= j < |rest| ==> rest[j] == positions[j];
    }
  }

  /** The cap of a position stays within its own collateral exactly when the floor branch is taken, or every
      other position discovered at the adapter holds no collateral. */
  lemma SourceCapWithinPosition(adapter: AdapterRead, i: nat, floorHfBps: nat, market: Market)
    requires adapter.positions.Some? && i < |adapter.positions.value|
    ensures var positions := adapter.positions.value;
            SourceHfSafeCap(AtAdapter(SnapshotOf(adapter), positions[i]), floorHfBps, market)
            <= positions[i].collateralAmount
            <==> FloorApplies(positions[i], floorHfBps, market)
                 || forall j :: 0 <= j < |positions| && j != i ==> positions[j].collateralAmount == 0
  {
    CapWithinOwnOrTotal(AtAdapter(SnapshotOf(adapter), adapter.positions.value[i]), floorHfBps, market);
    TotalVersusOne(adapter.positions.value, i);
  }

  /** Two positions discovered at one adapter, the first indebted in an asset without price: its cap is the
      adapter's whole collateral, more than it holds itself. */
  lemma SourceCapExceedsPositionWithoutPrice()
    ensures exists adapter: AdapterRead, market: Market ::
              var flat := Flatten(SnapshotsOf([adapter]));
              && |flat| == 2 && flat[0].position.debtAmount > 0
              && SourceHfSafeCap(flat[0], 11250, market) > flat[0].position.collateralAmount
  {
    var p, q := Position("weth", "usdc", 5, 1, 0, 8000), Position("weth", "usdc", 7, 0, 0, 8000);
    var adapter := AdapterRead("aave", Some([p, q]), None, "", None);
    var market := Market(map["weth" := WAD], map[]);
    hide Flatten, SnapshotsOf, SnapshotOf, AtAdapter, ToUsdWad, EffectiveUsd;
    PairFlattened(adapter, p, q);
    var flat := Flatten(SnapshotsOf([adapter]));
    assert !FloorApplies(flat[0].position, 11250, market);
    assert SourceHfSafeCap(flat[0], 11250, market) == 12;
  }

  /** Two positions of one adapter, discovered and flattened, share the sum of their collateral. */
  lemma PairFlattened(adapter: AdapterRead, p: Position, q: Position)
    requires adapter.positions == Some([p, q])
    ensures var flat := Flatten(SnapshotsOf([adapter]));
            && |flat| == 2 && flat[0].position == p && flat[1].position == q
            && flat[0].availableCollateral == flat[1].availableCollateral == p.collateralAmount + q.collateralAmount
  {
    assert [p, q][..1] == [p] && [p][..0] == [];
    assert TotalCollateral([p, q]) == TotalCollateral([p]) + q.collateralAmount;
    assert TotalCollateral([p]) == p.collateralAmount;
    var snap := SnapshotOf(adapter);
    assert [adapter][..0] == [] && [snap][..0] == [];
    assert SnapshotsOf([adapter]) == [snap];
    assert Flatten([]) + FlattenOne(snap, 2) == FlattenOne(snap, 2);
  }

  /** Any withdrawal the cap admits leaves the source at its floor, through all four roundings, and its
      recomputed health factor at most one wei short of it once the debt is worth a dollar. */
  lemma SourceKeepsFloor(source: FlatPosition, floorHfBps: nat, market: Market, x: nat)
    requires FloorApplies(source.position, floorHfBps, market)
    requires 0 < x <= SourceHfSafeCap(source, floorHfBps, market)
    ensures x <= source.position.collateralAmount
    ensures var p, after := source.position, Withdrawn(source.position, x);
            && EffectiveUsd(after, market) >= EffectiveAtHf(floorHfBps, DebtUsd(p, market))
            && (DebtUsd(p, market) > 0 ==>
                  PositionHf(after, market) + CeilDiv(WAD - 1, DebtUsd(p, market)) >= floorHfBps * WAD_PER_BPS)
            && (DebtUsd(p, market) >= WAD ==> PositionHf(after, market) + 1 >= floorHfBps * WAD_PER_BPS)
  {
    CapWithinOwnOrTotal(source, floorHfBps, market);
    var p, after := source.position, Withdrawn(source.position, x);
    var floor, debt := floorHfBps * WAD_PER_BPS, DebtUsd(p, market);
    var minEffective := EffectiveAtHf(floorHfBps, debt);
    EffectiveAfterWithdrawal(p.collateralAmount, x, EffectiveUsd(p, market) - minEffective, p.liquidationThresholdBps,
                             market.Decimals(p.collateralAsset), market.Price(p.collateralAsset));
    if debt > 0 {
      HfFromEffective(EffectiveUsd(after, market), floor, debt, CeilDiv(WAD - 1, debt));
    }
    if debt >= WAD {
      HfFromEffective(EffectiveUsd(after, market), floor, debt, 1);
    }
  }

  lemma HfFromEffective(effective: nat, hfWad: nat, debt: nat, slack: nat)
    requires debt > 0 && effective >= hfWad * debt / WAD
    requires slack == CeilDiv(WAD - 1, debt) || slack * debt >= WAD - 1
    ensures HealthFactor(effective, debt) + slack >= hfWad
  {
    CeilDivBounds(WAD - 1, debt);
    DivBounds(hfWad * debt, WAD);
    MulMonotone(hfWad * debt / WAD, effective, WAD);
    assert (hfWad - slack) * debt == hfWad * debt - slack * debt;
    DivAtLeast(effective * WAD, debt, hfWad - slack);
  }

  /** The cap is not timid: a withdrawal only CapSlack raw units above it already breaks the floor. */
  lemma SourceCapIsTight(source: FlatPosition, floorHfBps: nat, market: Market, x: nat)
    requires FloorApplies(source.position, floorHfBps, market)
    requires source.position.liquidationThresholdBps > 0 && x <= source.position.collateralAmount
    requires x >= SourceHfSafeCap(source, floorHfBps, market)
                  + CapSlack(source.position.liquidationThresholdBps,
                             market.Decimals(source.position.collateralAsset),
                             market.Price(source.position.collateralAsset))
    ensures EffectiveUsd(Withdrawn(source.position, x), market)
            < EffectiveAtHf(floorHfBps, DebtUsd(source.position, market))
  {
    var p := source.position;
    var decimals, price := market.Decimals(p.collateralAsset), market.Price(p.collateralAsset);
    var effective, minEffective := EffectiveUsd(p, market), EffectiveAtHf(floorHfBps, DebtUsd(p, market));
    if effective > minEffective {
      EffectiveBeyondCap(p.collateralAmount, x, effective - minEffective, p.liquidationThresholdBps, decimals, price);
    } else {
      GapOfZero(p.liquidationThresholdBps, decimals, price);
      EffectiveBeyondCap(p.collateralAmount, x, 0, p.liquidationThresholdBps, decimals, price);
    }
  }

  lemma GapOfZero(lt: nat, decimals: nat, price: nat)
    requires lt > 0
    ensures GapAsAmount(0, lt, decimals, price) == 0
  {
    DivAtMost(0, lt, 0);
  }

  // ---- topping up ----

  predicate BelowTarget(p: Position, targetHfBps: nat, market: Market) {
    DebtUsd(p, market) > 0 && PositionHf(p, market) <= targetHfBps * WAD_PER_BPS
  }

  /** No top-up of at most the estimated amount lifts a position above the target. */
  lemma TopUpNeverOvershoots(target: Position, targetHfBps: nat, market: Market, x: nat)
    requires Priced(target, market) && targetHfBps > 0 && BelowTarget(target, targetHfBps, market)
    requires x <= EstimateNeededAction(TopUp, target, targetHfBps, market)
    ensures BelowTarget(ToppedUp(target, x), targetHfBps, market)
  {
    var debt, hf := DebtUsd(target, market), targetHfBps * WAD_PER_BPS;
    var wanted, effective := EffectiveAtHf(targetHfBps, debt), EffectiveUsd(target, market);
    if x > 0 {
      EffectiveAfterDeposit(target.collateralAmount, x, wanted - effective, target.liquidationThresholdBps,
                            market.Decimals(target.collateralAsset), market.Price(target.collateralAsset));
      HfAtMost(EffectiveUsd(ToppedUp(target, x), market), hf, debt);
    }
  }

  lemma HfAtMost(effective: nat, hfWad: nat, debt: nat)
    requires debt > 0 && effective <= hfWad * debt / WAD
    ensures HealthFactor(effective, debt) <= hfWad
  {
    DivBounds(hfWad * debt, WAD);
    MulMonotone(effective, hfWad * debt / WAD, WAD);
    Distribute(hfWad, 1, 0, debt);
    DivAtMost(effective * WAD, debt, hfWad);
  }

  /** The full estimate brings the effective collateral to the wanted value up to the rounding of one raw
      unit of collateral; a position whose collateral never counts gets no top-up, and none would help. */
  lemma TopUpReachesTarget(target: Position, targetHfBps: nat, market: Market)
    requires Priced(target, market) && targetHfBps > 0
    ensures var x := EstimateNeededAction(TopUp, target, targetHfBps, market);
            if target.liquidationThresholdBps > 0 then
              EffectiveUsd(ToppedUp(target, x), market)
              >= EffectiveAtHf(targetHfBps, DebtUsd(target, market))
                 - TopUpShortfall(target.liquidationThresholdBps, market.Decimals(target.collateralAsset),
                                  market.Price(target.collateralAsset))
            else x == 0 && forall y: nat :: EffectiveUsd(ToppedUp(target, y), market) == 0
  {
    var wanted, effective := EffectiveAtHf(targetHfBps, DebtUsd(target, market)), EffectiveUsd(target, market);
    if target.liquidationThresholdBps == 0 {
      forall y: nat
        ensures EffectiveUsd(ToppedUp(target, y), market) == 0
      {
        NothingCounts(CollateralUsd(ToppedUp(target, y), market));
      }
    } else if wanted > effective {
      EffectiveAfterFullDeposit(target.collateralAmount, wanted - effective, target.liquidationThresholdBps,
                                market.Decimals(target.collateralAsset), market.Price(target.collateralAsset));
    }
  }

  lemma NothingCounts(usd: nat)
    ensures EffectiveCollateral(usd, 0) == 0
  {
  }

  // ---- repaying ----

  /** A repayment of at most the estimate never exceeds the debt and never pushes it below what the
      collateral supports at the target; the full estimate leaves it at most one raw unit's price above. */
  lemma RepayReachesTarget(target: Position, targetHfBps: nat, market: Market, x: nat)
    requires Priced(target, market) && targetHfBps > 0
    requires x <= EstimateNeededAction(Repay, target, targetHfBps, market)
    ensures x <= target.debtAmount
    ensures var supported := DebtAtHf(EffectiveUsd(target, market), targetHfBps);
            && (x > 0 ==> DebtUsd(Repaid(target, x), market) >= supported)
            && (x == EstimateNeededAction(Repay, target, targetHfBps, market) ==>
                  DebtUsd(Repaid(target, x), market)
                  <= supported + CeilDiv(market.Price(target.debtAsset), Pow10(market.Decimals(target.debtAsset))))
  {
    var debt, decimals, price := target.debtAmount, market.Decimals(target.debtAsset), market.Price(target.debtAsset);
    var supported := DebtAtHf(EffectiveUsd(target, market), targetHfBps);
    if DebtUsd(target, market) > supported {
      RepayBounds(debt, x, DebtUsd(target, market) - supported, decimals, price);
    }
  }

  lemma RepayBounds(debt: nat, x: nat, cut: nat, decimals: nat, price: nat)
    requires price > 0 && cut <= ToUsdWad(debt, decimals, price)
    requires x <= FromUsdWadToAmount(cut, decimals, price)
    ensures x <= debt
    ensures ToUsdWad(debt - x, decimals, price) >= ToUsdWad(debt, decimals, price) - cut
    ensures x == FromUsdWadToAmount(cut, decimals, price) ==>
              ToUsdWad(debt - x, decimals, price)
              <= ToUsdWad(debt, decimals, price) - cut + CeilDiv(price, Pow10(decimals))
  {
    var full := FromUsdWadToAmount(cut, decimals, price);
    AmountBounds(cut, decimals, price);
    UsdBounds(debt, decimals, price);
    MulMonotone(cut, ToUsdWad(debt, decimals, price), Pow10(decimals));
    MulCancel(full, debt, price);
    MulMonotone(x, full, price);
    ValueAfterWithdrawal(debt, x, cut, decimals, price);
    if x == full {
      ValueAfterRepurchase(debt, x, cut, decimals, price);
    }
  }
}
