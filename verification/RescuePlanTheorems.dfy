/**
 What an emitted rescue plan guarantees, whichever positions, prices, policy and request led to it.
 */
module RescuePlanTheorems {
  import opened Common
  import opened FixedPoint
  import opened RescuePlanner
  import opened RescueSizing
  import StableSort

  // ---- who is rescued ----

  lemma RiskIsPreorder()
    ensures StableSort.TotalPreorder(AtMostAsHealthy)
  {
  }

  lemma ByRiskAscends(list: seq<FlatPosition>)
    ensures forall i, j :: 0 <= i < j < |ByRisk(list)| ==> AtMostAsHealthy(ByRisk(list)[i], ByRisk(list)[j])
  {
    RiskIsPreorder();
    StableSort.SortSorted(AtMostAsHealthy, list);
  }

  lemma {:induction false} FoundAdapter(list: seq<FlatPosition>, adapter: Address) returns (i: int)
    ensures match FindAdapter(list, adapter)
            case Some(p) => 0 <= i < |list| && list[i] == p && p.adapterAddress == adapter
                            && forall j :: 0 <= j < i ==> list[j].adapterAddress != adapter
            case None => forall j :: 0 <= j < |list| ==> list[j].adapterAddress != adapter
  {
    if list == [] {
      i := 0;
    } else if list[0].adapterAddress == adapter {
      i := 0;
    } else {
      var k := FoundAdapter(list[1..], adapter);
      i := k + 1;
    }
  }

  predicate Matches(p: FlatPosition, wanted: Option<Address>) {
    wanted == None || wanted == Some(p.adapterAddress)
  }

  lemma PickedAt(list: seq<FlatPosition>, wanted: Option<Address>) returns (at: nat)
    requires list != []
    ensures at < |list| && PickTarget(list, wanted) == list[at]
    ensures Matches(list[at], wanted) ==> forall j :: 0 <= j < at ==> !Matches(list[j], wanted)
    ensures !Matches(list[at], wanted) ==> at == 0 && forall j :: 0 <= j < |list| ==> !Matches(list[j], wanted)
  {
    at := 0;
    if wanted.Some? {
      var i := FoundAdapter(list, wanted.value);
      at := if FindAdapter(list, wanted.value).Some? then i else 0;
    }
  }

  lemma PickedIsWeakest(sorted: seq<FlatPosition>, wanted: Option<Address>)
    requires sorted != []
    requires forall i, j :: 0 <= i < j < |sorted| ==> AtMostAsHealthy(sorted[i], sorted[j])
    ensures var target := PickTarget(sorted, wanted);
            && target in sorted
            && (Matches(target, wanted) || forall p :: p in sorted ==> !Matches(p, wanted))
            && (forall p :: p in sorted && (Matches(target, wanted) ==> Matches(p, wanted)) ==>
                  AtMostAsHealthy(target, p))
  {
    hide PickTarget;
    var at := PickedAt(sorted, wanted);
    assert sorted[at] in sorted;
  }

  lemma ByRiskMembers(list: seq<FlatPosition>)
    ensures forall p :: p in ByRisk(list) <==> p in list
  {
    forall p
      ensures p in ByRisk(list) <==> p in list
    {
      StableSort.SortMembers(AtMostAsHealthy, list, p);
    }
  }

  /** The target is a debt-bearing position; it is the weakest of those the request asked for, or of all
      of them when the request asked for none or for an adapter without debt. */
  lemma TargetIsWeakest(flat: seq<FlatPosition>, wanted: Option<Address>)
    requires DebtBearing(flat) != []
    ensures var target := PickTarget(ByRisk(DebtBearing(flat)), wanted);
            && target in flat && target.position.debtAmount > 0
            && (Matches(target, wanted) || forall p :: p in DebtBearing(flat) ==> !Matches(p, wanted))
            && (forall p :: p in DebtBearing(flat) && (Matches(target, wanted) ==> Matches(p, wanted)) ==>
                  AtMostAsHealthy(target, p))
  {
    hide ByRisk, PickTarget, AtMostAsHealthy;
    SortEmpty(DebtBearing(flat));
    ByRiskAscends(DebtBearing(flat));
    ByRiskMembers(DebtBearing(flat));
    PickedIsWeakest(ByRisk(DebtBearing(flat)), wanted);
  }

  /** Ties are broken by the order of discovery. */
  lemma TargetIsFirstOfItsRisk(flat: seq<FlatPosition>)
    requires DebtBearing(flat) != []
    ensures var target := PickTarget(ByRisk(DebtBearing(flat)), None);
            StableSort.Ties(AtMostAsHealthy, target, DebtBearing(flat)) != []
            && target == StableSort.Ties(AtMostAsHealthy, target, DebtBearing(flat))[0]
  {
    SortEmpty(DebtBearing(flat));
    RiskIsPreorder();
    var target := ByRisk(DebtBearing(flat))[0];
    StableSort.SortStable(AtMostAsHealthy, target, DebtBearing(flat));
  }

  // ---- where the money comes from ----

  lemma {:induction false} BestIsHighest(list: seq<Candidate>, wanted: Option<Address>)
    ensures match Best(list, wanted)
            case None => forall c :: c in list ==> !Allowed(c, wanted)
            case Some(best) =>
              && best in list && Allowed(best, wanted)
              && (forall c :: c in list && Allowed(c, wanted) ==>
                    c.source.availableCollateral <= best.source.availableCollateral)
  {
    if list != [] {
      var rest := list[..|list| - 1];
      BestIsHighest(rest, wanted);
      assert list == rest + [list[|list| - 1]];
    }
  }

  /** The mode names the leg of the target that the moved asset serves; no mode means neither leg does. */
  lemma ModeNamesServedLeg(source: Position, target: Position, assetMap: map<Address, Address>)
    ensures var moved := CanonicalAsset(source.collateralAsset, assetMap);
            match InferRescueMode(source, target, assetMap)
            case Some(TopUp) => moved == CanonicalAsset(target.collateralAsset, assetMap)
            case Some(Repay) => moved == CanonicalAsset(target.debtAsset, assetMap)
            case None => moved != CanonicalAsset(target.collateralAsset, assetMap)
                         && moved != CanonicalAsset(target.debtAsset, assetMap)
  {
  }

  ghost predicate SoundSelection(s: Selection, flat: seq<FlatPosition>, policy: Policy, request: Request) {
    && s.target in flat && s.target.position.debtAmount > 0
    && s.source in flat && InSourcePool(s.source, s.target, policy.executionChainKey)
    && Matches(s.source, request.sourceAdapter)
    && InferRescueMode(s.source.position, s.target.position, policy.crossChainAssetMap) == Some(s.mode)
    && (forall p :: p in flat && Matches(p, request.sourceAdapter)
                    && InSourcePool(p, s.target, policy.executionChainKey)
                    && InferRescueMode(p.position, s.target.position, policy.crossChainAssetMap).Some? ==>
          p.availableCollateral <= s.source.availableCollateral)
    && (s.isCrossChain ==> policy.allowCrossChain)
    && (!s.isCrossChain ==> IsSameChain(s.source, s.target))
  }

  lemma SelectionIsSound(flat: seq<FlatPosition>, policy: Policy, request: Request)
    requires Select(flat, policy, request).Ok?
    ensures SoundSelection(Select(flat, policy, request).value, flat, policy, request)
  {
    hide ByRisk, PickTarget, DebtBearing, Candidates, Best, InferRescueMode, InSourcePool, IsSameChain, AtMostAsHealthy;
    SortEmpty(DebtBearing(flat));
    TargetIsWeakest(flat, request.targetAdapter);
    var s := Select(flat, policy, request).value;
    var candidates := Candidates(flat, s.target, policy);
    BestIsHighest(candidates, request.sourceAdapter);
    forall p | p in flat && Matches(p, request.sourceAdapter) && InSourcePool(p, s.target, policy.executionChainKey)
               && InferRescueMode(p.position, s.target.position, policy.crossChainAssetMap).Some?
      ensures p.availableCollateral <= s.source.availableCollateral
    {
      var c := Candidate(p, InferRescueMode(p.position, s.target.position, policy.crossChainAssetMap).value);
      assert c in candidates;
    }
  }

  // ---- how much ----

  lemma ReserveRemains(available: nat, reserveCapBps: nat, amount: nat)
    requires reserveCapBps <= BPS_DENOM && amount <= ReserveSafe(available, reserveCapBps)
    ensures amount <= available
    ensures (available - amount) * BPS_DENOM >= available * reserveCapBps
  {
    DivBounds(available * (BPS_DENOM - reserveCapBps), BPS_DENOM);
    Distribute(BPS_DENOM, 0, reserveCapBps, available);
  }

  /** The notional re-clamp only lowers the amount, brings it within the budget, and cuts no deeper than
      the budget demands. */
  lemma ClampFitsBudget(amount: nat, maxNotionalWad: nat, decimals: nat, price: nat)
    ensures var r := ClampNotional(amount, maxNotionalWad, decimals, price);
            && r <= amount
            && (price != 0 ==> ToUsdWad(r, decimals, price) <= maxNotionalWad)
            && (forall a: nat :: a <= amount && a * price <= maxNotionalWad * Pow10(decimals) ==> a <= r)
  {
    if price != 0 && ToUsdWad(amount, decimals, price) > maxNotionalWad {
      var r := FromUsdWadToAmount(maxNotionalWad, decimals, price);
      AmountBounds(maxNotionalWad, decimals, price);
      UsdBounds(amount, decimals, price);
      MulMonotone(maxNotionalWad, ToUsdWad(amount, decimals, price), Pow10(decimals));
      MulCancel(r, amount, price);
      Distribute(maxNotionalWad, 1, 0, Pow10(decimals));
      UsdAtMost(r, decimals, price, maxNotionalWad);
      forall a: nat | a * price <= maxNotionalWad * Pow10(decimals)
        ensures a <= r
      {
        AmountAtLeast(maxNotionalWad, decimals, price, a);
      }
    }
  }

  ghost predicate WithinLimits(s: Selection, amount: nat, policy: Policy, request: Request, market: Market)
    requires policy.Valid()
  {
    && amount <= DesiredAmount(s, policy, request, market)
    && amount <= ReserveSafe(s.source.availableCollateral, policy.reserveCapBps)
    && amount <= SourceHfSafeCap(s.source, FloorHfBps(policy, request), market)
  }

  /** The sized amount respects every limit at once, and every amount that respects them, its exact value
      staying within the budget, is at most as large. */
  lemma SizedToTheLimits(s: Selection, policy: Policy, request: Request, market: Market)
    requires policy.Valid()
    ensures var asset, amount := s.source.position.collateralAsset, ActionAmount(s, policy, request, market);
            && WithinLimits(s, amount, policy, request, market)
            && (market.Price(asset) != 0 ==>
                  ToUsdWad(amount, market.Decimals(asset), market.Price(asset)) <= MaxNotionalWad(policy))
            && (forall a: nat :: WithinLimits(s, a, policy, request, market)
                                 && a * market.Price(asset) <= MaxNotionalWad(policy) * Pow10(market.Decimals(asset))
                  ==> a <= amount)
  {
    var asset := s.source.position.collateralAsset;
    var bounded := Min(DesiredAmount(s, policy, request, market),
                       Min(ReserveSafe(s.source.availableCollateral, policy.reserveCapBps),
                           SourceHfSafeCap(s.source, FloorHfBps(policy, request), market)));
    ClampFitsBudget(bounded, MaxNotionalWad(policy), market.Decimals(asset), market.Price(asset));
  }

  // ---- the plan as a whole ----

  lemma PlanHasSelection(guard: Decision, flat: seq<FlatPosition>, market: Market, policy: Policy, request: Request,
                         chain: ChainReads)
    requires policy.Valid() && PlanRescue(guard, flat, market, policy, request, chain).Planned?
    ensures Select(flat, policy, request).Ok?
    ensures var s := Select(flat, policy, request).value;
            && PlanRescue(guard, flat, market, policy, request, chain) == Finish(s, policy, request, market)
            && (!s.isCrossChain ==> s.source.position.collateralAsset == TargetAsset(s, request))
  {
    hide Select, Finish;
  }

  /** Every emitted plan comes from a sound selection, moves a positive amount within all limits at once,
      leaves the reserve, stays between the minimum action and the notional budget in dollars, and moves
      one asset when it stays on one chain. */
  lemma PlanMeetsEveryLimit(guard: Decision, flat: seq<FlatPosition>, market: Market, policy: Policy,
                            request: Request, chain: ChainReads)
    requires policy.Valid() && PlanRescue(guard, flat, market, policy, request, chain).Planned?
    ensures Select(flat, policy, request).Ok?
    ensures var s := Select(flat, policy, request).value;
            var step := PlanRescue(guard, flat, market, policy, request, chain).step;
            var asset, amount := step.collateralAsset, step.collateralAmount;
            var usd := ToUsdWad(amount, market.Decimals(asset), market.Price(asset));
            && SoundSelection(s, flat, policy, request)
            && step.sourceAdapter == s.source.adapterAddress && asset == s.source.position.collateralAsset
            && 0 < amount <= s.source.availableCollateral
            && WithinLimits(s, amount, policy, request, market)
            && (s.source.availableCollateral - amount) * BPS_DENOM
               >= s.source.availableCollateral * policy.reserveCapBps
            && (market.Price(asset) != 0 ==>
                  MinActionUsd(policy, request) * WAD <= usd <= MaxNotionalWad(policy))
            && (!step.isCrossChain ==> asset == TargetAsset(s, request))
            && (step.isCrossChain ==> step.targetChain != 0)
            && step.isCrossChain == s.isCrossChain
            && step.debtAmount == (if s.mode == Repay then amount else 0)
            && (step.targetAdapter == s.target.adapterAddress <==> Matches(s.target, request.targetAdapter))
            && (step.debtAsset == s.target.position.debtAsset
                <==> s.mode == TopUp || request.targetDebtAsset in {None, Some(s.target.position.debtAsset)})
  {
    hide SoundSelection, Select, ActionAmount, WithinLimits, ToUsdWad, PlanRescue, Pow10;
    PlanHasSelection(guard, flat, market, policy, request, chain);
    SelectionIsSound(flat, policy, request);
    var s := Select(flat, policy, request).value;
    SizedToTheLimits(s, policy, request, market);
    ReserveRemains(s.source.availableCollateral, policy.reserveCapBps, ActionAmount(s, policy, request, market));
  }

  /** A plan names the position it was sized for exactly when the request names no target, or some position
      with debt is at the adapter it names. */
  lemma PlanNamesSizedTarget(guard: Decision, flat: seq<FlatPosition>, market: Market, policy: Policy,
                             request: Request, chain: ChainReads)
    requires policy.Valid() && PlanRescue(guard, flat, market, policy, request, chain).Planned?
    ensures Select(flat, policy, request).Ok?
    ensures PlanRescue(guard, flat, market, policy, request, chain).step.targetAdapter
            == Select(flat, policy, request).value.target.adapterAddress
            <==> request.targetAdapter.None?
                 || exists p :: p in flat && p.position.debtAmount > 0
                                && p.adapterAddress == request.targetAdapter.value
  {
    hide Finish, SoundSelection, WithinLimits, ByRisk, AtMostAsHealthy, Candidates, Best;
    PlanMeetsEveryLimit(guard, flat, market, policy, request, chain);
    SelectedIsPicked(flat, policy, request);
    TargetIsWeakest(flat, request.targetAdapter);
  }

  lemma SelectedIsPicked(flat: seq<FlatPosition>, policy: Policy, request: Request)
    requires Select(flat, policy, request).Ok?
    ensures DebtBearing(flat) != [] && ByRisk(DebtBearing(flat)) != []
    ensures Select(flat, policy, request).value.target == PickTarget(ByRisk(DebtBearing(flat)), request.targetAdapter)
  {
    hide ByRisk, PickTarget, DebtBearing, Candidates, Best;
    SortEmpty(DebtBearing(flat));
  }

  /** The planner gives up on a zero amount only when not even one raw unit fits every limit. */
  lemma ZeroOnlyWhenNothingFits(s: Selection, policy: Policy, request: Request, market: Market)
    requires policy.Valid() && Finish(s, policy, request, market) == Stop(Abort, AmountZero)
    ensures var asset := s.source.position.collateralAsset;
            !WithinLimits(s, 1, policy, request, market)
            || market.Price(asset) > MaxNotionalWad(policy) * Pow10(market.Decimals(asset))
  {
    SizedToTheLimits(s, policy, request, market);
    assert ActionAmount(s, policy, request, market) == 0;
    assert 1 * market.Price(s.source.position.collateralAsset) == market.Price(s.source.position.collateralAsset);
  }

  /** Carrying out a plan never takes the source below the floor its policy sets. */
  lemma PlanKeepsSourceFloor(guard: Decision, flat: seq<FlatPosition>, market: Market, policy: Policy,
                             request: Request, chain: ChainReads)
    requires policy.Valid() && PlanRescue(guard, flat, market, policy, request, chain).Planned?
    ensures Select(flat, policy, request).Ok?
    ensures var s := Select(flat, policy, request).value;
            var amount := PlanRescue(guard, flat, market, policy, request, chain).step.collateralAmount;
            var p, floor := s.source.position, FloorHfBps(policy, request);
            FloorApplies(p, floor, market) ==>
              && amount <= p.collateralAmount
              && EffectiveUsd(Withdrawn(p, amount), market) >= EffectiveAtHf(floor, DebtUsd(p, market))
              && (DebtUsd(p, market) >= WAD ==>
                    PositionHf(Withdrawn(p, amount), market) + 1 >= floor * WAD_PER_BPS)
  {
    PlanMeetsEveryLimit(guard, flat, market, policy, request, chain);
    var s := Select(flat, policy, request).value;
    var amount := PlanRescue(guard, flat, market, policy, request, chain).step.collateralAmount;
    if FloorApplies(s.source.position, FloorHfBps(policy, request), market) {
      SourceKeepsFloor(s.source, FloorHfBps(policy, request), market, amount);
    }
  }

  /** The asset of the target that the amount is sized in. */
  function SizedLeg(s: Selection): Address {
    match s.mode
    case TopUp => s.target.position.collateralAsset
    case Repay => s.target.position.debtAsset
  }

  function AssetOverride(s: Selection, request: Request): Option<Address> {
    match s.mode
    case TopUp => request.targetCollateralAsset
    case Repay => request.targetDebtAsset
  }

  /** The asset a plan moves is always the sized leg by the asset map; on one chain it is the sized leg itself
      exactly when the request names no other asset for it. */
  lemma PlanMovesSizedLeg(guard: Decision, flat: seq<FlatPosition>, market: Market, policy: Policy,
                          request: Request, chain: ChainReads)
    requires policy.Valid() && PlanRescue(guard, flat, market, policy, request, chain).Planned?
    ensures Select(flat, policy, request).Ok?
    ensures var s := Select(flat, policy, request).value;
            var step := PlanRescue(guard, flat, market, policy, request, chain).step;
            && CanonicalAsset(step.collateralAsset, policy.crossChainAssetMap)
               == CanonicalAsset(SizedLeg(s), policy.crossChainAssetMap)
            && (!step.isCrossChain ==>
                  (step.collateralAsset == SizedLeg(s) <==> AssetOverride(s, request) in {None, Some(SizedLeg(s))}))
  {
    hide Select, PlanRescue, WithinLimits;
    PlanMeetsEveryLimit(guard, flat, market, policy, request, chain);
    var s := Select(flat, policy, request).value;
    ModeNamesServedLeg(s.source.position, s.target.position, policy.crossChainAssetMap);
  }

  /** The amount of a plan, in raw units of the leg it is sized in (PlanMovesSizedLeg and PlanNamesSizedTarget say
      when the plan brings it there), never overshoots the target when it is no more than the estimate, whether the
      planner or the request set it; a plan the planner sized never moves more. A top-up then leaves
      the target's health factor at or below the wanted one, a repayment leaves the debt it supports. */
  lemma PlanNeverOvershootsTarget(guard: Decision, flat: seq<FlatPosition>, market: Market, policy: Policy,
                                  request: Request, chain: ChainReads)
    requires policy.Valid() && PlanRescue(guard, flat, market, policy, request, chain).Planned?
    ensures Select(flat, policy, request).Ok?
    ensures var s := Select(flat, policy, request).value;
            var amount := PlanRescue(guard, flat, market, policy, request, chain).step.collateralAmount;
            var p, hf := s.target.position, TargetHfBps(policy, request);
            var estimate := EstimateNeededAction(s.mode, p, hf, market);
            && (request.transferAmount == None || request.transferAmount.value <= estimate ==> amount <= estimate)
            && (Priced(p, market) && amount <= estimate ==>
                  && (s.mode == TopUp && BelowTarget(p, hf, market) ==> BelowTarget(ToppedUp(p, amount), hf, market))
                  && (s.mode == Repay ==>
                        amount <= p.debtAmount
                        && DebtUsd(Repaid(p, amount), market) >= DebtAtHf(EffectiveUsd(p, market), hf)))
  {
    PlanMeetsEveryLimit(guard, flat, market, policy, request, chain);
    var s := Select(flat, policy, request).value;
    var amount := PlanRescue(guard, flat, market, policy, request, chain).step.collateralAmount;
    var p, hf := s.target.position, TargetHfBps(policy, request);
    if Priced(p, market) && amount <= EstimateNeededAction(s.mode, p, hf, market) {
      match s.mode
      case TopUp =>
        if BelowTarget(p, hf, market) {
          TopUpNeverOvershoots(p, hf, market, amount);
        }
      case Repay => RepayReachesTarget(p, hf, market, amount);
    }
  }
}
