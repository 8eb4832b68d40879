/**
 The planner's promises in terms of positions, policy and request alone: where each limit comes from when a
 request overrides the policy, why a plan is refused, and which step a plan is.
 */
module PlanOnInputs {
  import opened Common
  import opened FixedPoint
  import opened RescuePlanner
  import opened RescueSizing
  import opened RescuePlanTheorems

  // ---- discovery ----

  /** Every snapshot is an adapter that answered with positions, its collateral the sum over them. */
  lemma {:induction false} SnapshotsMembers(adapters: seq<AdapterRead>, snap: Snapshot)
    ensures snap in SnapshotsOf(adapters)
            <==> exists a :: a in adapters && a.positions == Some(snap.positions) && snap.positions != []
                             && snap.adapterAddress == a.adapterAddress && snap.isConfiguredAdapter
                             && snap.chainId == a.chainId && snap.chainKey == a.chainKey
                             && snap.rescueTargetChainSelector == a.rescueTargetChainSelector
                             && snap.availableCollateral == TotalCollateral(a.positions.value)
  {
    if adapters != [] {
      var front, last := adapters[..|adapters| - 1], adapters[|adapters| - 1];
      SnapshotsMembers(front, snap);
      assert adapters == front + [last];
    }
  }

  /** A listed position is one of a snapshot, with that snapshot's particulars. */
  lemma {:induction false} FlattenMembers(snapshots: seq<Snapshot>, f: FlatPosition)
    ensures f in Flatten(snapshots)
            <==> exists snap :: snap in snapshots && f.position in snap.positions
                                && f.adapterAddress == snap.adapterAddress
                                && f.availableCollateral == snap.availableCollateral
                                && f.chainId == snap.chainId && f.chainKey == snap.chainKey
                                && f.isConfiguredAdapter == snap.isConfiguredAdapter
                                && f.rescueTargetChainSelector == snap.rescueTargetChainSelector
  {
    if snapshots != [] {
      var front, last := snapshots[..|snapshots| - 1], snapshots[|snapshots| - 1];
      FlattenMembers(front, f);
      assert snapshots == front + [last];
      var part := FlattenOne(last, |last.positions|);
      assert Flatten(snapshots) == Flatten(front) + part;
      OneMembers(last, f);
    }
  }

  lemma OneMembers(snap: Snapshot, f: FlatPosition)
    ensures f in FlattenOne(snap, |snap.positions|)
            <==> f.position in snap.positions && f == AtAdapter(snap, f.position)
  {
    var part := FlattenOne(snap, |snap.positions|);
    if f in part {
      var i :| 0 <= i < |part| && part[i] == f;
    }
    if f.position in snap.positions && f == AtAdapter(snap, f.position) {
      var i :| 0 <= i < |snap.positions| && snap.positions[i] == f.position;
      assert part[i] == f;
    }
  }

  // ---- selection ----

  /** The rescue mode, by what the moved asset is to the target and whether the debts match. */
  lemma ModeIff(source: Position, target: Position, assetMap: map<Address, Address>)
    ensures var moved := CanonicalAsset(source.collateralAsset, assetMap);
            var owed := CanonicalAsset(source.debtAsset, assetMap);
            var collateral := CanonicalAsset(target.collateralAsset, assetMap);
            var debt := CanonicalAsset(target.debtAsset, assetMap);
            && (InferRescueMode(source, target, assetMap) == Some(TopUp)
                <==> moved == collateral && (owed == debt || moved != debt))
            && (InferRescueMode(source, target, assetMap) == Some(Repay)
                <==> moved == debt && (owed != debt || moved != collateral))
  {
  }

  /** An asset the map does not name stands for itself, so equal assets are always compatible; two assets the
      map sends to the same one are, too. */
  lemma MappedAssetsServe(source: Position, target: Position, assetMap: map<Address, Address>)
    ensures source.collateralAsset == target.collateralAsset ==> InferRescueMode(source, target, assetMap).Some?
    ensures source.collateralAsset in assetMap && target.debtAsset in assetMap
            && assetMap[source.collateralAsset] == assetMap[target.debtAsset] ==>
              InferRescueMode(source, target, assetMap).Some?
    ensures source.collateralAsset !in assetMap && target.collateralAsset in assetMap
            && assetMap[target.collateralAsset] == source.collateralAsset ==>
              InferRescueMode(source, target, assetMap).Some?
    ensures source.collateralAsset !in assetMap && target.collateralAsset !in assetMap && target.debtAsset !in assetMap
            && source.collateralAsset != target.collateralAsset && source.collateralAsset != target.debtAsset ==>
              InferRescueMode(source, target, assetMap) == None
  {
  }

  /** Two positions count as apart when their chain ids are known and differ, or, failing that, their keys. */
  lemma ChainsDifferIff(a: FlatPosition, b: FlatPosition)
    ensures !IsSameChain(a, b)
            <==> (a.chainId.Some? && b.chainId.Some? && a.chainId.value != b.chainId.value)
                 || ((a.chainId.None? || b.chainId.None?)
                     && a.chainKey != "" && b.chainKey != "" && a.chainKey != b.chainKey)
  {
  }

  /** A source must be another, configured adapter with collateral, on the execution chain unless its chain is
      unknown, and of an asset that serves the target. */
  ghost predicate CanServe(p: FlatPosition, target: FlatPosition, policy: Policy) {
    && p.adapterAddress != target.adapterAddress && p.availableCollateral > 0 && p.isConfiguredAdapter
    && (p.chainKey == "" || p.chainKey == policy.executionChainKey)
    && InferRescueMode(p.position, target.position, policy.crossChainAssetMap).Some?
  }

  ghost predicate SomeServes(flat: seq<FlatPosition>, target: FlatPosition, policy: Policy, wanted: Option<Address>) {
    exists p :: p in flat && CanServe(p, target, policy) && (wanted == None || wanted == Some(p.adapterAddress))
  }

  lemma CandidatesServe(flat: seq<FlatPosition>, target: FlatPosition, policy: Policy, wanted: Option<Address>)
    ensures (exists c :: c in Candidates(flat, target, policy) && Allowed(c, wanted))
            <==> SomeServes(flat, target, policy, wanted)
  {
    if p :| p in flat && CanServe(p, target, policy) && (wanted == None || wanted == Some(p.adapterAddress)) {
      var c := Candidate(p, InferRescueMode(p.position, target.position, policy.crossChainAssetMap).value);
      assert c in Candidates(flat, target, policy) && Allowed(c, wanted);
    }
    if c :| c in Candidates(flat, target, policy) && Allowed(c, wanted) {
      assert CanServe(c.source, target, policy);
    }
  }

  /** Of candidates with the same highest collateral the first is taken. */
  lemma {:induction false} BestIsFirst(list: seq<Candidate>, wanted: Option<Address>, i: nat)
    requires i < |list| && Allowed(list[i], wanted)
    requires forall j :: 0 <= j < |list| && Allowed(list[j], wanted) ==>
               list[j].source.availableCollateral <= list[i].source.availableCollateral
    requires forall j :: 0 <= j < i && Allowed(list[j], wanted) ==>
               list[j].source.availableCollateral < list[i].source.availableCollateral
    ensures Best(list, wanted) == Some(list[i])
  {
    var rest := list[..|list| - 1];
    if i < |rest| {
      BestIsFirst(rest, wanted, i);
    } else {
      BestIsHighest(rest, wanted);
      if Best(rest, wanted).Some? {
        var j :| 0 <= j < |rest| && rest[j] == Best(rest, wanted).value;
      }
    }
  }

  /** For a given target: no source at all, none at the requested adapter, or a route the policy forbids; a
      plan goes across chains exactly when it is forced to or source and target are apart. */
  lemma SelectForIff(flat: seq<FlatPosition>, target: FlatPosition, policy: Policy, request: Request)
    ensures var r := SelectFor(flat, target, policy, request);
            && (r == Err(NoCompatibleSource) <==> !SomeServes(flat, target, policy, None))
            && (r == Err(NoEligibleSource)
                <==> SomeServes(flat, target, policy, None) && !SomeServes(flat, target, policy, request.sourceAdapter))
            && (r.Ok? ==> (r.value.isCrossChain <==> request.forceCrossChain || !IsSameChain(r.value.source, target)))
            && (r.Ok? && r.value.isCrossChain ==> policy.allowCrossChain)
            && (r.Err? ==> r.error in {NoCompatibleSource, NoEligibleSource, CrossChainDisabled})
            && (r == Err(CrossChainDisabled) ==>
                  !policy.allowCrossChain
                  && (request.forceCrossChain
                      || exists p :: p in flat && CanServe(p, target, policy) && !IsSameChain(p, target)))
  {
    hide SomeServes, IsSameChain, CanServe;
    var candidates := Candidates(flat, target, policy);
    CandidatesServe(flat, target, policy, None);
    CandidatesServe(flat, target, policy, request.sourceAdapter);
    BestIsHighest(candidates, request.sourceAdapter);
    assert candidates != [] ==> candidates[0] in candidates && Allowed(candidates[0], None);
    if Best(candidates, request.sourceAdapter).Some? {
      var source := Best(candidates, request.sourceAdapter).value.source;
      ChosenServes(flat, target, policy, Best(candidates, request.sourceAdapter).value);
    }
  }

  lemma ChosenServes(flat: seq<FlatPosition>, target: FlatPosition, policy: Policy, c: Candidate)
    requires c in Candidates(flat, target, policy)
    ensures c.source in flat && CanServe(c.source, target, policy)
  {
  }

  // ---- parameters ----

  /** Carrying out a plan leaves a priced, indebted source at the floor the request sets, or else at the
      policy's early warning. */
  lemma PlanKeepsNamedFloor(guard: Decision, flat: seq<FlatPosition>, market: Market, policy: Policy,
                            request: Request, chain: ChainReads, floor: nat)
    requires policy.Valid() && PlanRescue(guard, flat, market, policy, request, chain).Planned?
    requires request.sourceFloorHfBps == Some(floor)
             || (request.sourceFloorHfBps == None && policy.earlyWarningHfBps == floor)
    ensures Select(flat, policy, request).Ok?
    ensures var p := Select(flat, policy, request).value.source.position;
            var amount := PlanRescue(guard, flat, market, policy, request, chain).step.collateralAmount;
            floor > 0 && p.debtAmount > 0 && market.Price(p.collateralAsset) > 0 && market.Price(p.debtAsset) > 0 ==>
              && amount <= p.collateralAmount
              && (EffectiveUsd(Withdrawn(p, amount), market) + 1) * WAD > floor * WAD_PER_BPS * DebtUsd(p, market)
              && (DebtUsd(p, market) >= WAD ==>
                    PositionHf(Withdrawn(p, amount), market) + 1 >= floor * WAD_PER_BPS)
  {
    hide Select, PlanRescue, EffectiveUsd, DebtUsd, PositionHf;
    PlanKeepsSourceFloor(guard, flat, market, policy, request, chain);
    var p := Select(flat, policy, request).value.source.position;
    var amount := PlanRescue(guard, flat, market, policy, request, chain).step.collateralAmount;
    if FloorApplies(p, floor, market) {
      EffectiveAtHfMeans(floor, DebtUsd(p, market), EffectiveUsd(Withdrawn(p, amount), market) + 1);
    }
  }

  /** What a health factor asks for, as inequalities: the greatest effective collateral not beyond it, and the
      greatest debt it supports. */
  lemma EffectiveAtHfMeans(hfBps: nat, debtUsdWad: nat, q: nat)
    ensures q <= EffectiveAtHf(hfBps, debtUsdWad) <==> q * WAD <= hfBps * WAD_PER_BPS * debtUsdWad
  {
    DivReaches(hfBps * WAD_PER_BPS * debtUsdWad, WAD, q);
  }

  lemma DebtAtHfMeans(effectiveUsdWad: nat, hfBps: nat, q: nat)
    requires hfBps > 0
    ensures q <= DebtAtHf(effectiveUsdWad, hfBps) <==> q * (hfBps * WAD_PER_BPS) <= effectiveUsdWad * WAD
  {
    DivReaches(effectiveUsdWad * WAD, hfBps * WAD_PER_BPS, q);
  }

  /** Without a price the estimate is a tenth of the collateral or a fifth of the debt. */
  lemma EstimateWithoutPrice(target: Position, targetHfBps: nat, market: Market)
    requires market.Price(target.collateralAsset) == 0 || market.Price(target.debtAsset) == 0
    ensures var x := EstimateNeededAction(TopUp, target, targetHfBps, market);
            10 * x <= target.collateralAmount < 10 * x + 10
    ensures var y := EstimateNeededAction(Repay, target, targetHfBps, market);
            5 * y <= target.debtAmount < 5 * y + 5
  {
  }

  /** A missing price counts as 0, missing decimals as 18. */
  lemma MissingTerms(market: Market, asset: Address, amount: nat)
    ensures asset !in market.prices ==> ToUsdWad(amount, market.Decimals(asset), market.Price(asset)) == 0
    ensures asset in market.prices && asset !in market.decimals && market.prices[asset] > 0 ==>
              var usd := ToUsdWad(amount, market.Decimals(asset), market.Price(asset));
              usd * Pow10(18) <= amount * market.prices[asset] < (usd + 1) * Pow10(18)
  {
    hide Pow10;
    if asset in market.prices && market.prices[asset] > 0 {
      UsdBounds(amount, market.Decimals(asset), market.prices[asset]);
    }
  }

  /** All limits of the sized amount on the inputs; the amount is the largest within them. */
  ghost predicate Fits(s: Selection, a: nat, policy: Policy, request: Request, market: Market, targetHfBps: nat,
                       floor: nat)
  {
    && (match request.transferAmount
        case Some(t) => a <= t
        case None => a <= EstimateNeededAction(s.mode, s.target.position, targetHfBps, market))
    && a * BPS_DENOM <= s.source.availableCollateral * (BPS_DENOM - policy.reserveCapBps)
    && a <= SourceHfSafeCap(s.source, floor, market)
  }

  ghost predicate Terms(policy: Policy, request: Request, targetHfBps: nat, floor: nat) {
    && (request.sourceFloorHfBps == Some(floor)
        || (request.sourceFloorHfBps == None && policy.earlyWarningHfBps == floor))
    && targetHfBps >= 10000
    && (match (request.targetHfBps, policy.targetHfBps)
        case (Some(t), _) => targetHfBps == t || (t < 10000 && targetHfBps == 10000)
        case (None, Some(t)) => targetHfBps == t || (t < 10000 && targetHfBps == 10000)
        case (None, None) => targetHfBps == policy.earlyWarningHfBps
                             || (policy.earlyWarningHfBps < 10000 && targetHfBps == 10000))
  }

  lemma TermsMean(policy: Policy, request: Request, targetHfBps: nat, floor: nat)
    requires Terms(policy, request, targetHfBps, floor)
    ensures targetHfBps == TargetHfBps(policy, request) && floor == FloorHfBps(policy, request)
  {
  }

  lemma ReserveMeans(available: nat, reserveCapBps: nat, a: nat)
    requires reserveCapBps <= BPS_DENOM
    ensures a <= ReserveSafe(available, reserveCapBps) <==> a * BPS_DENOM <= available * (BPS_DENOM - reserveCapBps)
  {
    DivReaches(available * (BPS_DENOM - reserveCapBps), BPS_DENOM, a);
  }

  /** The sized amount fits, stays within the budget in dollars, and no amount that fits and whose exact value
      stays within the budget is larger. */
  lemma SizedOnInputs(s: Selection, policy: Policy, request: Request, market: Market, targetHfBps: nat, floor: nat)
    requires policy.Valid() && Terms(policy, request, targetHfBps, floor)
    ensures var asset, amount := s.source.position.collateralAsset, ActionAmount(s, policy, request, market);
            var price, unit := market.Price(asset), Pow10(market.Decimals(asset));
            var budget := if policy.maxRescueNotionalUsd > 0 then policy.maxRescueNotionalUsd * WAD else 0;
            && Fits(s, amount, policy, request, market, targetHfBps, floor)
            && (price > 0 ==> ToUsdWad(amount, market.Decimals(asset), price) <= budget)
            && (forall a: nat :: Fits(s, a, policy, request, market, targetHfBps, floor) && a * price <= budget * unit
                  ==> a <= amount)
  {
    hide EstimateNeededAction, SourceHfSafeCap, ActionAmount, ReserveSafe, ToUsdWad, Pow10;
    TermsMean(policy, request, targetHfBps, floor);
    SizedToTheLimits(s, policy, request, market);
    forall a: nat
      ensures WithinLimits(s, a, policy, request, market) <==> Fits(s, a, policy, request, market, targetHfBps, floor)
    {
      ReserveMeans(s.source.availableCollateral, policy.reserveCapBps, a);
    }
  }

  // ---- refusals and the step ----

  /** After the selection: nothing to move, too little to be worth it, or a crossing without a destination. */
  lemma FinishIff(s: Selection, policy: Policy, request: Request, market: Market)
    requires policy.Valid()
    ensures var outcome, amount := Finish(s, policy, request, market), ActionAmount(s, policy, request, market);
            var asset := s.source.position.collateralAsset;
            var minimum: int := if request.minActionUsd.Some? then request.minActionUsd.value else policy.minActionUsd;
            var tooLittle := market.Price(asset) > 0 && minimum > 0
                             && ToUsdWad(amount, market.Decimals(asset), market.Price(asset)) < minimum * WAD;
            && (outcome == Stop(Abort, AmountZero) <==> amount == 0)
            && (outcome == Stop(NoAction, BelowMinimum) <==> amount > 0 && tooLittle)
            && (outcome == Stop(Abort, SelectorMissing)
                <==> amount > 0 && !tooLittle && s.isCrossChain && DestinationOf(s, policy, request) == 0)
            && (outcome.Stop? ==> outcome in {Stop(Abort, AmountZero), Stop(NoAction, BelowMinimum),
                                              Stop(Abort, SelectorMissing)})
            && (outcome.Planned? ==>
                  && outcome.mode == s.mode && outcome.step.collateralAmount == amount
                  && outcome.step.targetChain == (if s.isCrossChain then DestinationOf(s, policy, request) else 0))
  {
    hide ActionAmount, ToUsdWad;
  }

  /** Where a crossing goes: the request's chain, else the source adapter's, else the policy's. */
  function DestinationOf(s: Selection, policy: Policy, request: Request): nat {
    match (request.targetChainSelector, s.source.rescueTargetChainSelector)
    case (Some(chain), _) => chain
    case (None, Some(chain)) => chain
    case (None, None) => policy.destinationChainSelector
  }

  /** The asset a plan must bring on one chain: the request's, else the leg of the target it is for. */
  function AssetOf(s: Selection, request: Request): Address {
    match (s.mode, request.targetCollateralAsset, request.targetDebtAsset)
    case (TopUp, Some(asset), _) => asset
    case (TopUp, None, _) => s.target.position.collateralAsset
    case (Repay, _, Some(asset)) => asset
    case (Repay, _, None) => s.target.position.debtAsset
  }

  /** The gates of a run, in their order, and what each answers. */
  lemma GatesIff(guard: Decision, flat: seq<FlatPosition>, market: Market, policy: Policy, request: Request,
                 chain: ChainReads)
    requires policy.Valid()
    ensures var outcome := PlanRescue(guard, flat, market, policy, request, chain);
            var pending := chain.pending.Some? && chain.pending.value.status == Some(2)
                           && chain.pending.value.hasMessageId == Some(true);
            && (guard in {Abort, NoAction} ==> outcome == Stop(guard, GuardVerdict))
            && (guard !in {Abort, NoAction} ==>
                  && (outcome == Stop(Abort, LockUnreadable) <==> chain.rescueInProgress == None)
                  && (outcome == Stop(Abort, AlreadyInProgress) <==> chain.rescueInProgress == Some(true))
                  && (outcome == Stop(NoAction, PendingSettlement)
                      <==> chain.rescueInProgress == Some(false) && pending)
                  && (chain.rescueInProgress == Some(false) && !pending ==>
                        match Select(flat, policy, request)
                        case Err(reason) => outcome == Stop(Abort, reason)
                        case Ok(s) =>
                          && (chain.rescueStatus == None ==> outcome == Stop(Abort, StatusUnreadable))
                          && (chain.rescueStatus.Some? && chain.rescueStatus.value != 0 ==>
                                outcome == Stop(NoAction, ExecutionIdUsed))
                          && (chain.rescueStatus == Some(0) ==>
                                if !s.isCrossChain && s.source.position.collateralAsset != AssetOf(s, request)
                                then outcome == Stop(Abort, NoSwapFailed)
                                else outcome == Finish(s, policy, request, market))))
  {
    hide Finish;
    if Select(flat, policy, request).Ok? {
      if Finish(Select(flat, policy, request).value, policy, request, market).Stop? {
        FinishReasons(Select(flat, policy, request).value, policy, request, market);
      }
    } else {
      SelectReasons(flat, policy, request);
    }
  }

  lemma FinishReasons(s: Selection, policy: Policy, request: Request, market: Market)
    requires policy.Valid() && Finish(s, policy, request, market).Stop?
    ensures Finish(s, policy, request, market).reason in {AmountZero, BelowMinimum, SelectorMissing}
  {
    hide ActionAmount;
  }

  lemma SelectReasons(flat: seq<FlatPosition>, policy: Policy, request: Request)
    requires Select(flat, policy, request).Err?
    ensures Select(flat, policy, request).error
            in {NoDebtBearing, NoCompatibleSource, NoEligibleSource, CrossChainDisabled}
  {
  }

  /** The target in numbers: with debt, and of those asked for none has a lower health factor. */
  lemma TargetHasLeastHealth(flat: seq<FlatPosition>, policy: Policy, request: Request)
    requires Select(flat, policy, request).Ok?
    ensures var target := Select(flat, policy, request).value.target;
            && target in flat && target.position.debtAmount > 0
            && forall p :: p in flat && p.position.debtAmount > 0
                           && (request.targetAdapter == Some(target.adapterAddress) ==>
                                 p.adapterAddress == target.adapterAddress) ==>
                 target.position.healthFactor <= p.position.healthFactor
  {
    SelectedIsPicked(flat, policy, request);
    hide ByRisk, PickTarget, Select;
    TargetIsWeakest(flat, request.targetAdapter);
  }
}
