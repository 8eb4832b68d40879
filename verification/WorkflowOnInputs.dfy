/**
 The workflow from end to end: exactly when reports, positions, policy, request and contract reads lead to a plan.
 */
module WorkflowOnInputs {
  import opened Common
  import opened FixedPoint
  import opened RescuePlanner
  import opened RiskGuard
  import opened GuardedPlan
  import opened PlanOnInputs
  import opened GuardOnInputs

  /** No gate of the guard has reason to object. */
  ghost predicate ReportsClear(snapshots: seq<Snapshot>, assets: seq<Address>, reports: map<Address, Report>,
                               cfg: GuardConfig, now: int)
  {
    && snapshots != [] && !(cfg.abortOnMissingPrice && SomeMissing(assets, reports))
    && !(cfg.staleAborts && SomeTooOld(assets, reports, cfg, now)) && !SomeForged(assets, reports)
    && cfg.priceShockAbortBps > 0 && !SomeMoved(assets, reports, cfg.priceShockAbortBps)
  }

  ghost predicate SomeLow(flat: seq<FlatPosition>, market: Market, cfg: GuardConfig, penaltyBps: nat) {
    exists f, hf :: f in flat && Low(f.position, hf, market, cfg, penaltyBps)
  }

  /** No rescue is under way or awaits settlement, and the execution id is unused. */
  predicate ReadsClear(chain: ChainReads) {
    && chain.rescueInProgress == Some(false) && chain.rescueStatus == Some(0)
    && !(chain.pending.Some? && chain.pending.value.status == Some(2) && chain.pending.value.hasMessageId == Some(true))
  }

  /** The selection can be carried out, for an amount worth moving. */
  predicate Worthwhile(s: Selection, policy: Policy, request: Request, market: Market)
    requires policy.Valid()
  {
    var asset, amount := s.source.position.collateralAsset, ActionAmount(s, policy, request, market);
    var minimum: int := if request.minActionUsd.Some? then request.minActionUsd.value else policy.minActionUsd;
    && (s.isCrossChain || asset == AssetOf(s, request))
    && (s.isCrossChain ==> DestinationOf(s, policy, request) != 0)
    && amount > 0
    && (market.Price(asset) > 0 && minimum > 0 ==>
          minimum * WAD <= ToUsdWad(amount, market.Decimals(asset), market.Price(asset)))
  }

  /** A plan is emitted if and only if no gate objects, some position is low, nothing on chain stands in the way,
      and target and source can be found between which a worthwhile amount can move. */
  lemma PlannedIff(snapshots: seq<Snapshot>, assets: seq<Address>, reports: map<Address, Report>,
                   decimals: map<Address, nat>, cfg: GuardConfig, now: int, policy: Policy, request: Request,
                   chain: ChainReads)
    requires policy.Valid() && SafeThresholds(cfg)
    ensures var flat, market := Flatten(snapshots), MarketIn(reports, decimals);
            RunWorkflow(snapshots, assets, reports, decimals, cfg, now, policy, request, chain).Planned?
            <==> && ReportsClear(snapshots, assets, reports, cfg, now)
                 && SomeLow(flat, market, cfg, TotalPenaltyBps(ScanAll(assets, reports, cfg, now), cfg))
                 && ReadsClear(chain)
                 && Select(flat, policy, request).Ok?
                 && Worthwhile(Select(flat, policy, request).value, policy, request, market)
  {
    hide Flatten, MarketIn, ScanAll, TotalPenaltyBps, Evaluate, PlanRescue, Select, SomeMissing, SomeTooOld,
         SomeForged, SomeMoved, Low, Worthwhile, ReadsClear;
    var flat, market := Flatten(snapshots), MarketIn(reports, decimals);
    var verdict := Evaluate(snapshots, assets, reports, decimals, cfg, now);
    GatedIff(snapshots, assets, reports, decimals, cfg, now);
    PlansIff(GuardDecision(verdict), flat, market, policy, request, chain);
    if verdict.Decided? {
      RescuesIff(snapshots, assets, reports, decimals, cfg, now);
      DecidesRoute(snapshots, assets, reports, decimals, cfg, now);
    }
  }

  lemma PlansIff(guard: Decision, flat: seq<FlatPosition>, market: Market, policy: Policy, request: Request,
                 chain: ChainReads)
    requires policy.Valid()
    ensures PlanRescue(guard, flat, market, policy, request, chain).Planned?
            <==> && guard !in {Abort, NoAction} && ReadsClear(chain) && Select(flat, policy, request).Ok?
                 && Worthwhile(Select(flat, policy, request).value, policy, request, market)
  {
    hide PlanRescue, Select, Finish, Worthwhile, AssetOf;
    GatesIff(guard, flat, market, policy, request, chain);
    assert chain.rescueInProgress.Some? ==>
             chain.rescueInProgress == (if chain.rescueInProgress.value then Some(true) else Some(false));
    match Select(flat, policy, request)
    case Err(_) =>
    case Ok(s) => FinishesIff(s, policy, request, market);
  }

  lemma DecidesRoute(snapshots: seq<Snapshot>, assets: seq<Address>, reports: map<Address, Report>,
                     decimals: map<Address, nat>, cfg: GuardConfig, now: int)
    requires Evaluate(snapshots, assets, reports, decimals, cfg, now).Decided?
    ensures Evaluate(snapshots, assets, reports, decimals, cfg, now).decision
            in {NoAction, RescueSameChain, RescueCrossChain}
  {
    hide ScanAll, Total, TotalPenaltyBps, WeakestEffectiveHf, CanCrossChain;
  }

  lemma FinishesIff(s: Selection, policy: Policy, request: Request, market: Market)
    requires policy.Valid()
    ensures Worthwhile(s, policy, request, market)
            <==> (s.isCrossChain || s.source.position.collateralAsset == AssetOf(s, request))
                 && Finish(s, policy, request, market).Planned?
  {
    hide Finish, ActionAmount, ToUsdWad;
    FinishIff(s, policy, request, market);
  }
}
