/**
 The workflow from price reports to plan: the guard decides on the same reports that the planner then sizes by.
 */
module GuardedPlan {
  import opened Common
  import opened RescuePlanner
  import opened RiskGuard

  /** A gate ends the run the way an abort of the guard does. */
  function GuardDecision(v: Verdict): Decision {
    match v
    case Gated(_) => Abort
    case Decided(decision) => decision
  }

  function RunWorkflow(snapshots: seq<Snapshot>, assets: seq<Address>, reports: map<Address, Report>,
                       decimals: map<Address, nat>, cfg: GuardConfig, now: int, policy: Policy, request: Request,
                       chain: ChainReads): Outcome
    requires policy.Valid()
  {
    PlanRescue(GuardDecision(Evaluate(snapshots, assets, reports, decimals, cfg, now)), Flatten(snapshots),
               MarketIn(reports, decimals), policy, request, chain)
  }

  ghost predicate Weak(p: Position, market: Market, cfg: GuardConfig, scan: Scan) {
    Indebted(p, market) && Penalised(PositionHfWad(p, market), TotalPenaltyBps(scan, cfg)) <= ThresholdWad(cfg)
  }

  /** A plan is emitted only while some indebted position, at the reported prices and after the penalty, is at
      or under a threshold, no gate objects, no other rescue is under way, and the execution id is fresh. */
  lemma PlansOnlyAtRisk(snapshots: seq<Snapshot>, assets: seq<Address>, reports: map<Address, Report>,
                        decimals: map<Address, nat>, cfg: GuardConfig, now: int, policy: Policy, request: Request,
                        chain: ChainReads)
    requires policy.Valid() && SafeThresholds(cfg)
    ensures RunWorkflow(snapshots, assets, reports, decimals, cfg, now, policy, request, chain).Planned? ==>
            var scan := ScanAll(assets, reports, cfg, now);
            && Gate(scan, cfg) == None
            && (exists p :: p in Flatten(snapshots) && Weak(p.position, MarketIn(reports, decimals), cfg, scan))
            && chain.rescueInProgress == Some(false) && !chain.PendingSettlement() && chain.rescueStatus == Some(0)
  {
    hide AtRisk, Flatten, ScanAll, Total, Select, Finish;
    if RunWorkflow(snapshots, assets, reports, decimals, cfg, now, policy, request, chain).Planned? {
      GuardDecidesByRisk(snapshots, assets, reports, decimals, cfg, now);
      RiskIsWeak(Flatten(snapshots), MarketIn(reports, decimals), cfg, ScanAll(assets, reports, cfg, now));
    }
  }

  lemma RiskIsWeak(flat: seq<FlatPosition>, market: Market, cfg: GuardConfig, scan: Scan)
    requires AtRisk(flat, market, TotalPenaltyBps(scan, cfg), ThresholdWad(cfg))
    ensures exists p :: p in flat && Weak(p.position, market, cfg, scan)
  {
    hide Penalised, PositionHfWad, TotalPenaltyBps, ThresholdWad;
    var p :| p in flat && Indebted(p.position, market)
             && Penalised(PositionHfWad(p.position, market), TotalPenaltyBps(scan, cfg)) <= ThresholdWad(cfg);
    assert Weak(p.position, market, cfg, scan);
  }
}
