/**
 Simulation and workflow from end to end: stored positions in, verdict out, against price reports in, plan out.
 */
module WorkflowAgreement {
  import opened Common
  import opened FixedPoint
  import opened SimulationTheorems
  import P = RescuePlanner
  import S = PositionsSimulation
  import G = RiskGuard
  import A = PlannerAgreement
  import GA = GuardAgreement
  import W = GuardedPlan

  /** What the workflow reads: adapters' snapshots, price reports and token decimals. */
  datatype Inputs = Inputs(snapshots: seq<P.Snapshot>, assets: seq<P.Address>, reports: map<P.Address, G.Report>,
                           decimals: map<P.Address, nat>, cfg: G.GuardConfig, now: int) {
    function Market(): P.Market {
      G.MarketIn(reports, decimals)
    }

    function Scan(): G.Scan {
      G.ScanAll(assets, reports, cfg, now)
    }

    function Penalty(): (r: nat)
      ensures r <= G.MAX_PENALTY_BPS
    {
      G.TotalPenaltyBps(Scan(), cfg)
    }
  }

  /** The two sides look at the same portfolio under the same policy, at the same prices, past the gates. */
  ghost predicate SameCase(i: Inputs, flat: seq<S.SimFlat>, dto: S.Dto, sel: map<P.Address, nat>) {
    && i.snapshots != [] && P.Flatten(i.snapshots) == A.AsFlats(flat, sel)
    && G.Gate(i.Scan(), i.cfg) == None
    && i.cfg.onchainHfMinBps == dto.onchainHfMinBps && i.cfg.earlyWarningHfBps == dto.earlyWarningHfBps
    && GA.SafeThresholds(dto) && GA.AllStoredAt(flat, i.Market()) && A.Located(flat)
  }

  function RunOn(i: Inputs, canonicalMap: map<P.Address, P.Address>, dto: S.Dto, dest: nat): P.Outcome
    requires dto.Valid()
  {
    W.RunWorkflow(i.snapshots, i.assets, i.reports, i.decimals, i.cfg, i.now, A.AsPolicy(dto, canonicalMap, dest),
                  A.AsRequest(dto), A.CLEAR)
  }

  lemma GuardOutcome(i: Inputs, flat: seq<S.SimFlat>, dto: S.Dto, sel: map<P.Address, nat>)
    requires SameCase(i, flat, dto, sel)
    ensures var verdict := G.Evaluate(i.snapshots, i.assets, i.reports, i.decimals, i.cfg, i.now);
            && (verdict == G.Decided(P.NoAction) || verdict == G.Decided(P.RescueSameChain)
                || verdict == G.Decided(P.RescueCrossChain))
            && (verdict != G.Decided(P.NoAction)
                <==> G.AtRisk(A.AsFlats(flat, sel), i.Market(), i.Penalty(), ThresholdWad(dto)))
  {
    hide G.AtRisk, G.ScanAll, G.Total, P.Flatten, GA.AllStoredAt, G.CanCrossChain, G.WeakestEffectiveHf;
    G.GuardDecidesByRisk(i.snapshots, i.assets, i.reports, i.decimals, i.cfg, i.now);
  }

  lemma NoDebtNoRisk(flat: seq<S.SimFlat>, market: P.Market, sel: map<P.Address, nat>, penalty: nat, thresholdWad: nat)
    requires penalty <= G.MAX_PENALTY_BPS && !HasDebt(flat)
    ensures !G.AtRisk(A.AsFlats(flat, sel), market, penalty, thresholdWad)
  {
    hide G.Penalised, G.PositionHfWad, G.Indebted;
    var flats := A.AsFlats(flat, sel);
    forall p | p in flats
      ensures !G.Indebted(p.position, market)
    {
      var i :| 0 <= i < |flats| && flats[i] == p;
      assert flat[i] in flat;
      if G.Indebted(A.AsPosition(flat[i].position), market) {
        GA.IndebtedHasDebt(flat[i].position, market);
      }
    }
  }

  /** Exactly one of the two stops at its guard for want of risk where the guards differ, and only there. */
  lemma GuardStopsIff(i: Inputs, flat: seq<S.SimFlat>, canonicalMap: map<P.Address, P.Address>, dto: S.Dto,
                      dest: nat, sel: map<P.Address, nat>)
    requires dto.Valid() && SameCase(i, flat, dto, sel) && HasDebt(flat)
    ensures (RunOn(i, canonicalMap, dto, dest) == P.Stop(P.NoAction, P.GuardVerdict)
             <==> S.Simulate(flat, canonicalMap, dto, i.Market()) == S.SimStop(P.NoAction, P.GuardVerdict))
            <==> GA.GuardsAlike(flat, i.Market(), sel, i.Penalty(), dto)
  {
    hide G.AtRisk, G.ScanAll, P.Flatten, GA.AllStoredAt, G.Evaluate, HasDebt, SomeLow, TargetServed, GA.GuardsAlike,
         GA.WorkflowRescues, S.Select, P.Select, A.Located, S.Size, P.Complete, P.PlanRescue;
    var market, penalty := i.Market(), i.Penalty();
    var verdict := G.Evaluate(i.snapshots, i.assets, i.reports, i.decimals, i.cfg, i.now);
    GuardOutcome(i, flat, dto, sel);
    GA.GuardsAgreeIff(flat, dto, market, sel, penalty);
    GA.WorkflowRescuesIff(A.AsFlats(flat, sel), market, penalty, dto);
    RefusalsIff(flat, canonicalMap, dto);
    NoDebtIfEmpty();
    SimulationGuardStop(flat, canonicalMap, dto, market);
    WorkflowGuardStop(W.GuardDecision(verdict), P.Flatten(i.snapshots), market, A.AsPolicy(dto, canonicalMap, dest),
                      A.AsRequest(dto));
  }

  lemma SimulationGuardStop(flat: seq<S.SimFlat>, canonicalMap: map<P.Address, P.Address>, dto: S.Dto,
                            market: P.Market)
    requires dto.Valid() && flat != []
    ensures S.Simulate(flat, canonicalMap, dto, market) == S.SimStop(P.NoAction, P.GuardVerdict)
            <==> S.Select(flat, canonicalMap, dto) == Err(P.GuardVerdict)
  {
    hide S.Select, S.EstimateNeededAction, S.ComputeSourceHfSafeCap, S.ClampNotional;
  }

  lemma WorkflowGuardStop(guard: P.Decision, flat: seq<P.FlatPosition>, market: P.Market, policy: P.Policy,
                          request: P.Request)
    requires policy.Valid() && guard != P.Abort
    ensures P.PlanRescue(guard, flat, market, policy, request, A.CLEAR) == P.Stop(P.NoAction, P.GuardVerdict)
            <==> guard == P.NoAction
  {
    hide P.Select, P.ActionAmount;
  }

  /** Where the guards agree, and any requested target has debt, simulation and workflow both stop for want of
      debt or of risk, or both give the verdict of the same selection and sizing. */
  lemma WorkflowMatchesSimulation(i: Inputs, flat: seq<S.SimFlat>, canonicalMap: map<P.Address, P.Address>, dto: S.Dto,
                                  dest: nat, sel: map<P.Address, nat>)
    requires dto.Valid() && SameCase(i, flat, dto, sel)
    requires GA.GuardsAlike(flat, i.Market(), sel, i.Penalty(), dto)
    ensures var run, simulated := RunOn(i, canonicalMap, dto, dest), S.Simulate(flat, canonicalMap, dto, i.Market());
            && (!HasDebt(flat) ==>
                  run == P.Stop(P.NoAction, P.GuardVerdict)
                  && simulated in {S.SimStop(P.Abort, P.NoDebtBearing), S.SimStop(P.Abort, P.NoPositionsFound)})
            && (HasDebt(flat) && !SomeLow(flat, dto) ==>
                  run == P.Stop(P.NoAction, P.GuardVerdict)
                  && simulated == S.SimStop(P.NoAction, P.GuardVerdict))
            && (SomeLow(flat, dto) && TargetServed(flat, dto) ==>
                  run == A.ExpectedVerdict(flat, canonicalMap, dto, dest, sel, i.Market())
                  && A.SameVerdict(simulated, run))
  {
    hide G.AtRisk, G.ScanAll, P.Flatten, GA.AllStoredAt, G.Evaluate, HasDebt, SomeLow, TargetServed, GA.GuardsAlike,
         GA.WorkflowRescues, S.Select, A.ExpectedVerdict, A.SameVerdict, P.Select, A.Located;
    var market, penalty := i.Market(), i.Penalty();
    GuardOutcome(i, flat, dto, sel);
    GA.GuardsAgreeIff(flat, dto, market, sel, penalty);
    GA.WorkflowRescuesIff(A.AsFlats(flat, sel), market, penalty, dto);
    RefusalsIff(flat, canonicalMap, dto);
    NoDebtIfEmpty();
    if !HasDebt(flat) {
      NoDebtNoRisk(flat, market, sel, penalty, ThresholdWad(dto));
    }
    if SomeLow(flat, dto) && TargetServed(flat, dto) {
      var verdict := G.Evaluate(i.snapshots, i.assets, i.reports, i.decimals, i.cfg, i.now);
      A.PlannersAgree(W.GuardDecision(verdict), flat, canonicalMap, dto, dest, sel, market);
    }
  }

  lemma NoDebtIfEmpty()
    ensures !HasDebt([])
  {
  }
}
