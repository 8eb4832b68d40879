/**
 The two guards: the workflow's, over reported prices and penalties, and the simulation's, over the health
 factors the backend has for the positions. The backend computes a position's health factor from its two prices
 when it knows both, and otherwise goes by what it has: the adapter's own value, or 0 when an oracle answered 0.
 The guards decide on a rescue for the same portfolios except in two cases, which are given exactly.
 */
module GuardAgreement {
  import opened Common
  import opened FixedPoint
  import opened SimulationTheorems
  import P = RescuePlanner
  import S = PositionsSimulation
  import G = RiskGuard
  import A = PlannerAgreement

  predicate Priced(p: S.SimPosition, market: P.Market) {
    P.Priced(A.AsPosition(p), market)
  }

  /** The health factor the backend computes for a position from these prices. */
  function Computed(p: S.SimPosition, market: P.Market): nat {
    S.ComputeHealthFactorWad(p.collateralAmountRaw, p.debtAmountRaw, market.Price(p.collateralAsset),
                             market.Price(p.debtAsset), market.Decimals(p.collateralAsset),
                             market.Decimals(p.debtAsset), p.liquidationThresholdBps)
  }

  /** With both prices known the health factor is the computed one; without, it may be anything. */
  predicate StoredAt(p: S.SimPosition, market: P.Market) {
    Priced(p, market) ==> p.healthFactorWad == Computed(p, market)
  }

  ghost predicate AllStoredAt(flat: seq<S.SimFlat>, market: P.Market) {
    forall f :: f in flat && f.position.debtAmountRaw > 0 ==> StoredAt(f.position, market)
  }

  /** How the risk snapshot settles a health factor: computed anew when both prices are known, else kept. */
  function Normalized(p: S.SimPosition, market: P.Market): S.SimPosition {
    if Priced(p, market) then p.(healthFactorWad := Computed(p, market)) else p
  }

  /** So whatever the adapter answered, what the simulation gets is stored at the prices, and without them it is
      the adapter's value. */
  lemma NormalizedIsStored(p: S.SimPosition, market: P.Market)
    ensures StoredAt(Normalized(p, market), market)
    ensures Priced(Normalized(p, market), market) <==> Priced(p, market)
    ensures !Priced(p, market) ==> Normalized(p, market).healthFactorWad == p.healthFactorWad
  {
    hide S.ComputeHealthFactorWad;
  }

  predicate Unpriced(f: S.SimFlat, market: P.Market) {
    f.position.debtAmountRaw > 0 && !Priced(f.position, market)
  }

  /** Low on its prices alone, before any penalty. */
  predicate LowAtPrices(f: S.SimFlat, market: P.Market, thresholdWad: nat) {
    && Priced(f.position, market) && P.DebtUsd(A.AsPosition(f.position), market) > 0
    && G.PositionHfWad(A.AsPosition(f.position), market) <= thresholdWad
  }

  ghost predicate SomeUnpriced(flat: seq<S.SimFlat>, market: P.Market) {
    exists f :: f in flat && Unpriced(f, market)
  }

  /** Some indebted position lacks a price, and what the backend has for it is at a threshold or under it. */
  ghost predicate UnpricedLow(flat: seq<S.SimFlat>, market: P.Market, dto: S.Dto) {
    exists f :: f in flat && Unpriced(f, market) && S.GuardLetsPass(f, dto)
  }

  ghost predicate SomeLowAtPrices(flat: seq<S.SimFlat>, market: P.Market, thresholdWad: nat) {
    exists f :: f in flat && LowAtPrices(f, market, thresholdWad)
  }

  predicate SafeThresholds(dto: S.Dto) {
    dto.onchainHfMinBps <= G.MAX_SAFE_INTEGER && dto.earlyWarningHfBps <= G.MAX_SAFE_INTEGER
  }

  lemma ThresholdIsSmall(dto: S.Dto)
    requires SafeThresholds(dto)
    ensures ThresholdWad(dto) < G.MAX_HF_WAD / 20 && ThresholdWad(dto) < S.MAX_UINT256
  {
    MulMonotone(Max(dto.onchainHfMinBps, dto.earlyWarningHfBps), G.MAX_SAFE_INTEGER, WAD_PER_BPS);
    assert G.MAX_SAFE_INTEGER * WAD_PER_BPS < G.MAX_HF_WAD / 20 < S.MAX_UINT256;
  }

  // ---- the simulation's guard ----

  lemma LowAlike(f: S.SimFlat, market: P.Market, thresholdWad: nat)
    requires f.position.debtAmountRaw > 0 && Priced(f.position, market) && StoredAt(f.position, market)
    requires thresholdWad < S.MAX_UINT256
    ensures f.position.healthFactorWad <= thresholdWad <==> LowAtPrices(f, market, thresholdWad)
  {
    hide HealthFactor;
    var p := A.AsPosition(f.position);
    if P.DebtUsd(p, market) > 0 {
      G.BackendHealthFactorAgrees(p, market);
    }
  }

  lemma LowHasDebtRaw(f: S.SimFlat, market: P.Market, thresholdWad: nat)
    requires LowAtPrices(f, market, thresholdWad)
    ensures f.position.debtAmountRaw > 0 && Priced(f.position, market)
  {
  }

  /** The simulation lets a portfolio pass exactly when some indebted position is low: by what the backend has
      for it where a price is missing, by its prices where they are known. */
  lemma SimulationPassesIff(flat: seq<S.SimFlat>, dto: S.Dto, market: P.Market)
    requires AllStoredAt(flat, market) && SafeThresholds(dto)
    ensures SomeLow(flat, dto) <==> UnpricedLow(flat, market, dto) || SomeLowAtPrices(flat, market, ThresholdWad(dto))
  {
    hide StoredAt, LowAtPrices, S.GuardLetsPass, ThresholdWad, SafeThresholds, Priced;
    var t := ThresholdWad(dto);
    ThresholdIsSmall(dto);
    forall f | f in flat && f.position.debtAmountRaw > 0 && Priced(f.position, market)
      ensures S.GuardLetsPass(f, dto) <==> LowAtPrices(f, market, t)
    {
      PassesIsThreshold(f, dto);
      LowAlike(f, market, t);
    }
    if f :| f in flat && LowAtPrices(f, market, t) {
      LowHasDebtRaw(f, market, t);
    }
  }

  // ---- the workflow's guard ----

  /** The workflow decides on a rescue, on one chain or two. */
  predicate WorkflowRescues(flat: seq<P.FlatPosition>, market: P.Market, penalty: nat, dto: S.Dto)
    requires penalty <= G.MAX_PENALTY_BPS
  {
    G.DecideRoute(G.WeakestEffectiveHf(G.Total(flat, market).weakestHf, penalty), dto.onchainHfMinBps * WAD_PER_BPS,
                  dto.earlyWarningHfBps * WAD_PER_BPS, dto.allowCrossChain, false) != P.NoAction
  }

  lemma WorkflowRescuesIff(flat: seq<P.FlatPosition>, market: P.Market, penalty: nat, dto: S.Dto)
    requires penalty <= G.MAX_PENALTY_BPS && SafeThresholds(dto)
    ensures WorkflowRescues(flat, market, penalty, dto) <==> G.AtRisk(flat, market, penalty, ThresholdWad(dto))
  {
    hide G.Total, G.WeakestEffectiveHf, G.AtRisk;
    ThresholdIsSmall(dto);
    G.WeakestDecides(flat, market, penalty, ThresholdWad(dto));
    RouteByThreshold(G.WeakestEffectiveHf(G.Total(flat, market).weakestHf, penalty), dto);
  }

  lemma RouteByThreshold(hf: nat, dto: S.Dto)
    ensures G.DecideRoute(hf, dto.onchainHfMinBps * WAD_PER_BPS, dto.earlyWarningHfBps * WAD_PER_BPS,
                          dto.allowCrossChain, false) != P.NoAction
            <==> hf <= ThresholdWad(dto)
  {
    MulMonotone(dto.onchainHfMinBps, Max(dto.onchainHfMinBps, dto.earlyWarningHfBps), WAD_PER_BPS);
    MulMonotone(dto.earlyWarningHfBps, Max(dto.onchainHfMinBps, dto.earlyWarningHfBps), WAD_PER_BPS);
  }

  lemma Unpenalised(hf: nat)
    ensures G.Penalised(hf, 0) == hf
  {
  }

  lemma LowIsAtRisk(flat: seq<S.SimFlat>, market: P.Market, sel: map<P.Address, nat>, penalty: nat, thresholdWad: nat)
    requires penalty <= G.MAX_PENALTY_BPS && SomeLowAtPrices(flat, market, thresholdWad)
    ensures G.AtRisk(A.AsFlats(flat, sel), market, penalty, thresholdWad)
  {
    var f :| f in flat && LowAtPrices(f, market, thresholdWad);
    var i :| 0 <= i < |flat| && flat[i] == f;
    var hf := G.PositionHfWad(A.AsPosition(f.position), market);
    hide G.Penalised, G.PositionHfWad;
    assert A.AsFlats(flat, sel)[i] in A.AsFlats(flat, sel);
    Unpenalised(hf);
    G.PenalisedMonotone(hf, hf, penalty, 0);
  }

  /** At known prices and without penalty, at risk is low. */
  lemma RiskIsLow(flat: seq<S.SimFlat>, market: P.Market, sel: map<P.Address, nat>, thresholdWad: nat)
    requires !SomeUnpriced(flat, market)
    ensures G.AtRisk(A.AsFlats(flat, sel), market, 0, thresholdWad) <==> SomeLowAtPrices(flat, market, thresholdWad)
  {
    hide G.Penalised, G.PositionHfWad;
    var flats := A.AsFlats(flat, sel);
    if SomeLowAtPrices(flat, market, thresholdWad) {
      LowIsAtRisk(flat, market, sel, 0, thresholdWad);
    }
    if p :| p in flats && G.Indebted(p.position, market)
            && G.Penalised(G.PositionHfWad(p.position, market), 0) <= thresholdWad {
      var i :| 0 <= i < |flats| && flats[i] == p;
      Unpenalised(G.PositionHfWad(p.position, market));
      IndebtedHasDebt(flat[i].position, market);
      assert flat[i] in flat && !Unpriced(flat[i], market) && LowAtPrices(flat[i], market, thresholdWad);
    }
  }

  lemma IndebtedHasDebt(p: S.SimPosition, market: P.Market)
    requires G.Indebted(A.AsPosition(p), market)
    ensures p.debtAmountRaw > 0
  {
  }

  // ---- the two together ----

  /** Where the guards agree: with a position low that lacks a price, when some position is at risk anyway; with
      none, when some position is low before the penalty or none is at risk after it. */
  ghost predicate GuardsAlike(flat: seq<S.SimFlat>, market: P.Market, sel: map<P.Address, nat>, penalty: nat,
                              dto: S.Dto)
    requires penalty <= G.MAX_PENALTY_BPS
  {
    var atRisk := G.AtRisk(A.AsFlats(flat, sel), market, penalty, ThresholdWad(dto));
    if UnpricedLow(flat, market, dto) then atRisk
    else SomeLowAtPrices(flat, market, ThresholdWad(dto)) || !atRisk
  }

  lemma GuardsAgreeIff(flat: seq<S.SimFlat>, dto: S.Dto, market: P.Market, sel: map<P.Address, nat>, penalty: nat)
    requires AllStoredAt(flat, market) && SafeThresholds(dto) && penalty <= G.MAX_PENALTY_BPS
    ensures (SomeLow(flat, dto) <==> WorkflowRescues(A.AsFlats(flat, sel), market, penalty, dto))
            <==> GuardsAlike(flat, market, sel, penalty, dto)
  {
    hide SomeLow, UnpricedLow, SomeLowAtPrices, WorkflowRescues, G.AtRisk, AllStoredAt, SafeThresholds, ThresholdWad;
    SimulationPassesIff(flat, dto, market);
    WorkflowRescuesIff(A.AsFlats(flat, sel), market, penalty, dto);
    if SomeLowAtPrices(flat, market, ThresholdWad(dto)) {
      LowIsAtRisk(flat, market, sel, penalty, ThresholdWad(dto));
    }
  }

  /** Every position at risk is so only because of the penalty. */
  ghost predicate OnlyPenaltyLow(flat: seq<P.FlatPosition>, market: P.Market, penalty: nat, thresholdWad: nat)
    requires penalty <= G.MAX_PENALTY_BPS
  {
    && G.AtRisk(flat, market, penalty, thresholdWad)
    && forall p :: p in flat && G.Indebted(p.position, market) ==> G.PositionHfWad(p.position, market) > thresholdWad
  }

  /** At known prices whatever the simulation lets pass the workflow rescues; the workflow alone rescues
      exactly when every position at risk is so only because of the penalty, and never without one. */
  lemma GuardsAtKnownPrices(flat: seq<S.SimFlat>, dto: S.Dto, market: P.Market, sel: map<P.Address, nat>, penalty: nat)
    requires AllStoredAt(flat, market) && SafeThresholds(dto) && penalty <= G.MAX_PENALTY_BPS
    requires !SomeUnpriced(flat, market)
    ensures var rescues := WorkflowRescues(A.AsFlats(flat, sel), market, penalty, dto);
            && (SomeLow(flat, dto) ==> rescues)
            && (rescues && !SomeLow(flat, dto)
                <==> OnlyPenaltyLow(A.AsFlats(flat, sel), market, penalty, ThresholdWad(dto)))
            && (penalty == 0 ==> (SomeLow(flat, dto) <==> rescues))
  {
    hide SomeLow, SomeUnpriced, UnpricedLow, WorkflowRescues, G.AtRisk, AllStoredAt, SafeThresholds, ThresholdWad;
    var t := ThresholdWad(dto);
    KnownIsNotUnpricedLow(flat, market, dto);
    GuardsAgreeIff(flat, dto, market, sel, penalty);
    SimulationPassesIff(flat, dto, market);
    WorkflowRescuesIff(A.AsFlats(flat, sel), market, penalty, dto);
    RiskIsLow(flat, market, sel, t);
    RiskAtZero(A.AsFlats(flat, sel), market, t);
  }

  lemma KnownIsNotUnpricedLow(flat: seq<S.SimFlat>, market: P.Market, dto: S.Dto)
    ensures !SomeUnpriced(flat, market) ==> !UnpricedLow(flat, market, dto)
  {
  }

  lemma RiskAtZero(flat: seq<P.FlatPosition>, market: P.Market, thresholdWad: nat)
    ensures G.AtRisk(flat, market, 0, thresholdWad)
            <==> exists p :: p in flat && G.Indebted(p.position, market)
                             && G.PositionHfWad(p.position, market) <= thresholdWad
  {
    hide G.Penalised, G.PositionHfWad, G.Indebted;
    forall p: P.FlatPosition
      ensures G.Penalised(G.PositionHfWad(p.position, market), 0) == G.PositionHfWad(p.position, market)
    {
      Unpenalised(G.PositionHfWad(p.position, market));
    }
  }

  // ---- portfolios on which they differ ----

  const ASKED := S.Dto("sepolia", 11250, 10000, 0, 14500, 3000, 100000, 0, true, false, None, None)

  function Holding(collateralAsset: P.Address, collateral: nat, debt: nat, hfWad: nat): S.SimFlat {
    S.SimFlat("aave", collateral, 1, "sepolia",
      S.SimPosition(1, "sepolia", "aave", collateralAsset, "usdc", collateral, debt, hfWad, 10000, 0, 0, 0, 0))
  }

  /** A position without prices whose health factor, by its adapter or as 0 by an oracle's answer, is at a
      threshold or under it: the simulation goes on to plan, the workflow does nothing. */
  lemma MissingPriceParts(sel: map<P.Address, nat>, hfWad: nat)
    requires hfWad <= ThresholdWad(ASKED)
    ensures var flat, market := [Holding("weth", 1000, 100, hfWad)], P.Market(map[], map[]);
            && AllStoredAt(flat, market) && SomeLow(flat, ASKED)
            && !WorkflowRescues(A.AsFlats(flat, sel), market, 0, ASKED)
  {
    hide WorkflowRescues;
    var flat, market := [Holding("weth", 1000, 100, hfWad)], P.Market(map[], map[]);
    PassesIsThreshold(flat[0], ASKED);
    assert flat[0] in flat && S.GuardLetsPass(flat[0], ASKED);
    assert Unpriced(flat[0], market);
    assert forall f :: f in A.AsFlats(flat, sel) ==> f == A.AsFlat(flat[0], sel);
    assert !G.AtRisk(A.AsFlats(flat, sel), market, 0, ThresholdWad(ASKED));
    GuardsAgreeIff(flat, ASKED, market, sel, 0);
  }

  const LENDING := P.Market(map["weth" := WAD, "usdc" := WAD], map["weth" := 0, "usdc" := 0])

  const MODEST := Holding("weth", 120, 100, 1_200_000_000_000_000_000)

  lemma ModestIsOnlyPenaltyLow()
    ensures Priced(MODEST.position, LENDING) && StoredAt(MODEST.position, LENDING)
    ensures G.Indebted(A.AsPosition(MODEST.position), LENDING)
    ensures G.PositionHfWad(A.AsPosition(MODEST.position), LENDING) == 1_200_000_000_000_000_000
    ensures ThresholdWad(ASKED) == 1_125_000_000_000_000_000
    ensures G.Penalised(1_200_000_000_000_000_000, 1000) == 1_080_000_000_000_000_000
  {
    var p := A.AsPosition(MODEST.position);
    assert P.CollateralUsd(p, LENDING) == 120 * WAD && P.DebtUsd(p, LENDING) == 100 * WAD;
    assert P.EffectiveUsd(p, LENDING) == 120 * WAD;
    G.BackendHealthFactorAgrees(p, LENDING);
  }

  lemma ModestAtRisk(flats: seq<P.FlatPosition>)
    requires exists f :: f in flats && f.position == A.AsPosition(MODEST.position)
    ensures G.AtRisk(flats, LENDING, 1000, ThresholdWad(ASKED))
  {
    hide G.Penalised, G.PositionHfWad, G.Indebted;
    ModestIsOnlyPenaltyLow();
    var f :| f in flats && f.position == A.AsPosition(MODEST.position);
    assert G.Penalised(G.PositionHfWad(f.position, LENDING), 1000) <= ThresholdWad(ASKED);
  }

  /** A health factor of 1.2 and a penalty of ten percent: the workflow rescues, the simulation does not. */
  lemma PenaltyParts(sel: map<P.Address, nat>)
    ensures var flat := [MODEST];
            && AllStoredAt(flat, LENDING) && !SomeUnpriced(flat, LENDING)
            && !SomeLow(flat, ASKED) && WorkflowRescues(A.AsFlats(flat, sel), LENDING, 1000, ASKED)
  {
    hide WorkflowRescues, G.AtRisk, G.PositionHfWad, G.Penalised, StoredAt, Priced;
    var flat := [MODEST];
    ModestIsOnlyPenaltyLow();
    assert A.AsFlats(flat, sel)[0] in A.AsFlats(flat, sel);
    ModestAtRisk(A.AsFlats(flat, sel));
    WorkflowRescuesIff(A.AsFlats(flat, sel), LENDING, 1000, ASKED);
  }

  /** The same with a second position, without a price and by its adapter's word healthy: a price is missing
      and a position is at risk, and still the workflow alone rescues. */
  lemma HealthyWithoutPriceParts(sel: map<P.Address, nat>)
    ensures var flat := [Holding("wbtc", 1000, 100, 2_000_000_000_000_000_000), MODEST];
            && AllStoredAt(flat, LENDING) && SomeUnpriced(flat, LENDING)
            && !UnpricedLow(flat, LENDING, ASKED) && !GuardsAlike(flat, LENDING, sel, 1000, ASKED)
            && !SomeLow(flat, ASKED) && WorkflowRescues(A.AsFlats(flat, sel), LENDING, 1000, ASKED)
  {
    hide WorkflowRescues, G.AtRisk, G.PositionHfWad, G.Penalised;
    var flat := [Holding("wbtc", 1000, 100, 2_000_000_000_000_000_000), MODEST];
    ModestIsOnlyPenaltyLow();
    assert flat[0] in flat && Unpriced(flat[0], LENDING);
    assert A.AsFlats(flat, sel)[1] in A.AsFlats(flat, sel);
    ModestAtRisk(A.AsFlats(flat, sel));
    WorkflowRescuesIff(A.AsFlats(flat, sel), LENDING, 1000, ASKED);
    GuardsAgreeIff(flat, ASKED, LENDING, sel, 1000);
  }
}
