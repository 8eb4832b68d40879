/**
 The guard's promises in terms of reports, positions and configuration alone: when each gate objects, how large
 the penalty is, what the totals add up, and what the quant workflows change.
 */
module GuardOnInputs {
  import opened Common
  import opened FixedPoint
  import opened RescuePlanner
  import opened RiskGuard
  import opened QuantSignals

  // ---- reports ----

  function Distance(a: nat, b: nat): (d: nat)
    ensures d == a - b || d == b - a
  {
    if a < b then b - a else a - b
  }

  /** A report moved at least so many basis points of its previous price, up or down. */
  predicate Moved(report: Report, bps: nat) {
    report.prevPriceWad.Some? && report.prevPriceWad.value > 0
    && Distance(report.priceWad, report.prevPriceWad.value) * BPS_DENOM >= bps * report.prevPriceWad.value
  }

  lemma ShockMeans(report: Report, bps: nat)
    requires bps > 0
    ensures ComputeShockBps(report) >= bps <==> Moved(report, bps)
  {
    if report.prevPriceWad.Some? && report.prevPriceWad.value > 0 {
      DivReaches(Distance(report.priceWad, report.prevPriceWad.value) * BPS_DENOM, report.prevPriceWad.value, bps);
    }
  }

  lemma StalenessMeans(ageSec: int, cfg: GuardConfig, bps: nat)
    requires bps > 0
    ensures StalenessPenaltyBps(ageSec, cfg) >= bps
            <==> cfg.maxPriceAgeSec > 0 && ageSec * cfg.stalePricePenaltyBps >= bps * cfg.maxPriceAgeSec
  {
    var a := ageSec * cfg.stalePricePenaltyBps;
    if cfg.maxPriceAgeSec > 0 {
      if a >= 0 {
        DivReaches(a, cfg.maxPriceAgeSec, bps);
      } else {
        DivBounds(-a, cfg.maxPriceAgeSec);
        MulMonotone(0, bps, cfg.maxPriceAgeSec);
      }
    }
  }

  /** The penalty reaches a value when that is at most 9000 and what the staleness leaves of it is covered by the
      slope: by its cap, and by half the largest shock. */
  lemma PenaltyMeans(scan: Scan, cfg: GuardConfig, bps: nat)
    ensures TotalPenaltyBps(scan, cfg) >= bps
            <==> bps <= 9000
                 && (bps <= scan.maxStalenessBps
                     || (bps - scan.maxStalenessBps <= cfg.slopePenaltyBps
                         && 2 * (bps - scan.maxStalenessBps) <= scan.maxShockBps))
  {
  }

  // ---- gates ----

  ghost predicate SomeMissing(assets: seq<Address>, reports: map<Address, Report>) {
    exists a :: a in assets && a !in reports
  }

  ghost predicate SomeTooOld(assets: seq<Address>, reports: map<Address, Report>, cfg: GuardConfig, now: int) {
    cfg.maxPriceAgeSec > 0
    && exists a :: a in assets && a in reports && now - reports[a].updatedAt > cfg.maxPriceAgeSec
  }

  ghost predicate SomeForged(assets: seq<Address>, reports: map<Address, Report>) {
    exists a :: a in assets && a in reports && reports[a].source == Api && !reports[a].integrityOk
  }

  ghost predicate SomeMoved(assets: seq<Address>, reports: map<Address, Report>, bps: nat) {
    exists a :: a in assets && a in reports && Moved(reports[a], bps)
  }

  lemma CountersOnInputs(assets: seq<Address>, reports: map<Address, Report>, cfg: GuardConfig, now: int)
    ensures var s := ScanAll(assets, reports, cfg, now);
            && (s.missing > 0 <==> SomeMissing(assets, reports))
            && (s.stale > 0 <==> SomeTooOld(assets, reports, cfg, now))
            && (!(cfg.staleAborts && SomeTooOld(assets, reports, cfg, now)) ==>
                  (s.invalid > 0 <==> SomeForged(assets, reports)))
  {
    hide ScanAll;
    CountersMean(assets, reports, cfg, now);
  }

  lemma ShockOnInputs(assets: seq<Address>, reports: map<Address, Report>, cfg: GuardConfig, now: int, bps: nat)
    requires !(cfg.staleAborts && SomeTooOld(assets, reports, cfg, now)) && !SomeForged(assets, reports) && bps > 0
    ensures ScanAll(assets, reports, cfg, now).maxShockBps >= bps <==> SomeMoved(assets, reports, bps)
  {
    hide ScanAll, ComputeShockBps, StalenessPenaltyBps, Moved;
    MaximaMean(assets, reports, cfg, now);
    forall a | a in assets && a in reports
      ensures Counted(a, reports, cfg, now)
      ensures ComputeShockBps(reports[a]) >= bps <==> Moved(reports[a], bps)
    {
      ShockMeans(reports[a], bps);
    }
  }

  /** Each gate objects exactly when those before it do not and some asset gives it reason to: one without a
      report, one whose report is too old, one whose report is forged, one whose price moved too far up or down.
      A shock threshold of 0 always objects. */
  lemma GatedIff(snapshots: seq<Snapshot>, assets: seq<Address>, reports: map<Address, Report>,
                 decimals: map<Address, nat>, cfg: GuardConfig, now: int)
    ensures var verdict := Evaluate(snapshots, assets, reports, decimals, cfg, now);
            var missing := cfg.abortOnMissingPrice && SomeMissing(assets, reports);
            var tooOld := cfg.staleAborts && SomeTooOld(assets, reports, cfg, now);
            var forged := SomeForged(assets, reports);
            var moved := cfg.priceShockAbortBps == 0 || SomeMoved(assets, reports, cfg.priceShockAbortBps);
            && (verdict == Gated(NoPositions) <==> snapshots == [])
            && (verdict == Gated(MissingPrices) <==> snapshots != [] && missing)
            && (verdict == Gated(StaleReports) <==> snapshots != [] && !missing && tooOld)
            && (verdict == Gated(BadIntegrity) <==> snapshots != [] && !missing && !tooOld && forged)
            && (verdict == Gated(PriceShock) <==> snapshots != [] && !missing && !tooOld && !forged && moved)
            && (verdict.Decided? <==> snapshots != [] && !missing && !tooOld && !forged && !moved)
  {
    hide ScanAll, SomeMissing, SomeForged, SomeMoved, Total, WeakestEffectiveHf, DecideRoute, CanCrossChain,
         TotalPenaltyBps;
    CountersOnInputs(assets, reports, cfg, now);
    NoneTooOldUnchecked(assets, reports, cfg, now);
    if !(cfg.staleAborts && SomeTooOld(assets, reports, cfg, now)) && !SomeForged(assets, reports)
       && cfg.priceShockAbortBps > 0 {
      ShockOnInputs(assets, reports, cfg, now, cfg.priceShockAbortBps);
    }
  }

  lemma NoneTooOldUnchecked(assets: seq<Address>, reports: map<Address, Report>, cfg: GuardConfig, now: int)
    ensures SomeTooOld(assets, reports, cfg, now) ==> cfg.maxPriceAgeSec > 0
  {
  }

  /** The guard and the planner price an asset as its report does, and know no price without one. */
  lemma PricesAreReported(reports: map<Address, Report>, decimals: map<Address, nat>, a: Address, p: Position)
    ensures var market := MarketIn(reports, decimals);
            && market.Price(a) == (if a in reports then reports[a].priceWad else 0)
            && market.decimals == decimals
            && (Reported(p, market) <==> p.collateralAsset in reports && p.debtAsset in reports)
  {
  }

  // ---- totals ----

  /** The totals of two lists together are the sums of their totals; a single position counts with its effective
      collateral and its debt when both its assets have reports, and not at all otherwise. */
  lemma {:induction false} TotalsAdd(a: seq<FlatPosition>, b: seq<FlatPosition>, market: Market)
    ensures Total(a + b, market).effectiveUsd == Total(a, market).effectiveUsd + Total(b, market).effectiveUsd
    ensures Total(a + b, market).debtUsd == Total(a, market).debtUsd + Total(b, market).debtUsd
  {
    hide EffectiveUsd, DebtUsd, PositionHfWad;
    if b == [] {
      assert a + b == a;
    } else {
      assert (a + b)[..|a + b| - 1] == a + b[..|b| - 1];
      TotalsAdd(a, b[..|b| - 1], market);
    }
  }

  lemma TotalOfOne(p: FlatPosition, market: Market)
    ensures var t := Total([p], market);
            if p.position.collateralAsset in market.prices && p.position.debtAsset in market.prices
            then t.effectiveUsd == EffectiveUsd(p.position, market) && t.debtUsd == DebtUsd(p.position, market)
            else t.effectiveUsd == 0 && t.debtUsd == 0
  {
    hide EffectiveUsd, DebtUsd, PositionHfWad;
    assert [p][..0] == [];
  }

  /** The chain of the weakest is that of the first position with the least health factor. */
  lemma {:induction false} WeakestChainIsFirst(flat: seq<FlatPosition>, market: Market, i: nat)
    requires i < |flat| && Indebted(flat[i].position, market) && PositionHfWad(flat[i].position, market) < MAX_HF_WAD
    requires forall j :: 0 <= j < |flat| && Indebted(flat[j].position, market) ==>
               PositionHfWad(flat[i].position, market) <= PositionHfWad(flat[j].position, market)
    requires forall j :: 0 <= j < i && Indebted(flat[j].position, market) ==>
               PositionHfWad(flat[i].position, market) < PositionHfWad(flat[j].position, market)
    ensures var t := Total(flat, market);
            && t.weakestHf == PositionHfWad(flat[i].position, market)
            && t.weakestChainId == flat[i].chainId && t.weakestChainKey == flat[i].chainKey
  {
    hide EffectiveUsd, PositionHfWad;
    var rest := flat[..|flat| - 1];
    if i < |rest| {
      WeakestChainIsFirst(rest, market, i);
    } else {
      WeakestIsMinimum(rest, market);
      if Total(rest, market).weakestHf < MAX_HF_WAD {
        var p :| p in rest && Indebted(p.position, market)
                 && PositionHfWad(p.position, market) == Total(rest, market).weakestHf;
        var j :| 0 <= j < |rest| && rest[j] == p;
      }
    }
  }

  /** Another chain can help when a configured adapter with collateral is elsewhere: by chain id when both are
      known, and otherwise by key when both are named. */
  lemma CanCrossIff(snapshots: seq<Snapshot>, t: Totals)
    ensures CanCrossChain(snapshots, t)
            <==> exists snap :: snap in snapshots && snap.isConfiguredAdapter && snap.availableCollateral > 0
                                && ((snap.chainId.Some? && t.weakestChainId.Some?
                                     && snap.chainId.value != t.weakestChainId.value)
                                    || ((snap.chainId.None? || t.weakestChainId.None?)
                                        && snap.chainKey != "" && t.weakestChainKey != ""
                                        && snap.chainKey != t.weakestChainKey))
  {
    if snap :| snap in snapshots && OnOtherChain(snap, t) {
      var i :| 0 <= i < |snapshots| && snapshots[i] == snap;
    }
  }

  /** A penalised health factor is at or under a threshold when what the penalty leaves is less than one more
      than the threshold. */
  lemma PenalisedMeans(hfWad: nat, penaltyBps: nat, thresholdWad: nat)
    requires penaltyBps <= MAX_PENALTY_BPS
    ensures Penalised(hfWad, penaltyBps) <= thresholdWad
            <==> hfWad * (BPS_DENOM - penaltyBps) < (thresholdWad + 1) * BPS_DENOM
  {
    DivReaches(hfWad * (BPS_DENOM - penaltyBps), BPS_DENOM, thresholdWad + 1);
  }

  lemma HealthFactorMeans(effectiveUsd: nat, debtUsd: nat, q: nat)
    requires debtUsd > 0
    ensures HealthFactor(effectiveUsd, debtUsd) >= q <==> q * debtUsd <= effectiveUsd * WAD
  {
    DivReaches(effectiveUsd * WAD, debtUsd, q);
  }

  /** An indebted position is low when its exact health factor, rounded down and penalised, does not exceed one of
      the two thresholds. */
  ghost predicate Low(p: Position, hf: nat, market: Market, cfg: GuardConfig, penaltyBps: nat) {
    && p.collateralAsset in market.prices && p.debtAsset in market.prices && DebtUsd(p, market) > 0
    && hf * DebtUsd(p, market) <= EffectiveUsd(p, market) * WAD < (hf + 1) * DebtUsd(p, market)
    && (hf * (10000 - penaltyBps) < (cfg.onchainHfMinBps * WAD_PER_BPS + 1) * 10000
        || hf * (10000 - penaltyBps) < (cfg.earlyWarningHfBps * WAD_PER_BPS + 1) * 10000)
  }

  /** Past the gates the guard calls for a rescue exactly when some position is low. */
  lemma RescuesIff(snapshots: seq<Snapshot>, assets: seq<Address>, reports: map<Address, Report>,
                   decimals: map<Address, nat>, cfg: GuardConfig, now: int)
    requires SafeThresholds(cfg) && Evaluate(snapshots, assets, reports, decimals, cfg, now).Decided?
    ensures var penalty := TotalPenaltyBps(ScanAll(assets, reports, cfg, now), cfg);
            Evaluate(snapshots, assets, reports, decimals, cfg, now) != Decided(NoAction)
            <==> exists f, hf :: f in Flatten(snapshots)
                                 && Low(f.position, hf, MarketIn(reports, decimals), cfg, penalty)
  {
    hide Evaluate, ScanAll, TotalPenaltyBps, MarketIn, Flatten, EffectiveUsd, DebtUsd, Low, PositionHfWad;
    GuardDecidesByRisk(snapshots, assets, reports, decimals, cfg, now);
    var penalty, market := TotalPenaltyBps(ScanAll(assets, reports, cfg, now), cfg), MarketIn(reports, decimals);
    var threshold := Max(cfg.onchainHfMinBps, cfg.earlyWarningHfBps) * WAD_PER_BPS;
    if AtRisk(Flatten(snapshots), market, penalty, threshold) {
      var f :| f in Flatten(snapshots) && Indebted(f.position, market)
               && Penalised(PositionHfWad(f.position, market), penalty) <= threshold;
      LowIff(f.position, PositionHfWad(f.position, market), market, cfg, penalty);
    }
    if f, hf :| f in Flatten(snapshots) && Low(f.position, hf, market, cfg, penalty) {
      LowIff(f.position, hf, market, cfg, penalty);
    }
  }

  lemma LowIff(p: Position, hf: nat, market: Market, cfg: GuardConfig, penaltyBps: nat)
    requires penaltyBps <= MAX_PENALTY_BPS
    ensures Low(p, hf, market, cfg, penaltyBps)
            <==> Indebted(p, market) && hf == PositionHfWad(p, market)
                 && Penalised(hf, penaltyBps)
                    <= Max(cfg.onchainHfMinBps, cfg.earlyWarningHfBps) * WAD_PER_BPS
  {
    hide EffectiveUsd, DebtUsd, Penalised;
    if DebtUsd(p, market) > 0 {
      HealthFactorMeans(EffectiveUsd(p, market), DebtUsd(p, market), hf);
      HealthFactorMeans(EffectiveUsd(p, market), DebtUsd(p, market), hf + 1);
      PenalisedMeans(hf, penaltyBps, cfg.onchainHfMinBps * WAD_PER_BPS);
      PenalisedMeans(hf, penaltyBps, cfg.earlyWarningHfBps * WAD_PER_BPS);
    }
  }

  // ---- the quant workflows ----

  /** A stress score is the weighted sum of the input sizes, in basis points and rounded down; the basis strategy
      adds a quarter of the regime's size, rounded down on its own. */
  lemma StressMeans(mode: DecisionMode, x: int, y: int, z: int, regime: int, wx: nat, wy: nat, wz: nat, minHf: nat,
                    early: nat)
    ensures var weighted := AbsBps(x) * wx + AbsBps(y) * wy + AbsBps(z) * wz;
            var funding := EvaluateFundingOiSignal(mode, x, y, z, wx, wy, wz, minHf, early);
            var basis := EvaluateBasisLiquiditySignal(mode, x, y, z, regime, wx, wy, wz, minHf, early);
            && 10000 * funding.stressScoreBps <= weighted < 10000 * (funding.stressScoreBps + 1)
            && basis.stressScoreBps >= funding.stressScoreBps
            && 4 * (basis.stressScoreBps - funding.stressScoreBps) <= AbsBps(regime)
               < 4 * (basis.stressScoreBps - funding.stressScoreBps + 1)
            && funding == Adjust(mode, funding.stressScoreBps, minHf, early)
            && basis == Adjust(mode, basis.stressScoreBps, minHf, early)
  {
  }

  /** What a signal hands on reaches a threshold up to 20000 when the policy's minimum does, or the early warning
      and the boost together: nothing when the signal is only logged, 45 percent of the stress when applied. */
  lemma HandedOnMeans(mode: DecisionMode, stress: nat, minHf: nat, early: nat, bps: nat)
    ensures Adjust(mode, stress, minHf, early).adjustedEarlyWarningHfBps >= bps
            <==> bps <= 20000
                 && (minHf >= bps || early >= bps
                     || (mode == Apply && 45 * stress >= 100 * (bps - early)))
  {
  }

  /** The guard behind a quant signal has the handed-on threshold and no penalty, whatever the reports say, and
      otherwise the configured terms. */
  lemma QuantGuardIsUnpenalised(assets: seq<Address>, reports: map<Address, Report>, cfg: GuardConfig,
                                signal: Signal, now: int)
    ensures var quant := BuildGuardConfig(cfg, signal);
            && TotalPenaltyBps(ScanAll(assets, reports, quant, now), quant) == 0
            && quant.earlyWarningHfBps == signal.adjustedEarlyWarningHfBps
            && quant.onchainHfMinBps == cfg.onchainHfMinBps && quant.maxPriceAgeSec == cfg.maxPriceAgeSec
            && quant.staleAborts == cfg.staleAborts && quant.abortOnMissingPrice == cfg.abortOnMissingPrice
            && quant.priceShockAbortBps == cfg.priceShockAbortBps && quant.allowCrossChain == cfg.allowCrossChain
  {
    hide ScanAll, ComputeShockBps;
    var quant := BuildGuardConfig(cfg, signal);
    MaximaMean(assets, reports, quant, now);
    forall age: int
      ensures StalenessPenaltyBps(age, quant) <= 0
    {
      StalenessMeans(age, quant, 1);
    }
  }
}
