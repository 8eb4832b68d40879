/**
 The two quant workflows (quant-signal-v1.ts): market stress raises the early-warning threshold that is
 then handed to the guard, with the guard's own penalties switched off.
 */
module QuantSignals {
  import opened Common
  import opened FixedPoint
  import opened RescuePlanner
  import opened RiskGuard

  datatype DecisionMode = Apply | LogOnly

  const APPLY_FACTOR_BPS: nat := 4500
  const MAX_EARLY_WARNING_BPS: nat := 20000

  datatype Signal = Signal(stressScoreBps: nat, earlyWarningBoostBps: nat, adjustedEarlyWarningHfBps: nat)

  function AbsBps(x: int): (size: nat)
    ensures size == x || size == -x
  {
    if x < 0 then -x else x
  }

  function Weighted(inputBps: int, weightBps: nat): nat {
    AbsBps(inputBps) * weightBps
  }

  function Clamp(value: int, low: int, high: int): int {
    Min(high, Max(low, value))
  }

  /** Boost and clamp, common to both strategies. */
  function Adjust(mode: DecisionMode, stressScoreBps: nat, onchainHfMinBps: nat, earlyWarningHfBps: nat): Signal {
    var boost := stressScoreBps * (if mode == Apply then APPLY_FACTOR_BPS else 0) / 10000;
    Signal(stressScoreBps, boost, Clamp(earlyWarningHfBps + boost, onchainHfMinBps, MAX_EARLY_WARNING_BPS))
  }

  function EvaluateBasisLiquiditySignal(mode: DecisionMode, basis: int, liquidity: int, takerImbalance: int,
                                        regimeExtreme: int, basisWeight: nat, liquidityWeight: nat,
                                        takerFlowWeight: nat, onchainHfMinBps: nat, earlyWarningHfBps: nat): Signal {
    var weighted := Weighted(basis, basisWeight) + Weighted(liquidity, liquidityWeight)
                    + Weighted(takerImbalance, takerFlowWeight);
    Adjust(mode, weighted / 10000 + AbsBps(regimeExtreme) / 4, onchainHfMinBps, earlyWarningHfBps)
  }

  function EvaluateFundingOiSignal(mode: DecisionMode, funding: int, oi: int, divergence: int, fundingWeight: nat,
                                   oiWeight: nat, divergenceWeight: nat, onchainHfMinBps: nat,
                                   earlyWarningHfBps: nat): Signal {
    var weighted := Weighted(funding, fundingWeight) + Weighted(oi, oiWeight) + Weighted(divergence, divergenceWeight);
    Adjust(mode, weighted / 10000, onchainHfMinBps, earlyWarningHfBps)
  }

  function BuildGuardConfig(cfg: GuardConfig, signal: Signal): GuardConfig {
    cfg.(earlyWarningHfBps := signal.adjustedEarlyWarningHfBps, stalePricePenaltyBps := 0, slopePenaltyBps := 0)
  }

  lemma AverageBounds(x: nat, y: nat, z: nat, a: nat, b: nat, c: nat)
    requires a + b + c == 10000
    ensures Min(x, Min(y, z)) <= (x * a + y * b + z * c) / 10000 <= Max(x, Max(y, z))
    ensures (a == 10000 ==> (x * a + y * b + z * c) / 10000 == x)
            && (b == 10000 ==> (x * a + y * b + z * c) / 10000 == y)
            && (c == 10000 ==> (x * a + y * b + z * c) / 10000 == z)
  {
    var low, high := Min(x, Min(y, z)), Max(x, Max(y, z));
    MulMonotone(low, x, a);
    MulMonotone(low, y, b);
    MulMonotone(low, z, c);
    MulMonotone(x, high, a);
    MulMonotone(y, high, b);
    MulMonotone(z, high, c);
    Thirds(low, a, b, c);
    Thirds(high, a, b, c);
  }

  lemma Thirds(k: nat, a: nat, b: nat, c: nat)
    ensures k * a + k * b + k * c == k * (a + b + c)
  {
  }

  /** The stress score is a weighted average of the sizes of the three inputs: between the smallest and the
      largest, and an input that carries all the weight is the score. */
  lemma FundingStressIsAverage(funding: int, oi: int, divergence: int, wf: nat, wo: nat, wd: nat, minHf: nat,
                               early: nat)
    requires wf + wo + wd == 10000
    ensures var score := EvaluateFundingOiSignal(Apply, funding, oi, divergence, wf, wo, wd, minHf, early)
                         .stressScoreBps;
            && Min(AbsBps(funding), Min(AbsBps(oi), AbsBps(divergence))) <= score
            && score <= Max(AbsBps(funding), Max(AbsBps(oi), AbsBps(divergence)))
            && (wf == 10000 ==> score == AbsBps(funding)) && (wo == 10000 ==> score == AbsBps(oi))
            && (wd == 10000 ==> score == AbsBps(divergence))
  {
    AverageBounds(AbsBps(funding), AbsBps(oi), AbsBps(divergence), wf, wo, wd);
  }

  /** Of the basis strategy too, an extreme regime adding a quarter of its size on top. */
  lemma BasisStressIsAverage(basis: int, liquidity: int, taker: int, regime: int, wb: nat, wl: nat, wt: nat,
                             minHf: nat, early: nat)
    requires wb + wl + wt == 10000
    ensures var score := EvaluateBasisLiquiditySignal(Apply, basis, liquidity, taker, regime, wb, wl, wt, minHf, early)
                         .stressScoreBps - AbsBps(regime) / 4;
            && Min(AbsBps(basis), Min(AbsBps(liquidity), AbsBps(taker))) <= score
            && score <= Max(AbsBps(basis), Max(AbsBps(liquidity), AbsBps(taker)))
            && (wb == 10000 ==> score == AbsBps(basis)) && (wl == 10000 ==> score == AbsBps(liquidity))
            && (wt == 10000 ==> score == AbsBps(taker))
  {
    AverageBounds(AbsBps(basis), AbsBps(liquidity), AbsBps(taker), wb, wl, wt);
  }

  /** The handed-on threshold is at least the configured one exactly when that does not exceed the ceiling:
      above it the signal, however strong, lowers the threshold. */
  lemma SignalNeverLowersThreshold(mode: DecisionMode, stress: nat, minHf: nat, early: nat)
    ensures Adjust(mode, stress, minHf, early).adjustedEarlyWarningHfBps >= early <==> early <= MAX_EARLY_WARNING_BPS
    ensures Adjust(mode, stress, minHf, early).adjustedEarlyWarningHfBps <= MAX_EARLY_WARNING_BPS
  {
  }

  /** More stress never hands on a lower threshold, and applying the signal never a lower one than logging it. */
  lemma ThresholdMonotone(mode: DecisionMode, stress: nat, stress': nat, minHf: nat, early: nat)
    requires stress <= stress'
    ensures Adjust(mode, stress, minHf, early).adjustedEarlyWarningHfBps
            <= Adjust(mode, stress', minHf, early).adjustedEarlyWarningHfBps
    ensures Adjust(LogOnly, stress, minHf, early).adjustedEarlyWarningHfBps
            <= Adjust(mode, stress', minHf, early).adjustedEarlyWarningHfBps
  {
    DivMonotone(stress * APPLY_FACTOR_BPS, stress' * APPLY_FACTOR_BPS, 10000);
  }

  predicate IsRescue(v: Verdict) {
    v == Decided(RescueSameChain) || v == Decided(RescueCrossChain)
  }

  /** The gates and the penalty do not look at the thresholds. */
  lemma {:induction false} ScanIgnoresThreshold(assets: seq<Address>, reports: map<Address, Report>, cfg: GuardConfig,
                                                early: nat, now: int)
    ensures ScanAll(assets, reports, cfg.(earlyWarningHfBps := early), now) == ScanAll(assets, reports, cfg, now)
  {
    if assets != [] {
      ScanIgnoresThreshold(assets[..|assets| - 1], reports, cfg, early, now);
    }
  }

  lemma HigherThresholdRescues(snapshots: seq<Snapshot>, assets: seq<Address>, reports: map<Address, Report>,
                               decimals: map<Address, nat>, cfg: GuardConfig, early: nat, now: int)
    requires cfg.earlyWarningHfBps <= early
    requires IsRescue(Evaluate(snapshots, assets, reports, decimals, cfg, now))
    ensures IsRescue(Evaluate(snapshots, assets, reports, decimals, cfg.(earlyWarningHfBps := early), now))
  {
    ScanIgnoresThreshold(assets, reports, cfg, early, now);
    MulMonotone(cfg.earlyWarningHfBps, early, WAD_PER_BPS);
  }

  /** Applying the basis/liquidity signal never suppresses a rescue that logging it would have raised, for
      any positions, reports and inputs. */
  lemma BasisApplyNeverSuppresses(snapshots: seq<Snapshot>, assets: seq<Address>, reports: map<Address, Report>,
                                  decimals: map<Address, nat>, cfg: GuardConfig, now: int, basis: int,
                                  liquidity: int, taker: int, regime: int, wb: nat, wl: nat, wt: nat)
    ensures var logged := EvaluateBasisLiquiditySignal(LogOnly, basis, liquidity, taker, regime, wb, wl, wt,
                                                       cfg.onchainHfMinBps, cfg.earlyWarningHfBps);
            var applied := EvaluateBasisLiquiditySignal(Apply, basis, liquidity, taker, regime, wb, wl, wt,
                                                        cfg.onchainHfMinBps, cfg.earlyWarningHfBps);
            IsRescue(Evaluate(snapshots, assets, reports, decimals, BuildGuardConfig(cfg, logged), now)) ==>
              IsRescue(Evaluate(snapshots, assets, reports, decimals, BuildGuardConfig(cfg, applied), now))
  {
    hide Evaluate;
    var logged := EvaluateBasisLiquiditySignal(LogOnly, basis, liquidity, taker, regime, wb, wl, wt,
                                               cfg.onchainHfMinBps, cfg.earlyWarningHfBps);
    ApplyNeverSuppresses(snapshots, assets, reports, decimals, cfg, now, logged.stressScoreBps);
  }

  lemma FundingApplyNeverSuppresses(snapshots: seq<Snapshot>, assets: seq<Address>, reports: map<Address, Report>,
                                    decimals: map<Address, nat>, cfg: GuardConfig, now: int, funding: int, oi: int,
                                    divergence: int, wf: nat, wo: nat, wd: nat)
    ensures var logged := EvaluateFundingOiSignal(LogOnly, funding, oi, divergence, wf, wo, wd, cfg.onchainHfMinBps,
                                                  cfg.earlyWarningHfBps);
            var applied := EvaluateFundingOiSignal(Apply, funding, oi, divergence, wf, wo, wd, cfg.onchainHfMinBps,
                                                   cfg.earlyWarningHfBps);
            IsRescue(Evaluate(snapshots, assets, reports, decimals, BuildGuardConfig(cfg, logged), now)) ==>
              IsRescue(Evaluate(snapshots, assets, reports, decimals, BuildGuardConfig(cfg, applied), now))
  {
    hide Evaluate;
    var logged := EvaluateFundingOiSignal(LogOnly, funding, oi, divergence, wf, wo, wd, cfg.onchainHfMinBps,
                                          cfg.earlyWarningHfBps);
    ApplyNeverSuppresses(snapshots, assets, reports, decimals, cfg, now, logged.stressScoreBps);
  }

  lemma ApplyNeverSuppresses(snapshots: seq<Snapshot>, assets: seq<Address>, reports: map<Address, Report>,
                             decimals: map<Address, nat>, cfg: GuardConfig, now: int, stress: nat)
    ensures var logged := Adjust(LogOnly, stress, cfg.onchainHfMinBps, cfg.earlyWarningHfBps);
            var applied := Adjust(Apply, stress, cfg.onchainHfMinBps, cfg.earlyWarningHfBps);
            IsRescue(Evaluate(snapshots, assets, reports, decimals, BuildGuardConfig(cfg, logged), now)) ==>
              IsRescue(Evaluate(snapshots, assets, reports, decimals, BuildGuardConfig(cfg, applied), now))
  {
    var logged := Adjust(LogOnly, stress, cfg.onchainHfMinBps, cfg.earlyWarningHfBps);
    var applied := Adjust(Apply, stress, cfg.onchainHfMinBps, cfg.earlyWarningHfBps);
    ThresholdMonotone(Apply, stress, stress, cfg.onchainHfMinBps, cfg.earlyWarningHfBps);
    if IsRescue(Evaluate(snapshots, assets, reports, decimals, BuildGuardConfig(cfg, logged), now)) {
      HigherThresholdRescues(snapshots, assets, reports, decimals, BuildGuardConfig(cfg, logged),
                             applied.adjustedEarlyWarningHfBps, now);
      assert BuildGuardConfig(cfg, logged).(earlyWarningHfBps := applied.adjustedEarlyWarningHfBps)
             == BuildGuardConfig(cfg, applied);
    }
  }
}
