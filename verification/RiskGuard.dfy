/**
 The guard evaluation of the CRE workflow (risk-v1.ts): the gates on price reports, the penalty, the
 weakest and the aggregate health factor, and the rescue decision.
 */
module RiskGuard {
  import opened Common
  import opened FixedPoint
  import opened RescuePlanner
  import S = PositionsSimulation

  const MAX_PENALTY_BPS: nat := 9000
  const MAX_HF_WAD: nat := 0x7fffffff_ffffffff_ffffffff_ffffffff_ffffffff_ffffffff_ffffffff_ffffffff
  const MAX_SAFE_INTEGER: nat := 9007199254740991

  datatype ReportSource = Api | Oracle | Mock

  /** A price report with its prices already parsed; integrityOk is the outcome of the keccak check. */
  datatype Report = Report(
    priceWad: nat,
    prevPriceWad: Option<nat>,
    updatedAt: int,
    source: ReportSource,
    integrityOk: bool
  )

  datatype GuardConfig = GuardConfig(
    onchainHfMinBps: nat,
    earlyWarningHfBps: nat,
    stalePricePenaltyBps: nat,
    slopePenaltyBps: nat,
    maxPriceAgeSec: nat,
    staleAborts: bool,
    abortOnMissingPrice: bool,
    priceShockAbortBps: nat,
    allowCrossChain: bool
  )

  datatype GateReason = NoPositions | MissingPrices | StaleReports | BadIntegrity | PriceShock

  datatype Verdict = Gated(reason: GateReason) | Decided(decision: Decision)

  // ---- reports ----

  datatype Scan = Scan(missing: nat, invalid: nat, stale: nat, maxShockBps: nat, maxStalenessBps: nat)

  function ComputeShockBps(report: Report): nat {
    match report.prevPriceWad
    case None => 0
    case Some(prev) =>
      if prev == 0 then 0
      else
        var diff := if report.priceWad > prev then report.priceWad - prev else prev - report.priceWad;
        DivBounds(diff * BPS_DENOM, prev);
        diff * BPS_DENOM / prev
  }

  /** Bigint division rounds towards zero, so a report from the future has a penalty of zero or less. */
  function TruncDiv(a: int, b: nat): int
    requires b > 0
  {
    if a >= 0 then a / b else -(-a / b)
  }

  function StalenessPenaltyBps(ageSec: int, cfg: GuardConfig): int {
    if cfg.maxPriceAgeSec == 0 then 0 else TruncDiv(ageSec * cfg.stalePricePenaltyBps, cfg.maxPriceAgeSec)
  }

  function ScanOne(s: Scan, asset: Address, reports: map<Address, Report>, cfg: GuardConfig, now: int): Scan {
    if asset !in reports then s.(missing := s.missing + 1)
    else
      var report := reports[asset];
      var isStale := cfg.maxPriceAgeSec > 0 && now - report.updatedAt > cfg.maxPriceAgeSec;
      var s1 := if isStale then s.(stale := s.stale + 1) else s;
      if isStale && cfg.staleAborts then s1
      else if report.source == Api && !report.integrityOk then s1.(invalid := s1.invalid + 1)
      else s1.(maxShockBps := Max(s1.maxShockBps, ComputeShockBps(report)),
               maxStalenessBps := Max(s1.maxStalenessBps, StalenessPenaltyBps(now - report.updatedAt, cfg)))
  }

  function ScanAll(assets: seq<Address>, reports: map<Address, Report>, cfg: GuardConfig, now: int): Scan {
    if assets == [] then Scan(0, 0, 0, 0, 0)
    else ScanOne(ScanAll(assets[..|assets| - 1], reports, cfg, now), assets[|assets| - 1], reports, cfg, now)
  }

  predicate IsStale(report: Report, cfg: GuardConfig, now: int) {
    cfg.maxPriceAgeSec > 0 && now - report.updatedAt > cfg.maxPriceAgeSec
  }

  predicate BadlySigned(report: Report) {
    report.source == Api && !report.integrityOk
  }

  /** A report that gets past the staleness and integrity checks, and so counts towards the penalties. */
  predicate Counted(asset: Address, reports: map<Address, Report>, cfg: GuardConfig, now: int) {
    && asset in reports && !(IsStale(reports[asset], cfg, now) && cfg.staleAborts) && !BadlySigned(reports[asset])
  }

  /** The counters say whether an asset lacks a report, or has a stale or a badly signed one. */
  lemma {:induction false} CountersMean(assets: seq<Address>, reports: map<Address, Report>, cfg: GuardConfig, now: int)
    ensures var s := ScanAll(assets, reports, cfg, now);
            && (s.missing > 0 <==> exists a :: a in assets && a !in reports)
            && (s.stale > 0 <==> exists a :: a in assets && a in reports && IsStale(reports[a], cfg, now))
            && (s.invalid > 0 <==> exists a :: a in assets && a in reports && BadlySigned(reports[a])
                                               && !(IsStale(reports[a], cfg, now) && cfg.staleAborts))
  {
    hide ComputeShockBps, StalenessPenaltyBps;
    if assets != [] {
      var front, last := assets[..|assets| - 1], assets[|assets| - 1];
      CountersMean(front, reports, cfg, now);
      assert assets == front + [last];
    }
  }

  /** The two maxima are the largest shock and the largest staleness penalty among the reports that count. */
  lemma {:induction false} MaximaMean(assets: seq<Address>, reports: map<Address, Report>, cfg: GuardConfig, now: int)
    ensures var s := ScanAll(assets, reports, cfg, now);
            && (forall a :: a in assets && Counted(a, reports, cfg, now) ==>
                  ComputeShockBps(reports[a]) <= s.maxShockBps
                  && StalenessPenaltyBps(now - reports[a].updatedAt, cfg) <= s.maxStalenessBps)
            && (s.maxShockBps > 0 ==> exists a :: a in assets && Counted(a, reports, cfg, now)
                                                  && ComputeShockBps(reports[a]) == s.maxShockBps)
            && (s.maxStalenessBps > 0 ==>
                  exists a :: a in assets && Counted(a, reports, cfg, now)
                              && StalenessPenaltyBps(now - reports[a].updatedAt, cfg) == s.maxStalenessBps)
  {
    hide ComputeShockBps, StalenessPenaltyBps;
    if assets != [] {
      var front, last := assets[..|assets| - 1], assets[|assets| - 1];
      MaximaMean(front, reports, cfg, now);
      assert assets == front + [last];
    }
  }

  method ScanReports(assets: seq<Address>, reports: map<Address, Report>, cfg: GuardConfig, now: int)
    returns (scan: Scan)
    ensures scan == ScanAll(assets, reports, cfg, now)
  {
    var missing, invalid, stale, maxShock: nat, maxStaleness: nat := 0, 0, 0, 0, 0;
    for i := 0 to |assets|
      invariant Scan(missing, invalid, stale, maxShock, maxStaleness) == ScanAll(assets[..i], reports, cfg, now)
    {
      assert assets[..i + 1][..i] == assets[..i];
      if assets[i] !in reports {
        missing := missing + 1;
        continue;
      }
      var report := reports[assets[i]];
      var ageSec := now - report.updatedAt;
      var shock := ComputeShockBps(report);
      if cfg.maxPriceAgeSec > 0 && ageSec > cfg.maxPriceAgeSec {
        stale := stale + 1;
        if cfg.staleAborts {
          continue;
        }
      }
      if report.source == Api && !report.integrityOk {
        invalid := invalid + 1;
        continue;
      }
      var staleness := StalenessPenaltyBps(ageSec, cfg);
      if staleness > maxStaleness {
        maxStaleness := staleness;
      }
      if shock > maxShock {
        maxShock := shock;
      }
    }
    assert assets[..|assets|] == assets;
    scan := Scan(missing, invalid, stale, maxShock, maxStaleness);
  }

  function Gate(scan: Scan, cfg: GuardConfig): Option<GateReason> {
    if scan.missing > 0 && cfg.abortOnMissingPrice then Some(MissingPrices)
    else if cfg.maxPriceAgeSec > 0 && scan.stale > 0 && cfg.staleAborts then Some(StaleReports)
    else if scan.invalid > 0 then Some(BadIntegrity)
    else if scan.maxShockBps >= cfg.priceShockAbortBps then Some(PriceShock)
    else None
  }

  function TotalPenaltyBps(scan: Scan, cfg: GuardConfig): (r: nat)
    ensures r <= MAX_PENALTY_BPS
  {
    Min(MAX_PENALTY_BPS, scan.maxStalenessBps + Min(cfg.slopePenaltyBps, scan.maxShockBps / 2))
  }

  // ---- positions ----

  datatype Totals = Totals(
    effectiveUsd: nat,
    debtUsd: nat,
    weakestHf: nat,
    weakestChainId: Option<nat>,
    weakestChainKey: string
  )

  const NO_TOTALS := Totals(0, 0, MAX_HF_WAD, None, "")

  predicate Reported(p: Position, market: Market) {
    p.collateralAsset in market.prices && p.debtAsset in market.prices
  }

  /** A reported position whose debt is worth something: the only kind that has a finite health factor. */
  predicate Indebted(p: Position, market: Market) {
    Reported(p, market) && DebtUsd(p, market) > 0
  }

  function PositionHfWad(p: Position, market: Market): nat {
    if DebtUsd(p, market) == 0 then MAX_HF_WAD else HealthFactor(EffectiveUsd(p, market), DebtUsd(p, market))
  }

  function Accumulate(t: Totals, p: FlatPosition, market: Market): Totals {
    if !Reported(p.position, market) then t
    else
      var t1 := t.(effectiveUsd := t.effectiveUsd + EffectiveUsd(p.position, market),
                   debtUsd := t.debtUsd + DebtUsd(p.position, market));
      if DebtUsd(p.position, market) > 0 && PositionHfWad(p.position, market) < t.weakestHf
      then t1.(weakestHf := PositionHfWad(p.position, market), weakestChainId := p.chainId,
               weakestChainKey := p.chainKey)
      else t1
  }

  function Total(flat: seq<FlatPosition>, market: Market): Totals {
    if flat == [] then NO_TOTALS
    else Accumulate(Total(flat[..|flat| - 1], market), flat[|flat| - 1], market)
  }

  method SumPositions(snapshots: seq<Snapshot>, market: Market) returns (t: Totals)
    ensures t == Total(Flatten(snapshots), market)
  {
    t := NO_TOTALS;
    for i := 0 to |snapshots|
      invariant t == Total(Flatten(snapshots[..i]), market)
    {
      t := SumSnapshot(snapshots[i], t, Flatten(snapshots[..i]), market);
      assert snapshots[..i + 1][..i] == snapshots[..i];
    }
    assert snapshots[..|snapshots|] == snapshots;
  }

  /** The inner loop, over the positions of one adapter. */
  method SumSnapshot(snap: Snapshot, sofar: Totals, ghost before: seq<FlatPosition>, market: Market)
    returns (t: Totals)
    requires sofar == Total(before, market)
    ensures t == Total(before + FlattenOne(snap, |snap.positions|), market)
  {
    hide EffectiveUsd, DebtUsd, HealthFactor, Total;
    t := sofar;
    assert before + FlattenOne(snap, 0) == before;
    for j := 0 to |snap.positions|
      invariant t == Total(before + FlattenOne(snap, j), market)
    {
      var p := snap.positions[j];
      TotalNext(before, snap, j, market);
      if p.collateralAsset !in market.prices || p.debtAsset !in market.prices {
        continue;
      }
      var effectiveUsd, debtUsd := EffectiveUsd(p, market), DebtUsd(p, market);
      var hf := if debtUsd == 0 then MAX_HF_WAD else HealthFactor(effectiveUsd, debtUsd);
      if debtUsd > 0 && hf < t.weakestHf {
        t := t.(weakestHf := hf, weakestChainId := snap.chainId, weakestChainKey := snap.chainKey);
      }
      t := t.(effectiveUsd := t.effectiveUsd + effectiveUsd, debtUsd := t.debtUsd + debtUsd);
    }
  }

  lemma TotalNext(before: seq<FlatPosition>, snap: Snapshot, j: nat, market: Market)
    requires j < |snap.positions|
    ensures Total(before + FlattenOne(snap, j + 1), market)
            == Accumulate(Total(before + FlattenOne(snap, j), market), AtAdapter(snap, snap.positions[j]), market)
  {
    var next := before + FlattenOne(snap, j + 1);
    assert next[..|next| - 1] == before + FlattenOne(snap, j);
  }

  // ---- decision ----

  function AggregateHf(t: Totals): nat {
    if t.debtUsd == 0 then MAX_HF_WAD else HealthFactor(t.effectiveUsd, t.debtUsd)
  }

  function Penalised(hfWad: nat, penaltyBps: nat): nat
    requires penaltyBps <= MAX_PENALTY_BPS
  {
    hfWad * (BPS_DENOM - penaltyBps) / BPS_DENOM
  }

  function WeakestEffectiveHf(weakestHf: nat, penaltyBps: nat): nat
    requires penaltyBps <= MAX_PENALTY_BPS
  {
    if weakestHf >= MAX_HF_WAD / 2 then MAX_HF_WAD else Penalised(weakestHf, penaltyBps)
  }

  predicate OnOtherChain(snap: Snapshot, t: Totals) {
    && snap.isConfiguredAdapter && snap.availableCollateral > 0
    && if t.weakestChainId.Some? && snap.chainId.Some? then snap.chainId != t.weakestChainId
       else t.weakestChainKey != "" && snap.chainKey != "" && snap.chainKey != t.weakestChainKey
  }

  predicate CanCrossChain(snapshots: seq<Snapshot>, t: Totals) {
    exists i :: 0 <= i < |snapshots| && OnOtherChain(snapshots[i], t)
  }

  function DecideRoute(weakestEffectiveHf: nat, minHfWad: nat, earlyHfWad: nat, allowCrossChain: bool,
                       canCrossChain: bool): Decision {
    if weakestEffectiveHf <= minHfWad || weakestEffectiveHf <= earlyHfWad then
      if allowCrossChain && canCrossChain then RescueCrossChain else RescueSameChain
    else NoAction
  }

  /** The prices the guard and the planner go by are those of the reports. */
  function MarketIn(reports: map<Address, Report>, decimals: map<Address, nat>): Market {
    Market(map a | a in reports :: reports[a].priceWad, decimals)
  }

  function Evaluate(snapshots: seq<Snapshot>, assets: seq<Address>, reports: map<Address, Report>,
                    decimals: map<Address, nat>, cfg: GuardConfig, now: int): Verdict {
    var scan := ScanAll(assets, reports, cfg, now);
    if snapshots == [] then Gated(NoPositions)
    else
      match Gate(scan, cfg)
      case Some(reason) => Gated(reason)
      case None =>
        var t := Total(Flatten(snapshots), MarketIn(reports, decimals));
        Decided(DecideRoute(WeakestEffectiveHf(t.weakestHf, TotalPenaltyBps(scan, cfg)),
                            cfg.onchainHfMinBps * WAD_PER_BPS, cfg.earlyWarningHfBps * WAD_PER_BPS,
                            cfg.allowCrossChain, CanCrossChain(snapshots, t)))
  }

  method EvaluateChainlinkApiGuard(snapshots: seq<Snapshot>, assets: seq<Address>, reports: map<Address, Report>,
                                   decimals: map<Address, nat>, cfg: GuardConfig, now: int) returns (verdict: Verdict)
    ensures verdict == Evaluate(snapshots, assets, reports, decimals, cfg, now)
  {
    if snapshots == [] {
      return Gated(NoPositions);
    }
    var scan := ScanReports(assets, reports, cfg, now);
    if scan.missing > 0 && cfg.abortOnMissingPrice {
      return Gated(MissingPrices);
    }
    if cfg.maxPriceAgeSec > 0 && scan.stale > 0 && cfg.staleAborts {
      return Gated(StaleReports);
    }
    if scan.invalid > 0 {
      return Gated(BadIntegrity);
    }
    if scan.maxShockBps >= cfg.priceShockAbortBps {
      return Gated(PriceShock);
    }
    var t := SumPositions(snapshots, MarketIn(reports, decimals));
    var weakestEffectiveHf := WeakestEffectiveHf(t.weakestHf, TotalPenaltyBps(scan, cfg));
    verdict := Decided(DecideRoute(weakestEffectiveHf, cfg.onchainHfMinBps * WAD_PER_BPS,
                                   cfg.earlyWarningHfBps * WAD_PER_BPS, cfg.allowCrossChain,
                                   CanCrossChain(snapshots, t)));
  }

  // ------------------------------------------------------------------ theorems

  ghost predicate HasIndebted(flat: seq<FlatPosition>, market: Market, hfWad: nat) {
    exists p :: p in flat && Indebted(p.position, market) && PositionHfWad(p.position, market) == hfWad
  }

  /** The loop's weakest health factor is the minimum over the indebted positions, capped at the maximum. */
  lemma {:induction false} WeakestIsMinimum(flat: seq<FlatPosition>, market: Market)
    ensures var weakest := Total(flat, market).weakestHf;
            && weakest <= MAX_HF_WAD
            && (forall p :: p in flat && Indebted(p.position, market) ==> weakest <= PositionHfWad(p.position, market))
            && (weakest < MAX_HF_WAD ==> HasIndebted(flat, market, weakest))
  {
    hide MAX_HF_WAD, EffectiveUsd, DebtUsd, PositionHfWad;
    if flat != [] {
      var rest, last := flat[..|flat| - 1], flat[|flat| - 1];
      WeakestIsMinimum(rest, market);
      assert flat == rest + [last];
      var before, weakest := Total(rest, market).weakestHf, Total(flat, market).weakestHf;
      if weakest < MAX_HF_WAD {
        if weakest == before {
          var p :| p in rest && Indebted(p.position, market) && PositionHfWad(p.position, market) == before;
          assert p in flat;
        } else {
          assert last in flat && Indebted(last.position, market) && PositionHfWad(last.position, market) == weakest;
        }
      }
    }
  }

  lemma {:induction false} TotalsBoundedBy(flat: seq<FlatPosition>, market: Market, hf: nat)
    requires forall p :: p in flat && Indebted(p.position, market) ==> hf <= PositionHfWad(p.position, market)
    ensures hf * Total(flat, market).debtUsd <= Total(flat, market).effectiveUsd * WAD
  {
    if flat != [] {
      var rest, last := flat[..|flat| - 1], flat[|flat| - 1];
      assert flat == rest + [last];
      TotalsBoundedBy(rest, market, hf);
      if Reported(last.position, market) {
        assert last in flat;
        PositionBoundedBy(last.position, market, hf);
        DistributeOver(hf, Total(rest, market).debtUsd, DebtUsd(last.position, market));
      }
    }
  }

  lemma PositionBoundedBy(p: Position, market: Market, hf: nat)
    requires DebtUsd(p, market) > 0 ==> hf <= PositionHfWad(p, market)
    ensures hf * DebtUsd(p, market) <= EffectiveUsd(p, market) * WAD
  {
    var effective, debt := EffectiveUsd(p, market), DebtUsd(p, market);
    if debt > 0 {
      DivBounds(effective * WAD, debt);
      MulMonotone(hf, PositionHfWad(p, market), debt);
    }
  }

  lemma DistributeOver(k: nat, a: nat, b: nat)
    ensures k * (a + b) == k * a + k * b
  {
  }

  /** The floored aggregate is never below the floored weakest: a mediant inequality over any positions. */
  lemma AggregateAtLeastWeakest(flat: seq<FlatPosition>, market: Market)
    ensures AggregateHf(Total(flat, market)) >= Total(flat, market).weakestHf
  {
    hide MAX_HF_WAD, Total;
    WeakestIsMinimum(flat, market);
    var t := Total(flat, market);
    TotalsBoundedBy(flat, market, t.weakestHf);
    if t.debtUsd > 0 {
      DivAtLeast(t.effectiveUsd * WAD, t.debtUsd, t.weakestHf);
    }
  }

  lemma PenalisedMonotone(hf: nat, hf': nat, penalty: nat, penalty': nat)
    requires hf <= hf' && penalty' <= penalty <= MAX_PENALTY_BPS
    ensures Penalised(hf, penalty) <= Penalised(hf', penalty')
  {
    MulMonotone(hf, hf', BPS_DENOM - penalty);
    MulMonotone(BPS_DENOM - penalty, BPS_DENOM - penalty', hf');
    DivMonotone(hf * (BPS_DENOM - penalty), hf' * (BPS_DENOM - penalty'), BPS_DENOM);
  }

  /** The least health factor that the penalty cannot bring below the maximum. */
  function LeastBeyond(penalty: nat): nat
    requires penalty <= MAX_PENALTY_BPS
  {
    CeilDiv(MAX_HF_WAD * BPS_DENOM, BPS_DENOM - penalty)
  }

  lemma BeyondPenaltyStaysMaximal(hf: nat, penalty: nat)
    requires penalty <= MAX_PENALTY_BPS
    ensures hf >= LeastBeyond(penalty) <==> Penalised(hf, penalty) >= MAX_HF_WAD
  {
    hide MAX_HF_WAD, CeilDiv;
    DivReaches(hf * (BPS_DENOM - penalty), BPS_DENOM, MAX_HF_WAD);
    CeilReaches(MAX_HF_WAD * BPS_DENOM, BPS_DENOM - penalty, hf);
  }

  lemma CeilReaches(a: nat, b: nat, q: nat)
    requires b > 0
    ensures q >= CeilDiv(a, b) <==> q * b >= a
  {
    hide CeilDiv;
    CeilDivBounds(a, b);
    var c := CeilDiv(a, b);
    if q >= c {
      MulMonotone(c, q, b);
    } else {
      MulMonotone(q, c - 1, b);
      assert (c - 1) * b == c * b - b;
    }
  }

  /** After the penalty the reported aggregate still bounds the weakest whenever the weakest is below half the
      maximum, the guard of the branch that penalises it. In the other branch the weakest counts as the maximum,
      and the aggregate bounds it exactly when it was so large before that the penalty cannot matter. */
  lemma EffectiveAtLeastWeakestEffective(flat: seq<FlatPosition>, market: Market, penalty: nat)
    requires penalty <= MAX_PENALTY_BPS
    ensures var t := Total(flat, market);
            Penalised(AggregateHf(t), penalty) >= WeakestEffectiveHf(t.weakestHf, penalty)
            <==> t.weakestHf < MAX_HF_WAD / 2 || AggregateHf(t) >= LeastBeyond(penalty)
  {
    hide MAX_HF_WAD, Total, AggregateHf, Penalised, WeakestEffectiveHf, LeastBeyond;
    var t := Total(flat, market);
    AggregateAtLeastWeakest(flat, market);
    PenaltyComparison(AggregateHf(t), t.weakestHf, penalty);
  }

  lemma PenaltyComparison(aggregate: nat, weakest: nat, penalty: nat)
    requires penalty <= MAX_PENALTY_BPS && weakest <= aggregate
    ensures Penalised(aggregate, penalty) >= WeakestEffectiveHf(weakest, penalty)
            <==> weakest < MAX_HF_WAD / 2 || aggregate >= LeastBeyond(penalty)
  {
    hide MAX_HF_WAD, Penalised, LeastBeyond;
    if weakest < MAX_HF_WAD / 2 {
      PenalisedMonotone(weakest, aggregate, penalty, penalty);
    } else {
      BeyondPenaltyStaysMaximal(aggregate, penalty);
    }
  }

  /** An empty portfolio and a penalty of one basis point: the reported aggregate falls below the weakest. */
  lemma EmptyPortfolioFails(market: Market)
    ensures Penalised(AggregateHf(Total([], market)), 1) < WeakestEffectiveHf(Total([], market).weakestHf, 1)
  {
    DebtFreeSummary([], market, 1);
  }

  /** Without any debt the two summaries agree only when there is no penalty. */
  lemma DebtFreeSummary(flat: seq<FlatPosition>, market: Market, penalty: nat)
    requires penalty <= MAX_PENALTY_BPS && Total(flat, market).debtUsd == 0
    ensures Penalised(AggregateHf(Total(flat, market)), penalty)
            >= WeakestEffectiveHf(Total(flat, market).weakestHf, penalty)
            <==> penalty == 0
  {
    hide Total, Penalised, LeastBeyond;
    EffectiveAtLeastWeakestEffective(flat, market, penalty);
    NoDebtNoWeakest(flat, market);
    BeyondPenaltyStaysMaximal(MAX_HF_WAD, penalty);
    UntouchedIff(MAX_HF_WAD, penalty);
  }

  lemma UntouchedIff(hf: nat, penalty: nat)
    requires hf > 0 && penalty <= MAX_PENALTY_BPS
    ensures Penalised(hf, penalty) >= hf <==> penalty == 0
  {
    DivReaches(hf * (BPS_DENOM - penalty), BPS_DENOM, hf);
    if penalty > 0 {
      MulMonotone(BPS_DENOM - penalty, BPS_DENOM - 1, hf);
      assert (BPS_DENOM - 1) * hf == BPS_DENOM * hf - hf;
    }
  }

  lemma {:induction false} NoDebtNoWeakest(flat: seq<FlatPosition>, market: Market)
    requires Total(flat, market).debtUsd == 0
    ensures Total(flat, market).weakestHf == MAX_HF_WAD
  {
    if flat != [] {
      NoDebtNoWeakest(flat[..|flat| - 1], market);
    }
  }

  function ThresholdWad(cfg: GuardConfig): nat {
    Max(cfg.onchainHfMinBps, cfg.earlyWarningHfBps) * WAD_PER_BPS
  }

  /** What the decision is meant to say: some indebted position, penalised, is at or under a threshold. */
  ghost predicate AtRisk(flat: seq<FlatPosition>, market: Market, penalty: nat, thresholdWad: nat)
    requires penalty <= MAX_PENALTY_BPS
  {
    exists p :: p in flat && Indebted(p.position, market)
                && Penalised(PositionHfWad(p.position, market), penalty) <= thresholdWad
  }

  lemma PenaltyTakesNineTenths(hf: nat, penalty: nat, thresholdWad: nat)
    requires penalty <= MAX_PENALTY_BPS && Penalised(hf, penalty) <= thresholdWad
    ensures hf < 10 * (thresholdWad + 1)
  {
    DivBounds(hf * (BPS_DENOM - penalty), BPS_DENOM);
    MulMonotone(1000, BPS_DENOM - penalty, hf);
  }

  lemma TwentiethOfHalf(n: nat)
    ensures 10 * (n / 20) <= n / 2
  {
  }

  lemma LowPenalisedIsLow(hf: nat, penalty: nat, thresholdWad: nat)
    requires penalty <= MAX_PENALTY_BPS && Penalised(hf, penalty) <= thresholdWad
    requires thresholdWad < MAX_HF_WAD / 20
    ensures hf < MAX_HF_WAD / 2
  {
    hide MAX_HF_WAD, Penalised;
    PenaltyTakesNineTenths(hf, penalty, thresholdWad);
    TwentiethOfHalf(MAX_HF_WAD);
  }

  lemma WeakestDecides(flat: seq<FlatPosition>, market: Market, penalty: nat, thresholdWad: nat)
    requires penalty <= MAX_PENALTY_BPS && thresholdWad < MAX_HF_WAD / 20
    ensures WeakestEffectiveHf(Total(flat, market).weakestHf, penalty) <= thresholdWad
            <==> AtRisk(flat, market, penalty, thresholdWad)
  {
    hide MAX_HF_WAD, Total, Penalised, Indebted, PositionHfWad;
    WeakestIsMinimum(flat, market);
    var weakest := Total(flat, market).weakestHf;
    if WeakestEffectiveHf(weakest, penalty) <= thresholdWad {
      var p :| p in flat && Indebted(p.position, market) && PositionHfWad(p.position, market) == weakest;
    }
    if AtRisk(flat, market, penalty, thresholdWad) {
      var p :| p in flat && Indebted(p.position, market)
               && Penalised(PositionHfWad(p.position, market), penalty) <= thresholdWad;
      LowPenalisedIsLow(PositionHfWad(p.position, market), penalty, thresholdWad);
      PenalisedMonotone(weakest, PositionHfWad(p.position, market), penalty, penalty);
    }
  }

  /** Thresholds are JavaScript numbers, hence far below the range where the decision would go wrong. */
  predicate SafeThresholds(cfg: GuardConfig) {
    cfg.onchainHfMinBps <= MAX_SAFE_INTEGER && cfg.earlyWarningHfBps <= MAX_SAFE_INTEGER
  }

  lemma SafeIsSmall(bps: nat)
    requires bps <= MAX_SAFE_INTEGER
    ensures bps * WAD_PER_BPS < MAX_HF_WAD / 20
  {
    MulMonotone(bps, MAX_SAFE_INTEGER, WAD_PER_BPS);
  }

  /** Past the gates the guard calls for a rescue exactly when some indebted position is at risk, and for a
      cross-chain one exactly when policy allows it and another chain holds collateral. */
  lemma GuardDecidesByRisk(snapshots: seq<Snapshot>, assets: seq<Address>, reports: map<Address, Report>,
                           decimals: map<Address, nat>, cfg: GuardConfig, now: int)
    requires SafeThresholds(cfg) && Evaluate(snapshots, assets, reports, decimals, cfg, now).Decided?
    ensures var decision := Evaluate(snapshots, assets, reports, decimals, cfg, now).decision;
            var penalty := TotalPenaltyBps(ScanAll(assets, reports, cfg, now), cfg);
            var atRisk := AtRisk(Flatten(snapshots), MarketIn(reports, decimals), penalty, ThresholdWad(cfg));
            var crossing := cfg.allowCrossChain
                            && CanCrossChain(snapshots, Total(Flatten(snapshots), MarketIn(reports, decimals)));
            && (decision == RescueCrossChain <==> atRisk && crossing)
            && (decision == RescueSameChain <==> atRisk && !crossing)
            && (decision == NoAction <==> !atRisk)
  {
    hide MAX_HF_WAD, ScanAll, TotalPenaltyBps, Total, WeakestEffectiveHf, AtRisk, CanCrossChain;
    var penalty := TotalPenaltyBps(ScanAll(assets, reports, cfg, now), cfg);
    SafeIsSmall(Max(cfg.onchainHfMinBps, cfg.earlyWarningHfBps));
    WeakestDecides(Flatten(snapshots), MarketIn(reports, decimals), penalty, ThresholdWad(cfg));
  }

  /** Raising the penalty or either threshold never turns a position at risk into a safe one. */
  lemma RiskIsMonotone(flat: seq<FlatPosition>, market: Market, penalty: nat, penalty': nat, threshold: nat,
                       threshold': nat)
    requires penalty <= penalty' <= MAX_PENALTY_BPS && threshold <= threshold'
    requires AtRisk(flat, market, penalty, threshold)
    ensures AtRisk(flat, market, penalty', threshold')
  {
    var p :| p in flat && Indebted(p.position, market)
             && Penalised(PositionHfWad(p.position, market), penalty) <= threshold;
    PenalisedMonotone(PositionHfWad(p.position, market), PositionHfWad(p.position, market), penalty', penalty);
  }

  /** The backend recomputes the guard's health factor for every indebted position with positive prices. */
  lemma BackendHealthFactorAgrees(p: Position, market: Market)
    requires Priced(p, market) && DebtUsd(p, market) > 0
    ensures S.ComputeHealthFactorWad(p.collateralAmount, p.debtAmount, market.Price(p.collateralAsset),
                                     market.Price(p.debtAsset), market.Decimals(p.collateralAsset),
                                     market.Decimals(p.debtAsset), p.liquidationThresholdBps)
            == PositionHfWad(p, market)
  {
    if p.collateralAmount == 0 {
      DivAtMost(0, Pow10(market.Decimals(p.collateralAsset)), 0);
    }
  }
}
