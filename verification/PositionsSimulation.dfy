/**
 The backend's own rescue planner (positions.service.ts), behind the simulation endpoint. It was written
 a second time, over its own position records; PlannerAgreement relates it to the workflow's planner.
 */
module PositionsSimulation {
  import opened Common
  import opened FixedPoint
  import StableSort
  import P = RescuePlanner

  type Address = P.Address

  const MAX_UINT256: nat := 0xffffffff_ffffffff_ffffffff_ffffffff_ffffffff_ffffffff_ffffffff_ffffffff

  datatype SimPosition = SimPosition(
    chainId: nat,
    chainKey: string,
    adapterAddress: Address,
    collateralAsset: Address,
    debtAsset: Address,
    collateralAmountRaw: nat,
    debtAmountRaw: nat,
    healthFactorWad: nat,
    liquidationThresholdBps: nat,
    collateralDecimals: nat,
    debtDecimals: nat,
    collateralPriceWad: nat,
    debtPriceWad: nat
  )

  datatype SimFlat = SimFlat(
    adapterAddress: Address,
    availableCollateral: nat,
    chainId: nat,
    chainKey: string,
    position: SimPosition
  )

  /** The validated body of the simulation request. */
  datatype Dto = Dto(
    executionChainKey: string,
    earlyWarningHfBps: nat,
    onchainHfMinBps: nat,
    sourceFloorHfBps: nat,
    targetHfBps: nat,
    reserveCapBps: nat,
    maxRescueNotionalUsd: nat,
    minActionUsd: nat,
    allowCrossChain: bool,
    forceCrossChain: bool,
    sourceAdapter: Option<Address>,
    targetAdapter: Option<Address>
  ) {
    predicate Valid() {
      targetHfBps >= 10000 && reserveCapBps <= 10000
    }
  }

  datatype SimCandidate = SimCandidate(source: SimFlat, mode: P.Mode)

  datatype SimSelection = SimSelection(target: SimFlat, source: SimFlat, mode: P.Mode, isCrossChain: bool)

  datatype SimOutcome =
    | SimStop(decision: P.Decision, reason: P.Reason)
    | SimPlan(selection: SimSelection, collateralAmount: nat, debtAmount: nat)

  function ComputeHealthFactorWad(collateralAmountRaw: nat, debtAmountRaw: nat, collateralPriceWad: nat,
                                  debtPriceWad: nat, collateralDecimals: nat, debtDecimals: nat,
                                  liquidationThresholdBps: nat): nat {
    if debtAmountRaw <= 0 then MAX_UINT256
    else if debtPriceWad <= 0 || collateralPriceWad <= 0 then 0
    else
      DivBounds(collateralAmountRaw * collateralPriceWad, Pow10(collateralDecimals));
      DivBounds(debtAmountRaw * debtPriceWad, Pow10(debtDecimals));
      var collateralUsdWad: nat := collateralAmountRaw * collateralPriceWad / Pow10(collateralDecimals);
      var debtUsdWad: nat := debtAmountRaw * debtPriceWad / Pow10(debtDecimals);
      if debtUsdWad <= 0 then MAX_UINT256
      else HealthFactor(collateralUsdWad * liquidationThresholdBps / 10000, debtUsdWad)
  }

  /** The edges of the computed health factor: without debt, or with debt worth less than a wei, it is the greatest
      there is; debt with a price missing on either side makes it 0. */
  lemma HealthFactorEdges(collateral: nat, debt: nat, collateralPrice: nat, debtPrice: nat, collateralDecimals: nat,
                          debtDecimals: nat, ltBps: nat)
    ensures var hf := ComputeHealthFactorWad(collateral, debt, collateralPrice, debtPrice, collateralDecimals,
                                             debtDecimals, ltBps);
            && (debt == 0 ==> hf == 0x1_00000000_00000000_00000000_00000000_00000000_00000000_00000000_00000000 - 1)
            && (debt > 0 && (collateralPrice == 0 || debtPrice == 0) ==> hf == 0)
            && (debt > 0 && collateralPrice > 0 && 0 < debt * debtPrice < Pow10(debtDecimals) ==> hf == MAX_UINT256)
  {
    hide Pow10, HealthFactor;
    if debt > 0 && 0 < debt * debtPrice < Pow10(debtDecimals) {
      DivAtMost(debt * debtPrice, Pow10(debtDecimals), 0);
      DivBounds(debt * debtPrice, Pow10(debtDecimals));
    }
  }

  // ---- flattening ----

  predicate SameAdapter(a: SimPosition, b: SimPosition) {
    a.chainId == b.chainId && a.adapterAddress == b.adapterAddress
  }

  /** All collateral held through the adapter of a position. */
  function AdapterTotal(positions: seq<SimPosition>, of: SimPosition): nat {
    if positions == [] then 0
    else
      var last := positions[|positions| - 1];
      AdapterTotal(positions[..|positions| - 1], of) + (if SameAdapter(last, of) then last.collateralAmountRaw else 0)
  }

  function Flatten(positions: seq<SimPosition>): seq<SimFlat> {
    seq(|positions|, i requires 0 <= i < |positions| =>
      var p := positions[i];
      SimFlat(p.adapterAddress, AdapterTotal(positions, p), p.chainId, p.chainKey, p))
  }

  method FlattenPositions(positions: seq<SimPosition>) returns (flat: seq<SimFlat>)
    ensures flat == Flatten(positions)
  {
    var byAdapter: map<(nat, Address), nat> := map[];
    for i := 0 to |positions|
      invariant forall p: SimPosition :: AdapterTotal(positions[..i], p) == Lookup(byAdapter, Key(p))
    {
      var key := Key(positions[i]);
      byAdapter := byAdapter[key := Lookup(byAdapter, key) + positions[i].collateralAmountRaw];
      assert positions[..i + 1][..i] == positions[..i];
    }
    assert positions[..|positions|] == positions;
    flat := [];
    for i := 0 to |positions|
      invariant flat == Flatten(positions)[..i]
    {
      var p := positions[i];
      flat := flat + [SimFlat(p.adapterAddress, Lookup(byAdapter, Key(p)), p.chainId, p.chainKey, p)];
    }
  }

  function Key(p: SimPosition): (nat, Address) {
    (p.chainId, p.adapterAddress)
  }

  function Lookup(byAdapter: map<(nat, Address), nat>, key: (nat, Address)): nat {
    if key in byAdapter then byAdapter[key] else 0
  }

  // ---- selection ----

  function DebtBearing(flat: seq<SimFlat>): seq<SimFlat> {
    if flat == [] then []
    else
      var last := flat[|flat| - 1];
      DebtBearing(flat[..|flat| - 1]) + (if last.position.debtAmountRaw > 0 then [last] else [])
  }

  predicate AtMostAsHealthy(a: SimFlat, b: SimFlat) {
    a.position.healthFactorWad <= b.position.healthFactorWad
  }

  function ByRisk(flat: seq<SimFlat>): seq<SimFlat> {
    StableSort.Sort(AtMostAsHealthy, flat)
  }

  function Find(list: seq<SimFlat>, adapter: Address): Option<SimFlat> {
    if list == [] then None
    else if list[0].adapterAddress == adapter then Some(list[0])
    else Find(list[1..], adapter)
  }

  function Canonical(asset: Address, canonicalMap: map<Address, Address>): Address {
    if asset in canonicalMap then canonicalMap[asset] else asset
  }

  function InferRescueMode(source: SimFlat, target: SimFlat, canonicalMap: map<Address, Address>): Option<P.Mode> {
    var srcCollateral := Canonical(source.position.collateralAsset, canonicalMap);
    var srcDebt := Canonical(source.position.debtAsset, canonicalMap);
    var tgtCollateral := Canonical(target.position.collateralAsset, canonicalMap);
    var tgtDebt := Canonical(target.position.debtAsset, canonicalMap);
    if srcCollateral == tgtCollateral && srcDebt == tgtDebt then Some(P.TopUp)
    else if srcCollateral == tgtDebt && srcDebt == tgtCollateral then Some(P.Repay)
    else if srcCollateral == tgtDebt then Some(P.Repay)
    else if srcCollateral == tgtCollateral then Some(P.TopUp)
    else None
  }

  predicate InSourcePool(item: SimFlat, target: SimFlat, executionChainKey: string) {
    && item.adapterAddress != target.adapterAddress
    && item.availableCollateral > 0
    && item.chainKey == executionChainKey
  }

  function Candidates(flat: seq<SimFlat>, target: SimFlat, canonicalMap: map<Address, Address>, dto: Dto)
    : seq<SimCandidate>
  {
    if flat == [] then []
    else Candidates(flat[..|flat| - 1], target, canonicalMap, dto) +
         CandidateAt(flat[|flat| - 1], target, canonicalMap, dto)
  }

  function CandidateAt(source: SimFlat, target: SimFlat, canonicalMap: map<Address, Address>, dto: Dto)
    : seq<SimCandidate>
  {
    var mode := InferRescueMode(source, target, canonicalMap);
    if InSourcePool(source, target, dto.executionChainKey) && mode.Some? then [SimCandidate(source, mode.value)] else []
  }

  function Selected(list: seq<SimCandidate>, wanted: Option<Address>): Option<SimCandidate> {
    if list == [] then None
    else
      var candidate := list[|list| - 1];
      var selected := Selected(list[..|list| - 1], wanted);
      if wanted.Some? && candidate.source.adapterAddress != wanted.value then selected
      else if selected == None
              || candidate.source.availableCollateral > selected.value.source.availableCollateral
      then Some(candidate)
      else selected
  }

  predicate GuardLetsPass(weakest: SimFlat, dto: Dto) {
    || weakest.position.healthFactorWad <= dto.onchainHfMinBps * WAD_PER_BPS
    || weakest.position.healthFactorWad <= dto.earlyWarningHfBps * WAD_PER_BPS
  }

  function Select(flat: seq<SimFlat>, canonicalMap: map<Address, Address>, dto: Dto): Result<SimSelection, P.Reason> {
    var debtBearing := ByRisk(DebtBearing(flat));
    if debtBearing == [] then Err(P.NoDebtBearing)
    else if !GuardLetsPass(debtBearing[0], dto) then Err(P.GuardVerdict)
    else
      var target :=
        if dto.targetAdapter.Some? then Find(debtBearing, dto.targetAdapter.value) else Some(debtBearing[0]);
      if target == None then Err(P.TargetNotDebtBearing)
      else SelectFor(flat, target.value, canonicalMap, dto)
  }

  function SelectFor(flat: seq<SimFlat>, target: SimFlat, canonicalMap: map<Address, Address>, dto: Dto)
    : Result<SimSelection, P.Reason>
  {
    var candidates := Candidates(flat, target, canonicalMap, dto);
    if candidates == [] then Err(P.NoCompatibleSource)
    else
      var selected := Selected(candidates, dto.sourceAdapter);
      if selected == None then Err(P.NoEligibleSource)
      else
        var source := selected.value.source;
        var isCrossChain := if dto.forceCrossChain then true else source.chainId != target.chainId;
        if isCrossChain && !dto.allowCrossChain then Err(P.CrossChainDisabled)
        else Ok(SimSelection(target, source, selected.value.mode, isCrossChain))
  }

  // ---- sizing ----

  function EstimateNeededAction(mode: P.Mode, target: SimFlat, targetHfBps: nat, market: P.Market): nat {
    var p := target.position;
    var collateralPrice, debtPrice := market.Price(p.collateralAsset), market.Price(p.debtAsset);
    var collateralDecimals, debtDecimals := market.Decimals(p.collateralAsset), market.Decimals(p.debtAsset);
    var targetHfWad := targetHfBps * 100_000_000_000_000;
    if collateralPrice == 0 || debtPrice == 0 || targetHfWad == 0 then
      (match mode case TopUp => p.collateralAmountRaw / 10 case Repay => p.debtAmountRaw / 5)
    else
      var collateralUsd := ToUsdWad(p.collateralAmountRaw, collateralDecimals, collateralPrice);
      var debtUsd := ToUsdWad(p.debtAmountRaw, debtDecimals, debtPrice);
      var effective: nat := collateralUsd * p.liquidationThresholdBps / BPS_DENOM;
      if mode == P.TopUp then
        var wanted: nat := targetHfWad * debtUsd / WAD;
        if wanted <= effective then 0
        else if p.liquidationThresholdBps == 0 then 0
        else
          DivBounds((wanted - effective) * BPS_DENOM, p.liquidationThresholdBps);
          FromUsdWadToAmount((wanted - effective) * BPS_DENOM / p.liquidationThresholdBps, collateralDecimals,
                             collateralPrice)
      else
        DivBounds(effective * WAD, targetHfWad);
        var maxDebt: nat := effective * WAD / targetHfWad;
        if debtUsd <= maxDebt then 0 else FromUsdWadToAmount(debtUsd - maxDebt, debtDecimals, debtPrice)
  }

  function ComputeSourceHfSafeCap(source: SimFlat, sourceFloorHfBps: nat, market: P.Market): nat {
    var p := source.position;
    var sourcePrice, sourceDebtPrice := market.Price(p.collateralAsset), market.Price(p.debtAsset);
    if sourceFloorHfBps <= 0 then source.availableCollateral
    else if sourcePrice == 0 || sourceDebtPrice == 0 || p.debtAmountRaw <= 0 then source.availableCollateral
    else
      var collateralUsd := ToUsdWad(p.collateralAmountRaw, market.Decimals(p.collateralAsset), sourcePrice);
      var debtUsd := ToUsdWad(p.debtAmountRaw, market.Decimals(p.debtAsset), sourceDebtPrice);
      var effective: nat := collateralUsd * p.liquidationThresholdBps / BPS_DENOM;
      var minEffective: nat := sourceFloorHfBps * 100_000_000_000_000 * debtUsd / WAD;
      if p.liquidationThresholdBps == 0 || effective <= minEffective then 0
      else
        DivBounds((effective - minEffective) * BPS_DENOM, p.liquidationThresholdBps);
        FromUsdWadToAmount((effective - minEffective) * BPS_DENOM / p.liquidationThresholdBps,
                           market.Decimals(p.collateralAsset), sourcePrice)
  }

  function ReserveSafe(availableCollateral: nat, reserveCapBps: nat): nat
    requires reserveCapBps <= 10000
  {
    availableCollateral * (10000 - reserveCapBps) / BPS_DENOM
  }

  function ClampNotional(amount: nat, maxNotionalUsdWad: nat, decimals: nat, price: nat): nat {
    if price > 0 && ToUsdWad(amount, decimals, price) > maxNotionalUsdWad
    then FromUsdWadToAmount(maxNotionalUsdWad, decimals, price)
    else amount
  }

  function Size(s: SimSelection, dto: Dto, market: P.Market): SimOutcome
    requires dto.Valid()
  {
    var asset := s.source.position.collateralAsset;
    var price, decimals := market.Price(asset), market.Decimals(asset);
    var bounded: nat := Min(EstimateNeededAction(s.mode, s.target, dto.targetHfBps, market),
                            Min(ReserveSafe(s.source.availableCollateral, dto.reserveCapBps),
                                ComputeSourceHfSafeCap(s.source, dto.sourceFloorHfBps, market)));
    var amount := ClampNotional(bounded, dto.maxRescueNotionalUsd * WAD, decimals, price);
    var amountUsd := if price > 0 then ToUsdWad(amount, decimals, price) else 0;
    if amount <= 0 then SimStop(P.Abort, P.AmountZero)
    else if price > 0 && amountUsd < dto.minActionUsd * WAD then SimStop(P.NoAction, P.BelowMinimum)
    else SimPlan(s, amount, if s.mode == P.Repay then amount else 0)
  }

  function Simulate(flat: seq<SimFlat>, canonicalMap: map<Address, Address>, dto: Dto, market: P.Market): SimOutcome
    requires dto.Valid()
  {
    if flat == [] then SimStop(P.Abort, P.NoPositionsFound)
    else
      match Select(flat, canonicalMap, dto)
      case Err(reason) => SimStop(if reason == P.GuardVerdict then P.NoAction else P.Abort, reason)
      case Ok(s) => Size(s, dto, market)
  }

  // ---- prices and decimals by asset, the last position winning ----

  function DecimalsOf(positions: seq<SimPosition>): map<Address, nat> {
    if positions == [] then map[]
    else
      var p := positions[|positions| - 1];
      DecimalsOf(positions[..|positions| - 1])[p.collateralAsset := p.collateralDecimals][p.debtAsset := p.debtDecimals]
  }

  function PricesOf(positions: seq<SimPosition>): map<Address, nat> {
    if positions == [] then map[]
    else
      var p := positions[|positions| - 1];
      var m := PricesOf(positions[..|positions| - 1]);
      var m' := if p.collateralPriceWad > 0 then m[p.collateralAsset := p.collateralPriceWad] else m;
      if p.debtPriceWad > 0 then m'[p.debtAsset := p.debtPriceWad] else m'
  }

  function MarketOf(positions: seq<SimPosition>): P.Market {
    P.Market(PricesOf(positions), DecimalsOf(positions))
  }

  method BuildMarket(positions: seq<SimPosition>) returns (market: P.Market)
    ensures market == MarketOf(positions)
  {
    var prices, decimals := map[], map[];
    for i := 0 to |positions|
      invariant prices == PricesOf(positions[..i]) && decimals == DecimalsOf(positions[..i])
    {
      var p := positions[i];
      decimals := decimals[p.collateralAsset := p.collateralDecimals];
      decimals := decimals[p.debtAsset := p.debtDecimals];
      if p.collateralPriceWad > 0 {
        prices := prices[p.collateralAsset := p.collateralPriceWad];
      }
      if p.debtPriceWad > 0 {
        prices := prices[p.debtAsset := p.debtPriceWad];
      }
      assert positions[..i + 1][..i] == positions[..i];
    }
    assert positions[..|positions|] == positions;
    market := P.Market(prices, decimals);
  }

  method SelectCandidate(list: seq<SimCandidate>, wanted: Option<Address>) returns (selected: Option<SimCandidate>)
    ensures selected == Selected(list, wanted)
  {
    selected := None;
    for i := 0 to |list|
      invariant selected == Selected(list[..i], wanted)
    {
      var candidate := list[i];
      assert list[..i + 1][..i] == list[..i];
      if wanted.Some? && candidate.source.adapterAddress != wanted.value {
        continue;
      }
      if selected == None || candidate.source.availableCollateral > selected.value.source.availableCollateral {
        selected := Some(candidate);
      }
    }
    assert list[..|list|] == list;
  }

  method SimulateApiGuardDecision(positions: seq<SimPosition>, canonicalMap: map<Address, Address>, dto: Dto)
    returns (outcome: SimOutcome)
    requires dto.Valid()
    ensures outcome == Simulate(Flatten(positions), canonicalMap, dto, MarketOf(positions))
  {
    if positions == [] {
      return SimStop(P.Abort, P.NoPositionsFound);
    }
    var flat := FlattenPositions(positions);
    var debtBearing := ByRisk(DebtBearing(flat));
    if debtBearing == [] {
      return SimStop(P.Abort, P.NoDebtBearing);
    }
    var weakest := debtBearing[0];
    if !GuardLetsPass(weakest, dto) {
      return SimStop(P.NoAction, P.GuardVerdict);
    }
    var target := if dto.targetAdapter.Some? then Find(debtBearing, dto.targetAdapter.value) else Some(weakest);
    if target == None {
      return SimStop(P.Abort, P.TargetNotDebtBearing);
    }
    var sourceCandidates := Candidates(flat, target.value, canonicalMap, dto);
    if sourceCandidates == [] {
      return SimStop(P.Abort, P.NoCompatibleSource);
    }
    var selected := SelectCandidate(sourceCandidates, dto.sourceAdapter);
    if selected == None {
      return SimStop(P.Abort, P.NoEligibleSource);
    }
    var source := selected.value.source;
    var isCrossChain := source.chainId != target.value.chainId;
    if dto.forceCrossChain {
      isCrossChain := true;
    }
    if isCrossChain && !dto.allowCrossChain {
      return SimStop(P.Abort, P.CrossChainDisabled);
    }
    var market := BuildMarket(positions);
    outcome := Size(SimSelection(target.value, source, selected.value.mode, isCrossChain), dto, market);
  }
}
