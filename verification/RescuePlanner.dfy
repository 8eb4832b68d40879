/**
 The rescue planner of the CRE workflow (full-flow-v1.ts): which position to rescue, from where,
 in which mode, and how much to move.

 Addresses and chain keys are lower-cased strings; an empty chain key stands for an absent one.
 A price of 0 stands for a missing price as well as for a zero one: the source only ever tests the
 price for truth.
 */
module RescuePlanner {
  import opened Common
  import opened FixedPoint
  import StableSort

  type Address = string

  datatype Decision = NoAction | RescueSameChain | RescueCrossChain | Abort
  datatype Mode = TopUp | Repay

  datatype Position = Position(
    collateralAsset: Address,
    debtAsset: Address,
    collateralAmount: nat,
    debtAmount: nat,
    healthFactor: nat,
    liquidationThresholdBps: nat
  )

  datatype Snapshot = Snapshot(
    adapterAddress: Address,
    positions: seq<Position>,
    availableCollateral: nat,
    chainId: Option<nat>,
    chainKey: string,
    isConfiguredAdapter: bool,
    rescueTargetChainSelector: Option<nat>
  )

  datatype FlatPosition = FlatPosition(
    adapterAddress: Address,
    availableCollateral: nat,
    chainId: Option<nat>,
    chainKey: string,
    isConfiguredAdapter: bool,
    rescueTargetChainSelector: Option<nat>,
    position: Position
  )

  /** What the guard evaluation found out about assets. */
  datatype Market = Market(prices: map<Address, nat>, decimals: map<Address, nat>) {
    function Price(asset: Address): nat {
      if asset in prices then prices[asset] else 0
    }

    function Decimals(asset: Address): nat {
      if asset in decimals then decimals[asset] else 18
    }
  }

  datatype Policy = Policy(
    executionChainKey: string,
    crossChainAssetMap: map<Address, Address>,
    allowCrossChain: bool,
    reserveCapBps: nat,
    maxRescueNotionalUsd: int,
    minActionUsd: int,
    targetHfBps: Option<int>,
    earlyWarningHfBps: nat,
    destinationChainSelector: nat
  ) {
    /** The config parser admits reserve caps from 1 to 10000 only. */
    predicate Valid() {
      reserveCapBps <= BPS_DENOM
    }
  }

  /** The optional overrides of a trigger's body. */
  datatype Request = Request(
    targetAdapter: Option<Address>,
    sourceAdapter: Option<Address>,
    forceCrossChain: bool,
    transferAmount: Option<nat>,
    targetHfBps: Option<int>,
    sourceFloorHfBps: Option<nat>,
    minActionUsd: Option<int>,
    targetChainSelector: Option<nat>,
    targetCollateralAsset: Option<Address>,
    targetDebtAsset: Option<Address>
  )

  const NO_OVERRIDES := Request(None, None, false, None, None, None, None, None, None, None)

  /** Contract reads made on the way; None is a read that threw. */
  datatype ChainReads = ChainReads(
    rescueInProgress: Option<bool>,
    pending: Option<PendingReads>,
    rescueStatus: Option<nat>
  ) {
    /** Only a pending execution that is dispatched and has its message id stops a new one. */
    predicate PendingSettlement() {
      pending.Some? && pending.value.status == Some(DISPATCHED_STATUS) && pending.value.hasMessageId == Some(true)
    }
  }

  /** The two reads about the pending execution a request names. */
  datatype PendingReads = PendingReads(status: Option<nat>, hasMessageId: Option<bool>)

  const DISPATCHED_STATUS: nat := 2

  datatype Reason =
    | GuardVerdict
    | LockUnreadable
    | AlreadyInProgress
    | PendingSettlement
    | NoPositionsFound
    | NoDebtBearing
    | TargetNotDebtBearing
    | NoCompatibleSource
    | NoEligibleSource
    | CrossChainDisabled
    | StatusUnreadable
    | ExecutionIdUsed
    | NoSwapFailed
    | AmountZero
    | BelowMinimum
    | SelectorMissing

  datatype Candidate = Candidate(source: FlatPosition, mode: Mode)

  datatype Selection = Selection(target: FlatPosition, source: FlatPosition, mode: Mode, isCrossChain: bool)

  datatype Step = Step(
    sourceAdapter: Address,
    targetAdapter: Address,
    collateralAsset: Address,
    debtAsset: Address,
    collateralAmount: nat,
    debtAmount: nat,
    isCrossChain: bool,
    targetChain: nat
  )

  datatype Outcome = Stop(decision: Decision, reason: Reason) | Planned(mode: Mode, step: Step)

  // ------------------------------------------------------------------ discovery

  /** What one configured adapter answers; None is a read that threw. */
  datatype AdapterRead = AdapterRead(
    adapterAddress: Address,
    positions: Option<seq<Position>>,
    chainId: Option<nat>,
    chainKey: string,
    rescueTargetChainSelector: Option<nat>
  )

  function TotalCollateral(positions: seq<Position>): nat {
    if positions == [] then 0
    else TotalCollateral(positions[..|positions| - 1]) + positions[|positions| - 1].collateralAmount
  }

  function SnapshotOf(a: AdapterRead): Snapshot
    requires a.positions.Some?
  {
    Snapshot(a.adapterAddress, a.positions.value, TotalCollateral(a.positions.value), a.chainId, a.chainKey, true,
             a.rescueTargetChainSelector)
  }

  predicate Discovered(a: AdapterRead) {
    a.positions.Some? && a.positions.value != []
  }

  function SnapshotsOf(adapters: seq<AdapterRead>): seq<Snapshot> {
    if adapters == [] then []
    else
      var last := adapters[|adapters| - 1];
      SnapshotsOf(adapters[..|adapters| - 1]) + (if Discovered(last) then [SnapshotOf(last)] else [])
  }

  /** One snapshot per adapter that answers with positions. */
  method ReadAdapters(adapters: seq<AdapterRead>) returns (snapshots: seq<Snapshot>)
    ensures snapshots == SnapshotsOf(adapters)
  {
    snapshots := [];
    for i := 0 to |adapters|
      invariant snapshots == SnapshotsOf(adapters[..i])
    {
      assert adapters[..i + 1][..i] == adapters[..i];
      var a := adapters[i];
      if a.positions.None? || |a.positions.value| == 0 {
        continue;
      }
      var availableCollateral := 0;
      for j := 0 to |a.positions.value|
        invariant availableCollateral == TotalCollateral(a.positions.value[..j])
      {
        assert a.positions.value[..j + 1][..j] == a.positions.value[..j];
        availableCollateral := availableCollateral + a.positions.value[j].collateralAmount;
      }
      assert a.positions.value[..|a.positions.value|] == a.positions.value;
      snapshots := snapshots + [Snapshot(a.adapterAddress, a.positions.value, availableCollateral, a.chainId,
                                         a.chainKey, true, a.rescueTargetChainSelector)];
    }
    assert adapters[..|adapters|] == adapters;
  }

  // ------------------------------------------------------------------ selection

  function Flatten(snapshots: seq<Snapshot>): seq<FlatPosition> {
    if snapshots == [] then []
    else Flatten(snapshots[..|snapshots| - 1]) +
         FlattenOne(snapshots[|snapshots| - 1], |snapshots[|snapshots| - 1].positions|)
  }

  function FlattenOne(snap: Snapshot, n: nat): seq<FlatPosition>
    requires n <= |snap.positions|
  {
    seq(n, i requires 0 <= i < n => AtAdapter(snap, snap.positions[i]))
  }

  function AtAdapter(snap: Snapshot, position: Position): FlatPosition {
    FlatPosition(snap.adapterAddress, snap.availableCollateral, snap.chainId, snap.chainKey,
                 snap.isConfiguredAdapter, snap.rescueTargetChainSelector, position)
  }

  method FlattenPositions(snapshots: seq<Snapshot>) returns (flat: seq<FlatPosition>)
    ensures flat == Flatten(snapshots)
  {
    flat := [];
    for i := 0 to |snapshots|
      invariant flat == Flatten(snapshots[..i])
    {
      var snap := snapshots[i];
      ghost var before := flat;
      for j := 0 to |snap.positions|
        invariant flat == before + FlattenOne(snap, j)
      {
        flat := flat + [AtAdapter(snap, snap.positions[j])];
        assert FlattenOne(snap, j + 1) == FlattenOne(snap, j) + [AtAdapter(snap, snap.positions[j])];
      }
      assert snapshots[..i + 1][..i] == snapshots[..i];
    }
    assert snapshots[..|snapshots|] == snapshots;
  }

  function DebtBearing(flat: seq<FlatPosition>): (r: seq<FlatPosition>)
    ensures forall p :: p in r <==> p in flat && p.position.debtAmount > 0
  {
    if flat == [] then []
    else
      var last := flat[|flat| - 1];
      DebtBearing(flat[..|flat| - 1]) + (if last.position.debtAmount > 0 then [last] else [])
  }

  predicate AtMostAsHealthy(a: FlatPosition, b: FlatPosition) {
    a.position.healthFactor <= b.position.healthFactor
  }

  function ByRisk(flat: seq<FlatPosition>): seq<FlatPosition> {
    StableSort.Sort(AtMostAsHealthy, flat)
  }

  function FindAdapter(list: seq<FlatPosition>, adapter: Address): Option<FlatPosition> {
    if list == [] then None
    else if list[0].adapterAddress == adapter then Some(list[0])
    else FindAdapter(list[1..], adapter)
  }

  function PickTarget(sorted: seq<FlatPosition>, wanted: Option<Address>): FlatPosition
    requires sorted != []
  {
    match wanted
    case None => sorted[0]
    case Some(adapter) => FindAdapter(sorted, adapter).GetOr(sorted[0])
  }

  function CanonicalAsset(asset: Address, assetMap: map<Address, Address>): Address {
    if asset in assetMap then assetMap[asset] else asset
  }

  predicate IsSameChain(a: FlatPosition, b: FlatPosition) {
    if a.chainId.Some? && b.chainId.Some? then a.chainId == b.chainId
    else if a.chainKey != "" && b.chainKey != "" then a.chainKey == b.chainKey
    else true
  }

  function InferRescueMode(source: Position, target: Position, assetMap: map<Address, Address>): Option<Mode> {
    var srcCollateral := CanonicalAsset(source.collateralAsset, assetMap);
    var srcDebt := CanonicalAsset(source.debtAsset, assetMap);
    var tgtCollateral := CanonicalAsset(target.collateralAsset, assetMap);
    var tgtDebt := CanonicalAsset(target.debtAsset, assetMap);
    if srcCollateral == tgtCollateral && srcDebt == tgtDebt then Some(TopUp)
    else if srcCollateral == tgtDebt && srcDebt == tgtCollateral then Some(Repay)
    else if srcCollateral == tgtDebt then Some(Repay)
    else if srcCollateral == tgtCollateral then Some(TopUp)
    else None
  }

  predicate InSourcePool(p: FlatPosition, target: FlatPosition, executionChainKey: string) {
    && p.adapterAddress != target.adapterAddress
    && p.availableCollateral > 0
    && p.isConfiguredAdapter
    && (p.chainKey != "" ==> p.chainKey == executionChainKey)
  }

  function Candidates(flat: seq<FlatPosition>, target: FlatPosition, policy: Policy): (r: seq<Candidate>)
    ensures forall c :: c in r <==>
                        && c.source in flat && InSourcePool(c.source, target, policy.executionChainKey)
                        && InferRescueMode(c.source.position, target.position, policy.crossChainAssetMap)
                           == Some(c.mode)
  {
    if flat == [] then []
    else Candidates(flat[..|flat| - 1], target, policy) + CandidateAt(flat[|flat| - 1], target, policy)
  }

  function CandidateAt(p: FlatPosition, target: FlatPosition, policy: Policy): seq<Candidate> {
    var mode := InferRescueMode(p.position, target.position, policy.crossChainAssetMap);
    if InSourcePool(p, target, policy.executionChainKey) && mode.Some? then [Candidate(p, mode.value)] else []
  }

  predicate Allowed(c: Candidate, wanted: Option<Address>) {
    wanted == None || wanted == Some(c.source.adapterAddress)
  }

  function Best(list: seq<Candidate>, wanted: Option<Address>): Option<Candidate> {
    if list == [] then None
    else
      var item := list[|list| - 1];
      var best := Best(list[..|list| - 1], wanted);
      if !Allowed(item, wanted) then best
      else if best == None || item.source.availableCollateral > best.value.source.availableCollateral then Some(item)
      else best
  }

  function Select(flat: seq<FlatPosition>, policy: Policy, request: Request): Result<Selection, Reason> {
    var sorted := ByRisk(DebtBearing(flat));
    if sorted == [] then Err(NoDebtBearing)
    else SelectFor(flat, PickTarget(sorted, request.targetAdapter), policy, request)
  }

  function SelectFor(flat: seq<FlatPosition>, target: FlatPosition, policy: Policy, request: Request)
    : Result<Selection, Reason>
  {
    var candidates := Candidates(flat, target, policy);
    if candidates == [] then Err(NoCompatibleSource)
    else
      match Best(candidates, request.sourceAdapter)
      case None => Err(NoEligibleSource)
      case Some(best) =>
        var isCrossChain := request.forceCrossChain || !IsSameChain(best.source, target);
        if isCrossChain && !policy.allowCrossChain then Err(CrossChainDisabled)
        else Ok(Selection(target, best.source, best.mode, isCrossChain))
  }

  // ------------------------------------------------------------------ sizing

  function CollateralUsd(p: Position, market: Market): nat {
    ToUsdWad(p.collateralAmount, market.Decimals(p.collateralAsset), market.Price(p.collateralAsset))
  }

  function DebtUsd(p: Position, market: Market): nat {
    ToUsdWad(p.debtAmount, market.Decimals(p.debtAsset), market.Price(p.debtAsset))
  }

  function EffectiveUsd(p: Position, market: Market): nat {
    EffectiveCollateral(CollateralUsd(p, market), p.liquidationThresholdBps)
  }

  /** The effective collateral that would put a debt exactly at a health factor, rounded down. */
  function EffectiveAtHf(hfBps: nat, debtUsdWad: nat): nat {
    hfBps * WAD_PER_BPS * debtUsdWad / WAD
  }

  /** The debt that effective collateral supports at a health factor, rounded down. */
  function DebtAtHf(effectiveUsdWad: nat, hfBps: nat): nat
    requires hfBps > 0
  {
    DivBounds(effectiveUsdWad * WAD, hfBps * WAD_PER_BPS);
    effectiveUsdWad * WAD / (hfBps * WAD_PER_BPS)
  }

  predicate Priced(p: Position, market: Market) {
    market.Price(p.collateralAsset) != 0 && market.Price(p.debtAsset) != 0
  }

  function EstimateNeededAction(mode: Mode, target: Position, targetHfBps: nat, market: Market): nat {
    if !Priced(target, market) || targetHfBps == 0 then
      if mode == TopUp then target.collateralAmount / 10 else target.debtAmount / 5
    else
      var debtUsd := DebtUsd(target, market);
      var effective := EffectiveUsd(target, market);
      var lt := target.liquidationThresholdBps;
      match mode
      case TopUp =>
        var wanted := EffectiveAtHf(targetHfBps, debtUsd);
        if wanted <= effective then 0
        else if lt == 0 then 0
        else
          DivBounds((wanted - effective) * BPS_DENOM, lt);
          FromUsdWadToAmount((wanted - effective) * BPS_DENOM / lt,
                             market.Decimals(target.collateralAsset), market.Price(target.collateralAsset))
      case Repay =>
        var maxDebt := DebtAtHf(effective, targetHfBps);
        if debtUsd <= maxDebt then 0
        else FromUsdWadToAmount(debtUsd - maxDebt, market.Decimals(target.debtAsset), market.Price(target.debtAsset))
  }

  predicate FloorApplies(source: Position, floorHfBps: nat, market: Market) {
    floorHfBps > 0 && Priced(source, market) && source.debtAmount > 0
  }

  function SourceHfSafeCap(source: FlatPosition, floorHfBps: nat, market: Market): nat {
    var p := source.position;
    if !FloorApplies(p, floorHfBps, market) then source.availableCollateral
    else
      var effective := EffectiveUsd(p, market);
      var minEffective := EffectiveAtHf(floorHfBps, DebtUsd(p, market));
      if p.liquidationThresholdBps == 0 || effective <= minEffective then 0
      else
        DivBounds((effective - minEffective) * BPS_DENOM, p.liquidationThresholdBps);
        FromUsdWadToAmount((effective - minEffective) * BPS_DENOM / p.liquidationThresholdBps,
                           market.Decimals(p.collateralAsset), market.Price(p.collateralAsset))
  }

  function ReserveSafe(availableCollateral: nat, reserveCapBps: nat): nat
    requires reserveCapBps <= BPS_DENOM
  {
    availableCollateral * (BPS_DENOM - reserveCapBps) / BPS_DENOM
  }

  function MaxNotionalWad(policy: Policy): nat {
    Max(0, policy.maxRescueNotionalUsd) * WAD
  }

  function ClampNotional(amount: nat, maxNotionalWad: nat, decimals: nat, price: nat): nat {
    if price != 0 && ToUsdWad(amount, decimals, price) > maxNotionalWad
    then FromUsdWadToAmount(maxNotionalWad, decimals, price)
    else amount
  }

  function TargetHfBps(policy: Policy, request: Request): nat {
    Max(10000, request.targetHfBps.GetOr(policy.targetHfBps.GetOr(policy.earlyWarningHfBps)))
  }

  function FloorHfBps(policy: Policy, request: Request): nat {
    request.sourceFloorHfBps.GetOr(policy.earlyWarningHfBps)
  }

  function MinActionUsd(policy: Policy, request: Request): nat {
    Max(0, request.minActionUsd.GetOr(policy.minActionUsd))
  }

  function DesiredAmount(s: Selection, policy: Policy, request: Request, market: Market): nat {
    match request.transferAmount
    case Some(amount) => amount
    case None => EstimateNeededAction(s.mode, s.target.position, TargetHfBps(policy, request), market)
  }

  function ActionAmount(s: Selection, policy: Policy, request: Request, market: Market): nat
    requires policy.Valid()
  {
    var asset := s.source.position.collateralAsset;
    var bounded := Min(DesiredAmount(s, policy, request, market),
                       Min(ReserveSafe(s.source.availableCollateral, policy.reserveCapBps),
                           SourceHfSafeCap(s.source, FloorHfBps(policy, request), market)));
    ClampNotional(bounded, MaxNotionalWad(policy), market.Decimals(asset), market.Price(asset))
  }

  function TargetAsset(s: Selection, request: Request): Address {
    match s.mode
    case TopUp => request.targetCollateralAsset.GetOr(s.target.position.collateralAsset)
    case Repay => request.targetDebtAsset.GetOr(s.target.position.debtAsset)
  }

  function DestinationChain(s: Selection, policy: Policy, request: Request): nat {
    if s.isCrossChain
    then request.targetChainSelector.GetOr(s.source.rescueTargetChainSelector.GetOr(policy.destinationChainSelector))
    else 0
  }

  function BuildStep(s: Selection, amount: nat, policy: Policy, request: Request): Step {
    Step(s.source.adapterAddress,
         request.targetAdapter.GetOr(s.target.adapterAddress),
         s.source.position.collateralAsset,
         if s.mode == Repay then TargetAsset(s, request) else s.target.position.debtAsset,
         amount,
         if s.mode == Repay then amount else 0,
         s.isCrossChain,
         DestinationChain(s, policy, request))
  }

  /** The checks from the sized amount to the finished plan. */
  function Finish(s: Selection, policy: Policy, request: Request, market: Market): Outcome
    requires policy.Valid()
  {
    var asset := s.source.position.collateralAsset;
    var price := market.Price(asset);
    var amount := ActionAmount(s, policy, request, market);
    var amountUsd := if price != 0 then ToUsdWad(amount, market.Decimals(asset), price) else 0;
    if amount == 0 then Stop(Abort, AmountZero)
    else if price != 0 && MinActionUsd(policy, request) > 0 && amountUsd < MinActionUsd(policy, request) * WAD then
      Stop(NoAction, BelowMinimum)
    else if s.isCrossChain && DestinationChain(s, policy, request) == 0 then Stop(Abort, SelectorMissing)
    else Planned(s.mode, BuildStep(s, amount, policy, request))
  }

  /** From a selection to an outcome: the gates on the execution id and the asset, then sizing. */
  function Complete(s: Selection, policy: Policy, request: Request, market: Market, chain: ChainReads): Outcome
    requires policy.Valid()
  {
    if chain.rescueStatus == None then Stop(Abort, StatusUnreadable)
    else if chain.rescueStatus.value != 0 then Stop(NoAction, ExecutionIdUsed)
    else if !s.isCrossChain && s.source.position.collateralAsset != TargetAsset(s, request) then
      Stop(Abort, NoSwapFailed)
    else Finish(s, policy, request, market)
  }

  function PlanRescue(guard: Decision, flat: seq<FlatPosition>, market: Market, policy: Policy, request: Request,
                      chain: ChainReads): Outcome
    requires policy.Valid()
  {
    if guard == Abort || guard == NoAction then Stop(guard, GuardVerdict)
    else if chain.rescueInProgress == None then Stop(Abort, LockUnreadable)
    else if chain.rescueInProgress.value then Stop(Abort, AlreadyInProgress)
    else if chain.PendingSettlement() then Stop(NoAction, PendingSettlement)
    else
      match Select(flat, policy, request)
      case Err(reason) => Stop(Abort, reason)
      case Ok(s) => Complete(s, policy, request, market, chain)
  }

  /** The workflow up to the finished plan, in the source's own steps. */
  method RunChainlinkApiGuardFlow(guard: Decision, snapshots: seq<Snapshot>, market: Market, policy: Policy,
                                  request: Request, chain: ChainReads) returns (outcome: Outcome)
    requires policy.Valid()
    ensures outcome == PlanRescue(guard, Flatten(snapshots), market, policy, request, chain)
  {
    if guard == Abort || guard == NoAction {
      return Stop(guard, GuardVerdict);
    }
    if chain.rescueInProgress == None {
      return Stop(Abort, LockUnreadable);
    }
    if chain.rescueInProgress.value {
      return Stop(Abort, AlreadyInProgress);
    }
    var pendingStatus, pendingMessage := 0, false;
    if chain.pending.Some? && chain.pending.value.status.Some? {
      pendingStatus := chain.pending.value.status.value;
      if chain.pending.value.hasMessageId.Some? {
        pendingMessage := chain.pending.value.hasMessageId.value;
      }
    }
    if pendingStatus == DISPATCHED_STATUS && pendingMessage {
      return Stop(NoAction, PendingSettlement);
    }
    var flat := FlattenPositions(snapshots);
    var debtBearing := FilterDebtBearing(flat);
    SortEmpty(debtBearing);
    if debtBearing == [] {
      return Stop(Abort, NoDebtBearing);
    }
    debtBearing := ByRisk(debtBearing);
    var target := PickTarget(debtBearing, request.targetAdapter);
    var sourceCandidates := CollectCandidates(flat, target, policy);
    if sourceCandidates == [] {
      return Stop(Abort, NoCompatibleSource);
    }
    var best := ChooseHighestCollateral(sourceCandidates, request.sourceAdapter);
    if best == None {
      return Stop(Abort, NoEligibleSource);
    }
    var source := best.value.source;
    var useCrossChain := !IsSameChain(source, target);
    if request.forceCrossChain {
      useCrossChain := true;
    }
    if useCrossChain && !policy.allowCrossChain {
      return Stop(Abort, CrossChainDisabled);
    }
    var selection := Selection(target, source, best.value.mode, useCrossChain);
    if chain.rescueStatus == None {
      return Stop(Abort, StatusUnreadable);
    }
    if chain.rescueStatus.value != 0 {
      return Stop(NoAction, ExecutionIdUsed);
    }
    var sourceAsset := source.position.collateralAsset;
    if !useCrossChain && sourceAsset != TargetAsset(selection, request) {
      return Stop(Abort, NoSwapFailed);
    }
    outcome := SizeAndBuild(selection, policy, request, market);
  }

  method FilterDebtBearing(flat: seq<FlatPosition>) returns (debtBearing: seq<FlatPosition>)
    ensures debtBearing == DebtBearing(flat)
  {
    debtBearing := [];
    for i := 0 to |flat|
      invariant debtBearing == DebtBearing(flat[..i])
    {
      if flat[i].position.debtAmount > 0 {
        debtBearing := debtBearing + [flat[i]];
      }
      assert flat[..i + 1][..i] == flat[..i];
    }
    assert flat[..|flat|] == flat;
  }

  method CollectCandidates(flat: seq<FlatPosition>, target: FlatPosition, policy: Policy)
    returns (sourceCandidates: seq<Candidate>)
    ensures sourceCandidates == Candidates(flat, target, policy)
  {
    sourceCandidates := [];
    for i := 0 to |flat|
      invariant sourceCandidates == Candidates(flat[..i], target, policy)
    {
      var source := flat[i];
      if InSourcePool(source, target, policy.executionChainKey) {
        var inferred := InferRescueMode(source.position, target.position, policy.crossChainAssetMap);
        if inferred.Some? {
          sourceCandidates := sourceCandidates + [Candidate(source, inferred.value)];
        }
      }
      assert flat[..i + 1][..i] == flat[..i];
    }
    assert flat[..|flat|] == flat;
  }

  method ChooseHighestCollateral(list: seq<Candidate>, wanted: Option<Address>) returns (best: Option<Candidate>)
    ensures best == Best(list, wanted)
  {
    best := None;
    for i := 0 to |list|
      invariant best == Best(list[..i], wanted)
    {
      var item := list[i];
      assert list[..i + 1][..i] == list[..i];
      if wanted.Some? && item.source.adapterAddress != wanted.value {
        continue;
      }
      if best == None || item.source.availableCollateral > best.value.source.availableCollateral {
        best := Some(item);
      }
    }
    assert list[..|list|] == list;
  }

  method SizeAndBuild(s: Selection, policy: Policy, request: Request, market: Market) returns (outcome: Outcome)
    requires policy.Valid()
    ensures outcome == Finish(s, policy, request, market)
  {
    var asset := s.source.position.collateralAsset;
    var desired := DesiredAmount(s, policy, request, market);
    var reserveSafe := ReserveSafe(s.source.availableCollateral, policy.reserveCapBps);
    var sourceCap := SourceHfSafeCap(s.source, FloorHfBps(policy, request), market);
    var actionAmount: nat := Min(desired, Min(reserveSafe, sourceCap));
    var price := market.Price(asset);
    var decimals := market.Decimals(asset);
    var minActionUsd := MinActionUsd(policy, request);
    var actionUsdWad := 0;
    if price != 0 {
      actionUsdWad := ToUsdWad(actionAmount, decimals, price);
      var maxNotionalUsdWad := MaxNotionalWad(policy);
      if actionUsdWad > maxNotionalUsdWad {
        actionAmount := FromUsdWadToAmount(maxNotionalUsdWad, decimals, price);
        actionUsdWad := ToUsdWad(actionAmount, decimals, price);
      }
    }
    if actionAmount <= 0 {
      return Stop(Abort, AmountZero);
    }
    if price != 0 && minActionUsd > 0 {
      if actionUsdWad < minActionUsd * WAD {
        return Stop(NoAction, BelowMinimum);
      }
    }
    var step := BuildStep(s, actionAmount, policy, request);
    if s.isCrossChain && step.targetChain == 0 {
      return Stop(Abort, SelectorMissing);
    }
    outcome := Planned(s.mode, step);
  }

  lemma SortEmpty(flat: seq<FlatPosition>)
    ensures ByRisk(flat) == [] <==> flat == []
  {
    StableSort.SortPermutes(AtMostAsHealthy, flat);
    assert |multiset(ByRisk(flat))| == |multiset(flat)|;
  }
}
