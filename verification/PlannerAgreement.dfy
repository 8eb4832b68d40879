/**
 The promise that the simulation endpoint matches the workflow's rescue planning: on the same positions,
 prices and policy the two planners reach the same verdict, except at the gates only the workflow has.
 */
module PlannerAgreement {
  import opened Common
  import opened FixedPoint
  import StableSort
  import P = RescuePlanner
  import S = PositionsSimulation
  import opened SimulationTheorems

  type Address = P.Address

  // ---- the same position, policy and request, as the workflow records them ----

  function AsPosition(p: S.SimPosition): P.Position {
    P.Position(p.collateralAsset, p.debtAsset, p.collateralAmountRaw, p.debtAmountRaw, p.healthFactorWad,
               p.liquidationThresholdBps)
  }

  function AsFlat(f: S.SimFlat, selectors: map<Address, nat>): P.FlatPosition {
    P.FlatPosition(f.adapterAddress, f.availableCollateral, Some(f.chainId), f.chainKey, true,
                   if f.adapterAddress in selectors then Some(selectors[f.adapterAddress]) else None,
                   AsPosition(f.position))
  }

  function AsFlats(flat: seq<S.SimFlat>, selectors: map<Address, nat>): (r: seq<P.FlatPosition>)
    ensures |r| == |flat| && forall i :: 0 <= i < |flat| ==> r[i] == AsFlat(flat[i], selectors)
  {
    seq(|flat|, i requires 0 <= i < |flat| => AsFlat(flat[i], selectors))
  }

  function AsCandidates(list: seq<S.SimCandidate>, selectors: map<Address, nat>): (r: seq<P.Candidate>)
    ensures |r| == |list|
    ensures forall i :: 0 <= i < |list| ==> r[i] == P.Candidate(AsFlat(list[i].source, selectors), list[i].mode)
  {
    seq(|list|, i requires 0 <= i < |list| => P.Candidate(AsFlat(list[i].source, selectors), list[i].mode))
  }

  function AsSelection(s: S.SimSelection, selectors: map<Address, nat>): P.Selection {
    P.Selection(AsFlat(s.target, selectors), AsFlat(s.source, selectors), s.mode, s.isCrossChain)
  }

  function AsPolicy(dto: S.Dto, canonicalMap: map<Address, Address>, destinationChainSelector: nat): P.Policy {
    P.Policy(dto.executionChainKey, canonicalMap, dto.allowCrossChain, dto.reserveCapBps, dto.maxRescueNotionalUsd,
             dto.minActionUsd, Some(dto.targetHfBps), dto.earlyWarningHfBps, destinationChainSelector)
  }

  function AsRequest(dto: S.Dto): P.Request {
    P.NO_OVERRIDES.(targetAdapter := dto.targetAdapter, sourceAdapter := dto.sourceAdapter,
                    forceCrossChain := dto.forceCrossChain, sourceFloorHfBps := Some(dto.sourceFloorHfBps))
  }

  const CLEAR := P.ChainReads(Some(false), None, Some(0))

  // ---- selection ----

  lemma {:induction false} DebtBearingAgrees(flat: seq<S.SimFlat>, sel: map<Address, nat>)
    ensures P.DebtBearing(AsFlats(flat, sel)) == AsFlats(S.DebtBearing(flat), sel)
  {
    if flat != [] {
      hide AsFlats;
      var rest, last := flat[..|flat| - 1], flat[|flat| - 1];
      DebtBearingAgrees(rest, sel);
      assert AsFlats(flat, sel)[..|flat| - 1] == AsFlats(rest, sel);
      var kept := if last.position.debtAmountRaw > 0 then [last] else [];
      assert AsFlats(kept, sel) == if last.position.debtAmountRaw > 0 then [AsFlat(last, sel)] else [];
      AsFlatsConcat(S.DebtBearing(rest), kept, sel);
    }
  }

  lemma {:induction false} InsertAgrees(x: S.SimFlat, list: seq<S.SimFlat>, sel: map<Address, nat>)
    ensures StableSort.Insert(P.AtMostAsHealthy, AsFlat(x, sel), AsFlats(list, sel))
            == AsFlats(StableSort.Insert(S.AtMostAsHealthy, x, list), sel)
  {
    if list == [] || S.AtMostAsHealthy(x, list[0]) {
      AsFlatsConcat([x], list, sel);
      assert AsFlats([x], sel) == [AsFlat(x, sel)];
    } else {
      var rest := StableSort.Insert(S.AtMostAsHealthy, x, list[1..]);
      assert AsFlats(list, sel)[1..] == AsFlats(list[1..], sel);
      InsertAgrees(x, list[1..], sel);
      AsFlatsConcat([list[0]], rest, sel);
      assert AsFlats([list[0]], sel) == [AsFlat(list[0], sel)];
    }
  }

  lemma {:induction false} SortAgrees(list: seq<S.SimFlat>, sel: map<Address, nat>)
    ensures P.ByRisk(AsFlats(list, sel)) == AsFlats(S.ByRisk(list), sel)
  {
    if list != [] {
      SortAgrees(list[1..], sel);
      assert AsFlats(list, sel)[1..] == AsFlats(list[1..], sel);
      InsertAgrees(list[0], S.ByRisk(list[1..]), sel);
    }
  }

  lemma {:induction false} FindAgrees(list: seq<S.SimFlat>, adapter: Address, sel: map<Address, nat>)
    ensures P.FindAdapter(AsFlats(list, sel), adapter)
            == (match S.Find(list, adapter) case None => None case Some(f) => Some(AsFlat(f, sel)))
  {
    if list != [] && list[0].adapterAddress != adapter {
      FindAgrees(list[1..], adapter, sel);
      assert AsFlats(list, sel)[1..] == AsFlats(list[1..], sel);
    }
  }

  /** A position always knows its chain; the backend never leaves the key blank. */
  predicate Located(flat: seq<S.SimFlat>) {
    forall i :: 0 <= i < |flat| ==> flat[i].chainKey != ""
  }

  lemma CandidateAgrees(source: S.SimFlat, target: S.SimFlat, canonicalMap: map<Address, Address>, dto: S.Dto,
                        dest: nat, sel: map<Address, nat>)
    requires source.chainKey != ""
    ensures P.CandidateAt(AsFlat(source, sel), AsFlat(target, sel), AsPolicy(dto, canonicalMap, dest))
            == AsCandidates(S.CandidateAt(source, target, canonicalMap, dto), sel)
  {
  }

  lemma AsCandidatesConcat(a: seq<S.SimCandidate>, b: seq<S.SimCandidate>, sel: map<Address, nat>)
    ensures AsCandidates(a + b, sel) == AsCandidates(a, sel) + AsCandidates(b, sel)
  {
  }

  lemma AsFlatsConcat(a: seq<S.SimFlat>, b: seq<S.SimFlat>, sel: map<Address, nat>)
    ensures AsFlats(a + b, sel) == AsFlats(a, sel) + AsFlats(b, sel)
  {
  }

  lemma {:induction false} CandidatesAgree(flat: seq<S.SimFlat>, target: S.SimFlat, canonicalMap: map<Address, Address>,
                                           dto: S.Dto, dest: nat, sel: map<Address, nat>)
    requires Located(flat)
    ensures P.Candidates(AsFlats(flat, sel), AsFlat(target, sel), AsPolicy(dto, canonicalMap, dest))
            == AsCandidates(S.Candidates(flat, target, canonicalMap, dto), sel)
  {
    if flat != [] {
      var rest, last := flat[..|flat| - 1], flat[|flat| - 1];
      CandidatesAgree(rest, target, canonicalMap, dto, dest, sel);
      assert AsFlats(flat, sel)[..|flat| - 1] == AsFlats(rest, sel);
      CandidateAgrees(last, target, canonicalMap, dto, dest, sel);
      AsCandidatesConcat(S.Candidates(rest, target, canonicalMap, dto),
                         S.CandidateAt(last, target, canonicalMap, dto), sel);
    }
  }

  lemma {:induction false} SelectedAgrees(list: seq<S.SimCandidate>, wanted: Option<Address>, sel: map<Address, nat>)
    ensures P.Best(AsCandidates(list, sel), wanted)
            == (match S.Selected(list, wanted)
                case None => None
                case Some(c) => Some(P.Candidate(AsFlat(c.source, sel), c.mode)))
  {
    if list != [] {
      var rest := list[..|list| - 1];
      SelectedAgrees(rest, wanted, sel);
      assert AsCandidates(list, sel)[..|list| - 1] == AsCandidates(rest, sel);
    }
  }

  /** The backend's selection, read as the workflow's. */
  function AsResult(r: Result<S.SimSelection, P.Reason>, sel: map<Address, nat>): Result<P.Selection, P.Reason> {
    match r
    case Err(reason) => Err(reason)
    case Ok(s) => Ok(AsSelection(s, sel))
  }

  lemma SelectForAgrees(flat: seq<S.SimFlat>, target: S.SimFlat, canonicalMap: map<Address, Address>, dto: S.Dto,
                        dest: nat, sel: map<Address, nat>)
    requires Located(flat)
    ensures P.SelectFor(AsFlats(flat, sel), AsFlat(target, sel), AsPolicy(dto, canonicalMap, dest), AsRequest(dto))
            == AsResult(S.SelectFor(flat, target, canonicalMap, dto), sel)
  {
    hide P.Candidates, P.Best, S.Candidates, S.Selected, AsFlats;
    CandidatesAgree(flat, target, canonicalMap, dto, dest, sel);
    SelectedAgrees(S.Candidates(flat, target, canonicalMap, dto), dto.sourceAdapter, sel);
  }

  lemma SelectionAgrees(flat: seq<S.SimFlat>, canonicalMap: map<Address, Address>, dto: S.Dto, dest: nat,
                        sel: map<Address, nat>)
    requires Located(flat)
    requires !HasDebt(flat) || (SomeLow(flat, dto) && TargetServed(flat, dto))
    ensures P.Select(AsFlats(flat, sel), AsPolicy(dto, canonicalMap, dest), AsRequest(dto))
            == AsResult(S.Select(flat, canonicalMap, dto), sel)
  {
    hide HasDebt, SomeLow, TargetServed;
    RefusalsIff(flat, canonicalMap, dto);
    DebtBearingAgrees(flat, sel);
    SortAgrees(S.DebtBearing(flat), sel);
    var sorted := S.ByRisk(S.DebtBearing(flat));
    if sorted != [] {
      if dto.targetAdapter.Some? {
        FindAgrees(sorted, dto.targetAdapter.value, sel);
      }
      var found := if dto.targetAdapter.Some? then S.Find(sorted, dto.targetAdapter.value) else Some(sorted[0]);
      assert found.Some?;
      assert P.PickTarget(AsFlats(sorted, sel), dto.targetAdapter) == AsFlat(found.value, sel);
      SelectForAgrees(flat, found.value, canonicalMap, dto, dest, sel);
    }
  }

  /** The workflow has neither refusal: its guard comes before, and it falls back on the weakest position. */
  lemma OnlySimulationRefuses(flat: seq<P.FlatPosition>, policy: P.Policy, request: P.Request)
    ensures P.Select(flat, policy, request) !in {Err(P.GuardVerdict), Err(P.TargetNotDebtBearing)}
  {
  }

  /** The two planners select the same target, source, mode and route, or refuse for the same reason, exactly
      when there is no debt at all, or the simulation's guard lets the portfolio pass and any requested target
      has debt. */
  lemma SelectionsAgreeIff(flat: seq<S.SimFlat>, canonicalMap: map<Address, Address>, dto: S.Dto, dest: nat,
                           sel: map<Address, nat>)
    requires Located(flat)
    ensures P.Select(AsFlats(flat, sel), AsPolicy(dto, canonicalMap, dest), AsRequest(dto))
            == AsResult(S.Select(flat, canonicalMap, dto), sel)
            <==> !HasDebt(flat) || (SomeLow(flat, dto) && TargetServed(flat, dto))
  {
    hide HasDebt, SomeLow, TargetServed, P.Select, S.Select;
    if !HasDebt(flat) || (SomeLow(flat, dto) && TargetServed(flat, dto)) {
      SelectionAgrees(flat, canonicalMap, dto, dest, sel);
    } else {
      RefusalsIff(flat, canonicalMap, dto);
      OnlySimulationRefuses(AsFlats(flat, sel), AsPolicy(dto, canonicalMap, dest), AsRequest(dto));
    }
  }

  // ---- sizing ----

  /** The workflow's verdict on a selection, read off the backend's sizing of it. */
  function ExpectedFor(s: S.SimSelection, dto: S.Dto, canonicalMap: map<Address, Address>, dest: nat,
                       sel: map<Address, nat>, market: P.Market): P.Outcome
    requires dto.Valid()
  {
    var policy, request, t := AsPolicy(dto, canonicalMap, dest), AsRequest(dto), AsSelection(s, sel);
    match S.Size(s, dto, market)
    case SimStop(decision, reason) => P.Stop(decision, reason)
    case SimPlan(_, amount, _) =>
      if s.isCrossChain && P.DestinationChain(t, policy, request) == 0 then P.Stop(P.Abort, P.SelectorMissing)
      else P.Planned(s.mode, P.BuildStep(t, amount, policy, request))
  }

  lemma SizingAgrees(s: S.SimSelection, dto: S.Dto, canonicalMap: map<Address, Address>, dest: nat,
                     sel: map<Address, nat>, market: P.Market)
    requires dto.Valid()
    ensures P.Finish(AsSelection(s, sel), AsPolicy(dto, canonicalMap, dest), AsRequest(dto), market)
            == ExpectedFor(s, dto, canonicalMap, dest, sel, market)
  {
    hide ToUsdWad, FromUsdWadToAmount, Pow10;
    var policy, request := AsPolicy(dto, canonicalMap, dest), AsRequest(dto);
    assert P.TargetHfBps(policy, request) == dto.targetHfBps;
    assert P.EstimateNeededAction(s.mode, AsPosition(s.target.position), dto.targetHfBps, market)
           == S.EstimateNeededAction(s.mode, s.target, dto.targetHfBps, market);
    assert P.SourceHfSafeCap(AsFlat(s.source, sel), dto.sourceFloorHfBps, market)
           == S.ComputeSourceHfSafeCap(s.source, dto.sourceFloorHfBps, market);
  }

  /** A same-chain rescue that would need a swap: only the workflow notices. */
  predicate NeedsSwap(s: S.SimSelection) {
    && !s.isCrossChain
    && s.source.position.collateralAsset != (if s.mode == P.TopUp then s.target.position.collateralAsset
                                             else s.target.position.debtAsset)
  }

  function ExpectedVerdict(flat: seq<S.SimFlat>, canonicalMap: map<Address, Address>, dto: S.Dto, dest: nat,
                           sel: map<Address, nat>, market: P.Market): P.Outcome
    requires dto.Valid()
  {
    match S.Select(flat, canonicalMap, dto)
    case Err(reason) => P.Stop(P.Abort, reason)
    case Ok(s) =>
      if NeedsSwap(s) then P.Stop(P.Abort, P.NoSwapFailed)
      else ExpectedFor(s, dto, canonicalMap, dest, sel, market)
  }

  lemma CompletionAgrees(s: S.SimSelection, dto: S.Dto, canonicalMap: map<Address, Address>, dest: nat,
                         sel: map<Address, nat>, market: P.Market)
    requires dto.Valid()
    ensures P.Complete(AsSelection(s, sel), AsPolicy(dto, canonicalMap, dest), AsRequest(dto), market, CLEAR)
            == (if NeedsSwap(s) then P.Stop(P.Abort, P.NoSwapFailed)
                else ExpectedFor(s, dto, canonicalMap, dest, sel, market))
  {
    SizingAgrees(s, dto, canonicalMap, dest, sel, market);
  }

  lemma PlanOfSelection(guard: P.Decision, flat: seq<P.FlatPosition>, market: P.Market, policy: P.Policy,
                        request: P.Request)
    requires policy.Valid() && (guard == P.RescueSameChain || guard == P.RescueCrossChain)
    ensures P.PlanRescue(guard, flat, market, policy, request, CLEAR)
            == (match P.Select(flat, policy, request)
                case Err(reason) => P.Stop(P.Abort, reason)
                case Ok(s) => P.Complete(s, policy, request, market, CLEAR))
  {
  }

  /** The same refusal, or the same mode, adapters, amounts and route, or one of the workflow's own refusals. */
  predicate SameVerdict(simulated: S.SimOutcome, run: P.Outcome) {
    match simulated
    case SimStop(decision, reason) => run in {P.Stop(decision, reason), P.Stop(P.Abort, P.NoSwapFailed)}
    case SimPlan(s, amount, debtAmount) =>
      match run
      case Stop(_, reason) => reason in {P.NoSwapFailed, P.SelectorMissing}
      case Planned(mode, step) =>
        && mode == s.mode
        && step.sourceAdapter == s.source.adapterAddress && step.targetAdapter == s.target.adapterAddress
        && step.collateralAmount == amount && step.debtAmount == debtAmount
        && step.isCrossChain == s.isCrossChain
  }

  /** Once the simulation's guard lets a portfolio pass and any requested target has debt, the two planners
      agree: same refusal, or same mode, adapters, assets, amounts and route. Only the
      workflow's own gates (chain reads, no-swap, destination selector) can tell them apart. */
  lemma PlannersAgree(guard: P.Decision, flat: seq<S.SimFlat>, canonicalMap: map<Address, Address>, dto: S.Dto,
                      dest: nat, sel: map<Address, nat>, market: P.Market)
    requires dto.Valid() && Located(flat)
    requires guard == P.RescueSameChain || guard == P.RescueCrossChain
    requires SomeLow(flat, dto) && TargetServed(flat, dto)
    ensures P.PlanRescue(guard, AsFlats(flat, sel), market, AsPolicy(dto, canonicalMap, dest), AsRequest(dto), CLEAR)
            == ExpectedVerdict(flat, canonicalMap, dto, dest, sel, market)
    ensures SameVerdict(S.Simulate(flat, canonicalMap, dto, market),
                        ExpectedVerdict(flat, canonicalMap, dto, dest, sel, market))
  {
    hide HasDebt, SomeLow, TargetServed, P.Select, S.Select, P.Complete, ExpectedFor, S.Size, SameVerdict, NeedsSwap;
    LowHasDebt(flat, dto);
    NoDebtInNone();
    SelectionAgrees(flat, canonicalMap, dto, dest, sel);
    RefusalsIff(flat, canonicalMap, dto);
    var policy, request := AsPolicy(dto, canonicalMap, dest), AsRequest(dto);
    PlanOfSelection(guard, AsFlats(flat, sel), market, policy, request);
    match S.Select(flat, canonicalMap, dto) {
      case Err(reason) => SameStop(P.Abort, reason);
      case Ok(s) =>
        CompletionAgrees(s, dto, canonicalMap, dest, sel, market);
        PickedTargetMatches(flat, canonicalMap, dto);
        SameForSelection(s, dto, canonicalMap, dest, sel, market);
    }
  }

  lemma SameStop(decision: P.Decision, reason: P.Reason)
    ensures SameVerdict(S.SimStop(decision, reason), P.Stop(decision, reason))
  {
  }

  lemma SameForSelection(s: S.SimSelection, dto: S.Dto, canonicalMap: map<Address, Address>, dest: nat,
                         sel: map<Address, nat>, market: P.Market)
    requires dto.Valid() && dto.targetAdapter.GetOr(s.target.adapterAddress) == s.target.adapterAddress
    ensures SameVerdict(S.Size(s, dto, market), ExpectedFor(s, dto, canonicalMap, dest, sel, market))
    ensures SameVerdict(S.Size(s, dto, market), P.Stop(P.Abort, P.NoSwapFailed))
  {
    hide S.EstimateNeededAction, S.ComputeSourceHfSafeCap, S.ClampNotional, ToUsdWad, FromUsdWadToAmount, Pow10;
  }

  lemma NoDebtInNone()
    ensures !HasDebt([])
  {
  }

  lemma {:induction false} FoundMatches(list: seq<S.SimFlat>, adapter: Address)
    requires S.Find(list, adapter).Some?
    ensures S.Find(list, adapter).value.adapterAddress == adapter
  {
    if list[0].adapterAddress != adapter {
      FoundMatches(list[1..], adapter);
    }
  }

  lemma PickedTargetMatches(flat: seq<S.SimFlat>, canonicalMap: map<Address, Address>, dto: S.Dto)
    requires S.Select(flat, canonicalMap, dto).Ok?
    ensures dto.targetAdapter.GetOr(S.Select(flat, canonicalMap, dto).value.target.adapterAddress)
            == S.Select(flat, canonicalMap, dto).value.target.adapterAddress
  {
    if dto.targetAdapter.Some? {
      FoundMatches(S.ByRisk(S.DebtBearing(flat)), dto.targetAdapter.value);
    }
  }

  lemma SelectForIgnoresTarget(flat: seq<P.FlatPosition>, target: P.FlatPosition, policy: P.Policy, request: P.Request)
    ensures P.SelectFor(flat, target, policy, request)
            == P.SelectFor(flat, target, policy, request.(targetAdapter := None))
    ensures P.SelectFor(flat, target, policy, request) != Err(P.TargetNotDebtBearing)
  {
  }

  /** When the guard passes but no position with debt is at the requested adapter the planners part: the
      simulation refuses, while the workflow picks its positions as if nothing had been requested, and still
      names the requested adapter in its step. */
  lemma RequestedTargetWithoutDebt(flat: seq<S.SimFlat>, canonicalMap: map<Address, Address>, dto: S.Dto, dest: nat,
                                   sel: map<Address, nat>)
    requires SomeLow(flat, dto) && !TargetServed(flat, dto)
    ensures S.Select(flat, canonicalMap, dto) == Err(P.TargetNotDebtBearing)
    ensures var policy := AsPolicy(dto, canonicalMap, dest);
            var chosen := P.Select(AsFlats(flat, sel), policy, AsRequest(dto));
            && chosen != Err(P.TargetNotDebtBearing)
            && chosen == P.Select(AsFlats(flat, sel), policy, AsRequest(dto).(targetAdapter := None))
            && (chosen.Ok? ==> forall amount: nat ::
                  P.BuildStep(chosen.value, amount, policy, AsRequest(dto)).targetAdapter == dto.targetAdapter.value)
  {
    hide SomeLow, DebtAt;
    RefusalsIff(flat, canonicalMap, dto);
    TargetMissing(flat, canonicalMap, dto);
    DebtBearingAgrees(flat, sel);
    var sorted := S.ByRisk(S.DebtBearing(flat));
    SortAgrees(S.DebtBearing(flat), sel);
    FindAgrees(sorted, dto.targetAdapter.value, sel);
    SelectForIgnoresTarget(AsFlats(flat, sel), AsFlat(sorted[0], sel), AsPolicy(dto, canonicalMap, dest),
                           AsRequest(dto));
  }

  lemma TargetMissing(flat: seq<S.SimFlat>, canonicalMap: map<Address, Address>, dto: S.Dto)
    requires S.Select(flat, canonicalMap, dto) == Err(P.TargetNotDebtBearing)
    ensures dto.targetAdapter.Some?
    ensures var sorted := S.ByRisk(S.DebtBearing(flat));
            sorted != [] && S.Find(sorted, dto.targetAdapter.value) == None
  {
  }

  // ---- a requested target without debt, in full ----

  const WEAK := S.SimFlat("aave", 0, 1, "sepolia",
    S.SimPosition(1, "sepolia", "aave", "weth", "usdc", 0, 100, 0, 8000, 18, 18, WAD, WAD))

  const SOURCE := S.SimFlat("morpho", 500, 1, "sepolia",
    S.SimPosition(1, "sepolia", "morpho", "weth", "usdc", 500, 0, S.MAX_UINT256, 8000, 18, 18, WAD, WAD))

  const FOR_SPARK := S.Dto("sepolia", 11250, 10000, 0, 14500, 3000, 100000, 0, true, false, None, Some("spark"))

  lemma WeakIsPicked(sel: map<Address, nat>)
    ensures var flat := [AsFlat(WEAK, sel), AsFlat(SOURCE, sel)];
            P.ByRisk(P.DebtBearing(flat)) == [AsFlat(WEAK, sel)]
  {
    var flat := [AsFlat(WEAK, sel), AsFlat(SOURCE, sel)];
    assert flat[..1] == [AsFlat(WEAK, sel)] && [AsFlat(WEAK, sel)][..0] == [];
    assert P.DebtBearing([AsFlat(WEAK, sel)]) == [AsFlat(WEAK, sel)];
    assert P.DebtBearing(flat) == [AsFlat(WEAK, sel)];
    assert [AsFlat(WEAK, sel)][1..] == [];
    assert P.ByRisk([]) == [];
    assert P.ByRisk([AsFlat(WEAK, sel)]) == [AsFlat(WEAK, sel)] + [];
  }

  lemma SourceIsCandidate(policy: P.Policy, sel: map<Address, nat>)
    requires policy.executionChainKey == "sepolia" && policy.crossChainAssetMap == map[]
    ensures var flat := [AsFlat(WEAK, sel), AsFlat(SOURCE, sel)];
            P.Candidates(flat, AsFlat(WEAK, sel), policy) == [P.Candidate(AsFlat(SOURCE, sel), P.TopUp)]
  {
    var flat := [AsFlat(WEAK, sel), AsFlat(SOURCE, sel)];
    assert flat[..1] == [AsFlat(WEAK, sel)] && [AsFlat(WEAK, sel)][..0] == [];
    assert P.CandidateAt(AsFlat(WEAK, sel), AsFlat(WEAK, sel), policy) == [];
    assert P.Candidates([AsFlat(WEAK, sel)], AsFlat(WEAK, sel), policy) == [];
  }

  /** One weak position, one source, and a request for an adapter with neither: the simulation refuses, and
      the workflow plans for the weak position under the name of the requested adapter. */
  lemma PlannersPartOnRequest(dest: nat, sel: map<Address, nat>)
    ensures FOR_SPARK.Valid() && Located([WEAK, SOURCE])
    ensures S.Select([WEAK, SOURCE], map[], FOR_SPARK) == Err(P.TargetNotDebtBearing)
    ensures var policy := AsPolicy(FOR_SPARK, map[], dest);
            var chosen := P.Select(AsFlats([WEAK, SOURCE], sel), policy, AsRequest(FOR_SPARK));
            && chosen == Ok(P.Selection(AsFlat(WEAK, sel), AsFlat(SOURCE, sel), P.TopUp, false))
            && forall amount: nat ::
                 P.BuildStep(chosen.value, amount, policy, AsRequest(FOR_SPARK)).targetAdapter == "spark"
  {
    hide P.ByRisk, P.DebtBearing, P.Candidates;
    var flat, policy := [WEAK, SOURCE], AsPolicy(FOR_SPARK, map[], dest);
    assert WEAK in flat && S.GuardLetsPass(WEAK, FOR_SPARK) && SomeLow(flat, FOR_SPARK);
    assert !TargetServed(flat, FOR_SPARK);
    RequestedTargetWithoutDebt(flat, map[], FOR_SPARK, dest, sel);
    assert AsFlats(flat, sel) == [AsFlat(WEAK, sel), AsFlat(SOURCE, sel)];
    WeakIsPicked(sel);
    SourceIsCandidate(policy, sel);
    var candidates := [P.Candidate(AsFlat(SOURCE, sel), P.TopUp)];
    assert candidates[..0] == [];
    assert P.Best(candidates, None) == Some(candidates[0]);
  }
}
