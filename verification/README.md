# Reprieve, verified

Reprieve watches lending positions and rescues the weak ones: it moves collateral from a healthy position to a
weak one, on one chain or across two. This project models the parts of it that have to be right without anyone
looking, and proves what they promise.

- **The planner** (`RescuePlanner`, `RescueSizing`, `RescuePlanTheorems`, `PlanOnInputs`, `FixedPoint`,
  `StableSort`): which position to rescue, from where, and how much to move, through nested floor divisions. The
  amount keeps the source at its health-factor floor, never overshoots the target, fits every limit at once, and is
  the largest that does. `PlanOnInputs` states each limit and refusal on positions, policy and request alone.
- **The second planner** (`PositionsSimulation`, `SimulationTheorems`, `PlannerAgreement`, `GuardAgreement`,
  `WorkflowAgreement`, `PortfolioAgreement`): the backend has the planner a second time, for its simulation
  endpoint. From one portfolio, read by the workflow and stored by the backend, both draw up the same listing, and
  they agree on when to rescue and on the plan; the cases in which they do not (missing prices, penalties, a
  requested target without debt, the gates only the workflow has) are given exactly.
- **The guard** (`RiskGuard`, `GuardOnInputs`, `QuantSignals`, `GuardedPlan`, `WorkflowOnInputs`, `PriceText`,
  `PriceForm`): price reports, the exact case of each gate, penalties, the weakest and the aggregate health factor,
  the decision, exactly when the whole workflow plans, the thresholds the two quant workflows hand to it, and the
  decimal text in which prices travel.
- **The relay queue** (`RelayQueue`, `RelayTheorems`, `RelayProgress`): jobs claimed, executed, marked, retried and
  recovered by any number of workers, as a machine over timed steps and as the service's own methods.
- **The indexer** (`RescueIndexer`, `IndexerTheorems`, `CursorOrder`, `Confirmations`): adaptive fetching against an RPC
  that may fail at will, keyed upserts, and a cursor that several processes move at once, never to a block without
  its confirmations.
- **From chain to queue** (`Pipeline`, `PipelineRuns`): which initiated messages end up with a job.
- **The projection** (`RescueProjection`, `ProjectionTheorems`, `ProjectionOnRows`): the fold of an execution's
  events, its status, and the row each field is taken from.
- **The ABI decoders** (`AbiWords`, `PositionsAbi`, `EventDecoder`): written by hand in the source, proved to invert the
  encoding of the Solidity Contract ABI Specification, section "Formal Specification of the Encoding".

Code that loops or changes state in the source is a method here (a class where the source has a service with
rows to update), proved equal to a function on values; the theorems are about those functions. Amounts are
unbounded integers as in the source's bigints, and every division is written as the source's own. A price of 0
stands for a missing one wherever the source only tests a price for truth.

Some of what a reader would expect does not hold of the code. Each such case is stated exactly:

- The source cap can exceed the position's own collateral when a price is missing or there is no debt; it stays
  within exactly when the floor branch is taken or every other position of the adapter holds no collateral
  (`RescueSizing.SourceCapWithinPosition`, `RescueSizing.SourceCapExceedsPositionWithoutPrice`).
- The penalised aggregate can be below the penalised weakest when the weakest is in the upper half of the range
  (`RiskGuard.EffectiveAtLeastWeakestEffective`, `RiskGuard.EmptyPortfolioFails`).
- A quant signal lowers the early-warning threshold exactly when the configured one is above 20000
  (`QuantSignals.SignalNeverLowersThreshold`).
- Where the two guards see the same prices they part in two cases. A position without a price is low by what the
  backend has for it (its adapter's health factor, or 0 when an oracle answered 0), and the workflow finds none at
  risk; or no such position is low, none is low by its known prices, and the workflow finds one at risk all the
  same, because of the penalty or because its collateral is reported at a price of 0. The condition is exact (`GuardAgreement.GuardsAgreeIff`, with the portfolios of
  `GuardAgreement.MissingPriceParts`, `GuardAgreement.PenaltyParts` and `GuardAgreement.HealthyWithoutPriceParts`).
- A string argument shorter than it declares is cut without an error (`EventDecoder.StringCompleteIff`,
  `EventDecoder.ShortStringIsCut`).
- When the simulation's guard lets a portfolio pass and no position with debt is at the requested adapter, the
  simulation refuses, while the workflow plans as if nothing were requested and still names the requested
  adapter. The selections agree in every other case past the guard (`PlannerAgreement.SelectionsAgreeIff`,
  `PlannerAgreement.RequestedTargetWithoutDebt`, `PlannerAgreement.PlannersPartOnRequest`). When the guard does
  not let it pass, the simulation reports no action before it looks at the target
  (`SimulationTheorems.RefusalsIff`).
- Two relay workers can hold the same job exactly when a hold may outlive the stale limit
  (`RelayTheorems.ExclusiveIff`).
- A chain's cursor can move back exactly when there is more than one indexer process and a block window
  (`CursorOrder.ForwardIff`, `CursorOrder.CursorMovesBack`).
- A seed pass reaches an unresolved message exactly when fewer than the scan limit sort before it
  (`Pipeline.SeedPassIff`).
- The timeline of an execution is independent of the order of its rows exactly when no two of them share time of
  indexing, chain, block and log index (`ProjectionTheorems.TimelineIndependentIff`).

To verify: `dafny verify dfyconfig.toml`.

## Model

| member | source | states |
|---|---|---|
| FixedPoint.UsdBounds | cre/reprieve-chainlink-api-guard-v1/lib/full-flow-v1.ts:96-99 | the dollar value of a raw amount is the exact one rounded down, as a pair of inequalities |
| FixedPoint.AmountBounds | cre/reprieve-chainlink-api-guard-v1/lib/full-flow-v1.ts:111-114 | the raw amount bought for dollars is the exact one rounded down |
| FixedPoint.UsdAmountRoundTrip | cre/reprieve-chainlink-api-guard-v1/lib/full-flow-v1.ts:96-114 | dollars to tokens to dollars never gains and loses at most the price of one raw unit |
| RescuePlanner.ReadAdapters | cre/reprieve-chainlink-api-guard-v1/lib/risk-v1.ts:765-833 | one snapshot per adapter that answers with positions, its available collateral the sum over them |
| RescuePlanner.FlattenPositions | cre/reprieve-chainlink-api-guard-v1/lib/full-flow-v1.ts:121-138 | the nested loops list every position of every adapter in order, each with its adapter's total |
| RescuePlanner.FilterDebtBearing | cre/reprieve-chainlink-api-guard-v1/lib/full-flow-v1.ts:370-384 | exactly the positions with debt remain, in order |
| RescuePlanner.CollectCandidates | cre/reprieve-chainlink-api-guard-v1/lib/full-flow-v1.ts:395-407 | the candidates are the positions of the source pool that have a rescue mode, in order |
| RescuePlanner.ChooseHighestCollateral | cre/reprieve-chainlink-api-guard-v1/lib/full-flow-v1.ts:418-425 | the loop returns the first allowed candidate of the highest adapter collateral |
| RescuePlanner.SizeAndBuild | cre/reprieve-chainlink-api-guard-v1/lib/full-flow-v1.ts:533-647 | the sizing steps in their order compute the clamped amount, its refusals and the step, which `PlanOnInputs` states on the inputs |
| RescuePlanner.RunChainlinkApiGuardFlow | cre/reprieve-chainlink-api-guard-v1/lib/full-flow-v1.ts:290-647 | the workflow, gate by gate, computes the planning function, whose gates, limits and refusals `PlanOnInputs` states on the inputs |
| RescueSizing.SourceKeepsFloor | cre/reprieve-chainlink-api-guard-v1/lib/full-flow-v1.ts:550-575 | any withdrawal up to the cap leaves the effective collateral at or above the floor exactly, and the health factor at most one wei short of it once the debt is worth a dollar |
| RescueSizing.SourceCapWithinPosition | cre/reprieve-chainlink-api-guard-v1/lib/full-flow-v1.ts:545-575 | the cap of a discovered position is within its own collateral if and only if the floor branch is taken or every other position of the adapter holds none |
| RescueSizing.SourceCapExceedsPositionWithoutPrice | cre/reprieve-chainlink-api-guard-v1/lib/risk-v1.ts:787 | two positions read at one adapter, the first indebted without a price: its cap exceeds what it holds |
| RescueSizing.SourceCapIsTight | cre/reprieve-chainlink-api-guard-v1/lib/full-flow-v1.ts:550-575 | a withdrawal a stated few raw units above the cap breaks the floor |
| RescueSizing.TopUpNeverOvershoots | cre/reprieve-chainlink-api-guard-v1/lib/full-flow-v1.ts:223-235 | adding the estimated amount or less to a below-target position never takes its health factor above the target |
| RescueSizing.TopUpReachesTarget | cre/reprieve-chainlink-api-guard-v1/lib/full-flow-v1.ts:223-235 | the full amount falls short of the wanted effective collateral by at most the stated bound; with a liquidation threshold of 0 it is 0 and no top-up counts |
| RescueSizing.RepayReachesTarget | cre/reprieve-chainlink-api-guard-v1/lib/full-flow-v1.ts:237-240 | the amount is within the debt, and repaying it leaves the debt the target supports, or more by at most the price of one raw unit |
| RescuePlanTheorems.TargetIsWeakest | cre/reprieve-chainlink-api-guard-v1/lib/full-flow-v1.ts:369-394 | the target has debt and is the weakest of those requested, or of all when none of those requested has debt |
| RescuePlanTheorems.TargetIsFirstOfItsRisk | cre/reprieve-chainlink-api-guard-v1/lib/full-flow-v1.ts:385-394 | ties in risk are broken by the order of discovery |
| RescuePlanTheorems.BestIsHighest | cre/reprieve-chainlink-api-guard-v1/lib/full-flow-v1.ts:418-427 | the chosen source is allowed and of the highest collateral; none is chosen only when none is allowed |
| RescuePlanTheorems.ModeNamesServedLeg | cre/reprieve-chainlink-api-guard-v1/lib/full-flow-v1.ts:159-188 | the mode names the leg of the target that the moved asset serves, and no mode means neither leg |
| RescuePlanTheorems.SelectionIsSound | cre/reprieve-chainlink-api-guard-v1/lib/full-flow-v1.ts:369-457 | target and source are real positions of different adapters, the source is the highest eligible one, and the route obeys the policy |
| RescuePlanTheorems.ReserveRemains | cre/reprieve-chainlink-api-guard-v1/lib/full-flow-v1.ts:544 | the reserve fraction of the adapter's collateral stays, exactly |
| RescuePlanTheorems.ClampFitsBudget | cre/reprieve-chainlink-api-guard-v1/lib/full-flow-v1.ts:584-591 | the notional clamp only lowers the amount, brings it within the budget, and no lower than the budget demands |
| RescuePlanTheorems.SizedToTheLimits | cre/reprieve-chainlink-api-guard-v1/lib/full-flow-v1.ts:541-591 | the amount respects every limit, and every amount that does is at most as large |
| RescuePlanTheorems.PlanMeetsEveryLimit | cre/reprieve-chainlink-api-guard-v1/lib/full-flow-v1.ts:290-658 | every emitted plan meets selection, reserve, cap, notional, minimum, no-swap and selector conditions at once, and names the sized target and its debt asset exactly when no override says otherwise |
| RescuePlanTheorems.PlanNamesSizedTarget | cre/reprieve-chainlink-api-guard-v1/lib/full-flow-v1.ts:386-394 | a plan names the position it was sized for if and only if no target is requested or some position with debt is at the requested adapter |
| RescuePlanTheorems.ZeroOnlyWhenNothingFits | cre/reprieve-chainlink-api-guard-v1/lib/full-flow-v1.ts:593-604 | the planner gives up on a zero amount only when not one raw unit fits |
| RescuePlanTheorems.PlanKeepsSourceFloor | cre/reprieve-chainlink-api-guard-v1/lib/full-flow-v1.ts:550-647 | carrying out a plan keeps the source at the floor that applies, which `PlanOnInputs.PlanKeepsNamedFloor` names on the inputs |
| RescuePlanTheorems.PlanMovesSizedLeg | cre/reprieve-chainlink-api-guard-v1/lib/full-flow-v1.ts:512-525 | the moved asset is the sized leg by the asset map, and on one chain the leg itself if and only if the request names no other asset |
| RescuePlanTheorems.PlanNeverOvershootsTarget | cre/reprieve-chainlink-api-guard-v1/lib/full-flow-v1.ts:204-241 | the amount of a plan, brought to the leg it is sized in and no more than the estimate, as in every plan the planner sized, leaves a top-up target at or below the wanted health factor and a repaid one no less debt than it supports |
| PlanOnInputs.PlanKeepsNamedFloor | cre/reprieve-chainlink-api-guard-v1/lib/full-flow-v1.ts:546-647 | carrying out a plan leaves a priced, indebted source at the floor the request names, or at the policy's early warning when it names none |
| PlanOnInputs.SizedOnInputs | cre/reprieve-chainlink-api-guard-v1/lib/full-flow-v1.ts:533-591 | the amount is within the requested or estimated amount, the reserve, the cap at that floor and the budget, and no amount within them is larger |
| PlanOnInputs.TargetHasLeastHealth | cre/reprieve-chainlink-api-guard-v1/lib/full-flow-v1.ts:369-394 | the target has debt, and of the positions asked for none has a lower health factor |
| PlanOnInputs.SelectForIff | cre/reprieve-chainlink-api-guard-v1/lib/full-flow-v1.ts:395-457 | no source, none at the requested adapter, or a forbidden crossing, each if and only if that is so of the positions; a plan crosses if and only if it is forced to or the chains differ |
| PlanOnInputs.ModeIff | cre/reprieve-chainlink-api-guard-v1/lib/full-flow-v1.ts:159-188 | top-up and repayment, each if and only if the moved asset is that leg and the debts or the other leg do not speak against it |
| PlanOnInputs.ChainsDifferIff | cre/reprieve-chainlink-api-guard-v1/lib/full-flow-v1.ts:150-158 | two positions are apart if and only if their known chain ids differ or, failing these, their keys |
| PlanOnInputs.BestIsFirst | cre/reprieve-chainlink-api-guard-v1/lib/full-flow-v1.ts:418-425 | of the candidates with the highest collateral the first is taken |
| PlanOnInputs.GatesIff | cre/reprieve-chainlink-api-guard-v1/lib/full-flow-v1.ts:290-525 | each gate stops a run if and only if its own read says so and no earlier gate did |
| PlanOnInputs.FinishIff | cre/reprieve-chainlink-api-guard-v1/lib/full-flow-v1.ts:582-647 | after sizing a run stops if and only if the amount is zero, worth less than the minimum that applies, or crosses without a destination |
| PlanOnInputs.SnapshotsMembers | cre/reprieve-chainlink-api-guard-v1/lib/risk-v1.ts:765-833 | a snapshot is an adapter's answer with positions, and nothing else is |
| PositionsSimulation.FlattenPositions | backend/src/modules/positions/positions.service.ts:1258-1279 | the map of totals and the listing give each position its adapter's total on its chain, the listing of `PortfolioAgreement.ListingsAgree` |
| PortfolioAgreement.TotalVersusOwn | backend/src/modules/positions/positions.service.ts:1258-1279 | a position's available collateral is no less than its own, and just that if and only if the others at its chain and adapter hold none |
| PortfolioAgreement.ListingsAgree | backend/src/modules/positions/positions.service.ts:1258-1279 | of one portfolio, answered by its adapters and stored by the backend, both planners list the same positions with the same collateral in the same order |
| PositionsSimulation.BuildMarket | backend/src/modules/positions/positions.service.ts:1281-1301 | prices and decimals by asset, the last position winning, non-positive prices left out |
| PortfolioAgreement.LastMentionSettles | backend/src/modules/positions/positions.service.ts:1281-1301 | the last position to mention an asset settles its decimals, and the last to price it its price |
| PortfolioAgreement.SimulatedAtMarket | backend/src/modules/positions/positions.service.ts:776-876 | when the positions record a market's prices and decimals the simulation plans at that market |
| PositionsSimulation.SelectCandidate | backend/src/modules/positions/positions.service.ts:751-766 | the loop returns the first allowed candidate of the highest adapter collateral |
| PositionsSimulation.SimulateApiGuardDecision | backend/src/modules/positions/positions.service.ts:604-876 | the simulation, check by check, computes its planning function |
| SimulationTheorems.RefusalsIff | backend/src/modules/positions/positions.service.ts:645-715 | the simulation refuses for want of debt, of risk, or of debt at the requested target if and only if that is so of its positions |
| SimulationTheorems.WeakestTellsAll | backend/src/modules/positions/positions.service.ts:667-681 | looking at the weakest position alone tells whether any position is at a threshold or under it |
| PlannerAgreement.SelectionsAgreeIff | backend/src/modules/positions/positions.service.ts:645-775 | both planners choose the same target, source, mode and route, or refuse for the same reason, if and only if there is no debt, or the guard passes and any requested target has debt |
| PlannerAgreement.SizingAgrees | backend/src/modules/positions/positions.service.ts:1392-1500 | both size the same amount or refuse alike |
| PlannerAgreement.PlannersAgree | README.md:250 | past the guard, any requested target having debt, simulation and workflow reach the same verdict on the same positions, prices and policy, but for the workflow's own gates |
| PlannerAgreement.RequestedTargetWithoutDebt | backend/src/modules/positions/positions.service.ts:699-715 | past the guard, with no debt at the requested target, the simulation refuses while the workflow plans as if nothing were requested and names the requested adapter |
| PlannerAgreement.PlannersPartOnRequest | cre/reprieve-chainlink-api-guard-v1/lib/full-flow-v1.ts:386-394 | one such portfolio and request, with what each planner makes of it |
| RiskGuard.ScanReports | cre/reprieve-chainlink-api-guard-v1/lib/risk-v1.ts:898-955 | the loop over assets computes the counters and maxima of the scan |
| RiskGuard.CountersMean | cre/reprieve-chainlink-api-guard-v1/lib/risk-v1.ts:898-955 | each counter of the scan is positive exactly when such an asset exists |
| RiskGuard.MaximaMean | cre/reprieve-chainlink-api-guard-v1/lib/risk-v1.ts:898-955 | the maxima are the largest shock and staleness penalty among the reports that count, which `GuardOnInputs` states in prices and ages |
| RiskGuard.SumPositions | cre/reprieve-chainlink-api-guard-v1/lib/risk-v1.ts:1028-1090 | the nested loops compute the totals and the weakest health factor |
| RiskGuard.EvaluateChainlinkApiGuard | cre/reprieve-chainlink-api-guard-v1/lib/risk-v1.ts:834-1117 | the evaluation, gate by gate, computes the verdict |
| GuardOnInputs.ShockMeans | cre/reprieve-chainlink-api-guard-v1/lib/risk-v1.ts:668-676 | a shock reaches a threshold if and only if the price moved that many basis points of its previous value, up or down |
| GuardOnInputs.GatedIff | cre/reprieve-chainlink-api-guard-v1/lib/risk-v1.ts:834-1003 | each gate objects if and only if no earlier one does and some asset has no report, one too old, a forged one, or a price that moved too far; a shock threshold of 0 always objects |
| GuardOnInputs.StalenessMeans | cre/reprieve-chainlink-api-guard-v1/lib/risk-v1.ts:940-948 | the staleness penalty reaches a value if and only if the report's share of the allowed age does |
| GuardOnInputs.PenaltyMeans | cre/reprieve-chainlink-api-guard-v1/lib/risk-v1.ts:1096-1103 | the penalty reaches a value if and only if that is within the maximum and staleness and slope together cover it, the slope by its cap and by half the shock |
| GuardOnInputs.RescuesIff | cre/reprieve-chainlink-api-guard-v1/lib/risk-v1.ts:697-746 | past the gates a rescue is decided if and only if some position's exact health factor, floored and penalised, is at a threshold or under it |
| GuardOnInputs.WeakestChainIsFirst | cre/reprieve-chainlink-api-guard-v1/lib/risk-v1.ts:1037-1062 | the weakest chain is that of the first position with the least health factor |
| GuardOnInputs.CanCrossIff | cre/reprieve-chainlink-api-guard-v1/lib/risk-v1.ts:704-725 | a crossing can help if and only if a configured adapter with collateral is on another chain, by id when known and else by key |
| RiskGuard.WeakestIsMinimum | cre/reprieve-chainlink-api-guard-v1/lib/risk-v1.ts:1037-1062 | the loop's weakest health factor is the minimum over the priced positions with debt |
| RiskGuard.AggregateAtLeastWeakest | cre/reprieve-chainlink-api-guard-v1/lib/risk-v1.ts:1028-1095 | the floored aggregate is never below the floored weakest, for any positions |
| RiskGuard.EffectiveAtLeastWeakestEffective | cre/reprieve-chainlink-api-guard-v1/lib/risk-v1.ts:1092-1109 | after the penalty the aggregate is still at least the weakest if and only if the weakest is below half the maximum or the aggregate is at least a stated bound |
| RiskGuard.EmptyPortfolioFails | cre/reprieve-chainlink-api-guard-v1/lib/risk-v1.ts:1092-1109 | without positions a penalty of one basis point puts the aggregate below the weakest |
| RiskGuard.DebtFreeSummary | cre/reprieve-chainlink-api-guard-v1/lib/risk-v1.ts:1092-1109 | without debt the two summaries are in order exactly when there is no penalty |
| RiskGuard.GuardDecidesByRisk | cre/reprieve-chainlink-api-guard-v1/lib/risk-v1.ts:697-746 | past the gates a rescue is decided if and only if some indebted position is at risk, and a cross-chain one if and only if policy and another chain allow it |
| RiskGuard.RiskIsMonotone | cre/reprieve-chainlink-api-guard-v1/lib/risk-v1.ts:731-746 | a higher penalty or threshold never makes a position at risk safe |
| RiskGuard.BackendHealthFactorAgrees | backend/src/modules/positions/positions.service.ts:1181-1220 | the backend's health factor is the guard's, for priced positions with debt |
| GuardAgreement.NormalizedIsStored | backend/src/modules/positions/positions.service.ts:545-583 | the risk snapshot computes a health factor anew when both prices are known and keeps what it has otherwise |
| GuardAgreement.SimulationPassesIff | backend/src/modules/positions/positions.service.ts:645-681 | the simulation's guard passes if and only if some indebted position is low, by what the backend has for it where a price is missing and by its prices where they are known |
| GuardAgreement.GuardsAgreeIff | README.md:250 | whatever the backend has for positions without a price, and for any penalty, the two guards decide alike if and only if, with such a position low, some position is at risk anyway, or, with none low, some position is low by its prices or none is at risk |
| GuardAgreement.GuardsAtKnownPrices | README.md:250 | at known prices whatever the simulation passes the workflow rescues; the converse fails exactly when every position at risk is so only because of the penalty |
| GuardAgreement.MissingPriceParts | backend/src/modules/positions/positions.service.ts:408-470 | a position without prices, low by its adapter's value or by an oracle's 0: the simulation goes on to plan, the workflow does nothing |
| GuardAgreement.PenaltyParts | cre/reprieve-chainlink-api-guard-v1/lib/risk-v1.ts:1103-1109 | a health factor of 1.2 under a penalty: the workflow rescues, the simulation does not |
| GuardAgreement.HealthyWithoutPriceParts | backend/src/modules/positions/positions.service.ts:563-577 | the same beside a position without a price and healthy by its adapter: the workflow alone rescues |
| WorkflowAgreement.GuardStopsIff | README.md:250 | end to end, with some debt: simulation and workflow both stop at their guards or both go on if and only if the guards agree |
| WorkflowAgreement.WorkflowMatchesSimulation | README.md:250 | end to end, from reports and stored positions: where the guards agree both stop for want of debt or risk, or give the verdict of the same selection and sizing |
| PortfolioAgreement.PortfolioMatches | README.md:250 | the same from the portfolio itself: the workflow on the adapters' answers and the simulation on the positions stored of them, at the prices stored with them |
| PortfolioAgreement.InNeedMatches | README.md:250 | a portfolio, read, stored and priced, that meets these conditions and that both guards would rescue |
| GuardedPlan.PlansOnlyAtRisk | cre/reprieve-chainlink-api-guard-v1/lib/full-flow-v1.ts:312-368 | from reports to plan: a plan is emitted only past every gate and while some position is at risk |
| WorkflowOnInputs.PlannedIff | cre/reprieve-chainlink-api-guard-v1/lib/full-flow-v1.ts:290-647 | from end to end: a plan is emitted if and only if no gate objects, some position's floored and penalised health factor is low, nothing on chain stands in the way, and a worthwhile amount can move between a target and a source |
| QuantSignals.FundingStressIsAverage | cre/reprieve-quant-funding-oi-v1/lib/quant-signal-v1.ts:67-71 | the stress score is a weighted average of the inputs, and the sole weighted input is the score |
| QuantSignals.BasisStressIsAverage | cre/reprieve-quant-basis-liquidity-v1/lib/quant-signal-v1.ts:72-76 | the same, with a quarter of the regime input on top |
| QuantSignals.SignalNeverLowersThreshold | cre/reprieve-quant-basis-liquidity-v1/lib/quant-signal-v1.ts:77-83 | the handed-on threshold is at least the configured one if and only if that is at most 20000 |
| QuantSignals.ThresholdMonotone | cre/reprieve-quant-basis-liquidity-v1/lib/quant-signal-v1.ts:77-83 | more stress never hands on less, nor does applying compared with logging |
| GuardOnInputs.StressMeans | cre/reprieve-quant-basis-liquidity-v1/lib/quant-signal-v1.ts:72-76 | both stress scores are the floors of their weighted sums, whatever the weights |
| GuardOnInputs.HandedOnMeans | cre/reprieve-quant-basis-liquidity-v1/lib/quant-signal-v1.ts:77-83 | the handed-on threshold reaches a value if and only if the minimum or the early warning does, or 45 percent of an applied stress makes up the difference, and never above 20000 |
| GuardOnInputs.QuantGuardIsUnpenalised | cre/reprieve-quant-basis-liquidity-v1/lib/quant-signal-v1.ts:115-128 | the guard behind a signal never penalises, whatever the reports, and keeps its other terms |
| QuantSignals.BasisApplyNeverSuppresses | cre/reprieve-quant-basis-liquidity-v1/lib/quant-signal-v1.ts:46-128 | applying the signal never suppresses a rescue that logging it would have raised |
| QuantSignals.FundingApplyNeverSuppresses | cre/reprieve-quant-funding-oi-v1/lib/quant-signal-v1.ts:45-122 | the same for the funding strategy |
| PriceText.PrintThenParse | cre/reprieve-chainlink-api-guard-v1/lib/risk-v1.ts:125-153 | printing a wad with any number of fraction digits and reading it back clears exactly the digits below the last one printed |
| PriceText.OraclePriceRoundTrip | cre/reprieve-chainlink-api-guard-v1/lib/risk-v1.ts:597-602 | with eight digits a price loses exactly its last ten digits |
| PriceText.ReprintIsSame | cre/reprieve-chainlink-api-guard-v1/lib/risk-v1.ts:135-153 | printing what was read back gives the same text |
| PriceText.SameTextSamePrice | cre/reprieve-chainlink-api-guard-v1/lib/risk-v1.ts:125-153 | two prices print alike if and only if they agree down to the last printed digit |
| PriceForm.ParsesIff | cre/reprieve-chainlink-api-guard-v1/lib/risk-v1.ts:125-133 | a text is a price if and only if it is a decimal number between spaces, and is worth its exact value in wei rounded down |
| RelayQueue.RelayService.SeedPendingJobsFromDb | backend/src/modules/relay/relay.service.ts:252-355 | the loop makes the seed step of every row, and counts rows, inserted jobs and rows without destination |
| RelayQueue.RelayService.UpsertJob | backend/src/modules/relay/relay.service.ts:307-347 | a new message gets one pending job, an existing one only new metadata |
| RelayQueue.DestinationMeans | backend/src/modules/relay/relay.service.ts:546-585 | the destination is the selector's chain, failing that the execution's, and none otherwise |
| RelayQueue.RelayService.RecoverStaleRunningJobs | backend/src/modules/relay/relay.service.ts:431-451 | every stale running job is pending again and due now; the result is how many |
| RelayQueue.RelayService.ClaimNextRunnableJob | backend/src/modules/relay/relay.service.ts:453-484 | the first runnable job in the query's order is claimed, and none only when none is runnable |
| RelayQueue.RelayService.MarkJobSuccess | backend/src/modules/relay/relay.service.ts:486-500 | whatever its status was, the row becomes a success due never; attempts, metadata and all other rows stay |
| RelayQueue.RelayService.MarkJobDead | backend/src/modules/relay/relay.service.ts:501-515 | whatever its status was, the row becomes a dead letter due never; attempts, metadata and all other rows stay |
| RelayQueue.RelayService.MarkJobFailure | backend/src/modules/relay/relay.service.ts:517-544 | the row is rescheduled with backoff, or dead once the claimed attempt reaches the maximum |
| RelayQueue.BackoffDoubles | backend/src/modules/relay/relay.service.ts:529-533 | the first delay is the base and each further one twice the one before, within the maximum |
| RelayQueue.RelayService.RetryRelayJob | backend/src/modules/relay/relay.service.ts:408-429 | a job that is not running is pending again at once, its attempts kept; a running or unknown one is refused |
| RelayQueue.RelayService.RelayClaimed | backend/src/modules/relay/relay.service.ts:180-238 | a claimed job is a success if and only if both its chains are known and the command ends well before the timeout; else it is pending before the last attempt and dead at it, and dead at once when a chain is unknown |
| RelayQueue.RelayService.RelayNext | backend/src/modules/relay/relay.service.ts:163-238 | one turn of the batch makes only steps of the machine and holds the job no longer than the timeout |
| RelayQueue.RelayService.RelayBatch | backend/src/modules/relay/relay.service.ts:163-238 | the batch works off jobs until its size is reached or none is runnable, as a timely run of the machine |
| RelayQueue.RelayService.RunRelayWorkerOnce | backend/src/modules/relay/relay.service.ts:143-250 | a worker's tick is a timely run of the machine that starts with recovery and seeding; its tallies are the marks of that run, successes never exceed the commands that end well in time and equal them when all chains are known, and a short batch leaves nothing runnable |
| RelayQueue.FirstIsUnique | backend/src/modules/relay/relay.service.ts:465-466 | the claim order leaves no choice |
| RelayTheorems.ExclusiveIff | backend/src/modules/relay/relay.service.ts:431-484 | in every run each held job is running and held by one worker, if and only if no hold may outlive the stale limit |
| RelayTheorems.TerminalIsFinal | backend/src/modules/relay/relay.service.ts:408-544 | while holds are that short, success and dead are left only by manual retry, and running only by its holder or after a crash |
| RelayTheorems.AttemptsCountClaims | backend/src/modules/relay/relay.service.ts:475-479 | the attempt count is the number of claims |
| RelayTheorems.RetryBudget | backend/src/modules/relay/relay.service.ts:453-544 | claims never exceed allowed attempts plus manual retries plus recoveries, however long jobs are held |
| RelayProgress.MeasureDecreases | backend/src/modules/relay/relay.service.ts:453-544 | without retry and recovery every claim and mark uses up the measure and no step adds to it |
| RelayProgress.MovesAreBounded | backend/src/modules/relay/relay.service.ts:453-544 | such a job makes at most twice as many steps as it has attempts, and its measure is zero exactly at rest |
| RelayProgress.NotAtRestCanMove | backend/src/modules/relay/relay.service.ts:453-544 | such a job, unless its worker crashed, can be claimed once due or marked by its holder until it is at rest |
| RelayProgress.SchedulingIsBackoff | backend/src/modules/relay/relay.service.ts:517-544 | only a failure short of the last attempt makes a row wait, for the backoff of that attempt, and until then it cannot be claimed |
| RelayProgress.WaitingIsBounded | backend/src/modules/relay/relay.service.ts:529-533 | the waiting written into its rows is the sum of its backoffs, within both closed bounds |
| RescueIndexer.RangesJoin | backend/src/modules/rescue-history/rescue-history.service.ts:363-377 | adjacent block ranges hold adjacent runs of logs |
| RescueIndexer.FetchLogsAdaptive | backend/src/modules/rescue-history/rescue-history.service.ts:353-404 | on return exactly the logs of the range in order; it throws only after failing for a single block; the number of calls is bounded |
| RescueIndexer.RescueHistoryService.PersistLogs | backend/src/modules/rescue-history/rescue-history.service.ts:263-318 | logs are stored one by one up to the first that throws, with the counts and sets of what decoded |
| RescueIndexer.RescueHistoryService.IndexChain | backend/src/modules/rescue-history/rescue-history.service.ts:165-261 | one turn is a run of the machine; it is idle exactly when the next block lacks its confirmations, and else the cursor moves to the last confirmed block of the window or, on an error, not at all |
| RescueIndexer.PersistRuns | backend/src/modules/rescue-history/rescue-history.service.ts:275-311 | storing logs in a loop is the same as the machine's single steps |
| RescueIndexer.StoredSetsMean | backend/src/modules/rescue-history/rescue-history.service.ts:286-311 | the users and executions handed on are exactly those the stored events name, in lower case |
| IndexerTheorems.StepKeepsSound | backend/src/modules/rescue-history/rescue-history.service.ts:165-248 | every step of every process keeps all logs up to every cursor, and up to every range in work, stored |
| IndexerTheorems.CursorCovers | backend/src/modules/rescue-history/rescue-history.service.ts:165-248 | in every reachable state each event log between start block and cursor has its row under its chain, transaction and log index, with its block, contract and event, and none of them throws |
| Confirmations.CursorsAreConfirmed | backend/src/modules/rescue-history/rescue-history.service.ts:187-211 | in every run of any number of processes each cursor, and the end of each range at work, has its confirmations under some latest block read for its chain, or is at most 0 |
| Confirmations.RowIdsAreStable | backend/src/modules/rescue-history/rescue-history.service.ts:275-311 | in every run rows have ids of their own and keep them |
| CursorOrder.ForwardIff | backend/docker-compose.yml:31-67 | in every run of so many processes cursors only move forward, if and only if there is at most one process or the block window is empty |
| CursorOrder.CursorMovesBack | backend/docker-compose.yml:31-67 | a run of two processes that moves a cursor back |
| IndexerTheorems.ReplayChangesNothing | backend/src/modules/rescue-history/rescue-history.service.ts:297-300 | storing a stored log again adds no row and changes only the time of indexing |
| Pipeline.ReachedIffRank | backend/src/modules/relay/relay.service.ts:259-283 | the scan's limit keeps a message if and only if fewer than the limit sort before it |
| Pipeline.UnresolvedIff | backend/src/modules/relay/relay.service.ts:259-283 | a message is unresolved if and only if some event initiates it and none completes it, fails it at its destination, or reports it failed |
| Pipeline.SeedPassIff | backend/src/modules/relay/relay.service.ts:252-355 | after a seed pass an unresolved message has a job if and only if it had one, or the scan reached it and its destination is known |
| Pipeline.SeedPassReachesAll | backend/src/modules/relay/relay.service.ts:252-355 | with no more unresolved messages than the limit, every one with a known destination has its job |
| Pipeline.SeedsPreserve | backend/src/modules/relay/relay.service.ts:331-347 | seeding never changes an existing job's status, attempts or next attempt |
| Pipeline.ReplayAddsNoMessage | backend/src/modules/rescue-history/rescue-history.service.ts:275-311 | replayed logs add no row and no unresolved message |
| PipelineRuns.JobsComeFromLogs | backend/src/modules/relay/relay.service.ts:252-355 | in every reachable state each job was initiated by a log of its source chain with its message and execution id |
| PipelineRuns.WorkedOffScan | backend/src/modules/relay/relay.service.ts:252-355 | when a worker has worked off a scan, among whatever other steps, each scanned message with a known destination has its job |
| PipelineRuns.InitiationsReachTheQueue | backend/src/modules/relay/relay.service.ts:252-355 | end to end: an initiating log behind the cursor, not concluded and within the scan limit, has a job once a worker has worked off its scan, whatever runs in between, if its destination is known |
| RescueProjection.ReduceProjection | backend/src/modules/rescue-history/rescue-projection.service.ts:175-269 | the loop over rows, field by field, computes the fold |
| RescueProjection.RescueProjectionService.ProjectExec | backend/src/modules/rescue-history/rescue-projection.service.ts:140-173 | the execution's record is replaced by the projection of its rows, and left alone when there are none |
| ProjectionTheorems.FlagsAreNames | backend/src/modules/rescue-history/rescue-projection.service.ts:218-254 | each flag holds exactly when an event of its name is present |
| ProjectionTheorems.StatusIsOfNames | backend/src/modules/rescue-history/rescue-projection.service.ts:271-293 | the status depends only on the set of event names |
| ProjectionTheorems.TimelineIndependentIff | backend/src/modules/rescue-history/rescue-projection.service.ts:320-341 | the timeline is the same for every order of the rows if and only if no two different rows share a key |
| ProjectionTheorems.ProjectionIndependent | backend/src/modules/rescue-history/rescue-projection.service.ts:140-341 | then every projected field is the same; the status is the same in any case |
| ProjectionTheorems.LastEventIsLatest | backend/src/modules/rescue-history/rescue-projection.service.ts:212-214 | the time of the last event is the latest time of indexing |
| ProjectionTheorems.SourceIsEarliest | backend/src/modules/rescue-history/rescue-projection.service.ts:200-206 | source chain and transaction are those of an earliest row |
| ProjectionTheorems.DestinationIsLastWritten | backend/src/modules/rescue-history/rescue-projection.service.ts:232-252 | after the last crossing event a completed crossing's chain is the destination |
| ProjectionOnRows.DestinationIsLastNamed | backend/src/modules/rescue-history/rescue-projection.service.ts:232-252 | the destination is the last one a row of the timeline names, by a completed crossing or a known selector |
| ProjectionOnRows.UserIsEarliest | backend/src/modules/rescue-history/rescue-projection.service.ts:208-210 | the user is that of an earliest row that names one, in lower case, and the zero address when none does |
| ProjectionOnRows.MessageIsEarliest | backend/src/modules/rescue-history/rescue-projection.service.ts:216-218 | the message is that of an earliest row that names one, in lower case |
| ProjectionOnRows.ModeIsEarliest | backend/src/modules/rescue-history/rescue-projection.service.ts:257-265 | the mode is that of an earliest log entry that names one |
| ProjectionOnRows.ModeIsFirstNamed | backend/src/modules/rescue-history/rescue-projection.service.ts:295-302 | of a log entry's text the first place that names a mode, in any case, decides |
| ProjectionOnRows.TimelineAscends | backend/src/modules/rescue-history/rescue-projection.service.ts:320-341 | the timeline ascends by indexing time, then chain, block and log index |
| ProjectionTheorems.StatusMovesOn | backend/src/modules/rescue-history/rescue-projection.service.ts:199-293 | as events arrive failed is final, a status is never lost, and after a completed crossing it is completed or failed |
| ProjectionTheorems.FiveChanges | backend/src/modules/rescue-history/rescue-projection.service.ts:271-293 | the status changes at most five times in any order of arrival |
| ProjectionTheorems.FiveChangesHappen | backend/src/modules/rescue-history/rescue-projection.service.ts:271-293 | five changes do occur |
| StableSort.OrderIndependence | backend/src/modules/rescue-history/rescue-projection.service.ts:320-341 | a stable sort forgets the order of arrival if and only if no two different elements compare equal |
| StableSort.SortStable | cre/reprieve-chainlink-api-guard-v1/lib/full-flow-v1.ts:385 | elements that compare equal keep their order |
| AbiWords.HexRoundTrip | backend/src/modules/positions/abi.ts:21-26 | a number written as a word reads back as itself |
| AbiWords.NumberRoundTrip | backend/src/modules/rescue-history/event-decoder.ts:20-25 | a word read as a number and written again is the word in lower case |
| PositionsAbi.ChunkWordsLoop | backend/src/modules/positions/abi.ts:9-19 | the loop cuts whole words in order, and rejects any other length |
| PositionsAbi.DecodeDiscoverPositionsResult | backend/src/modules/positions/abi.ts:57-91 | the loop decodes tuple by tuple and stops at the first error |
| PositionsAbi.DecodePlaced | backend/src/modules/positions/abi.ts:57-91 | an array of tuples decodes from wherever its offset points, whatever lies around it |
| PositionsAbi.DecodeEncode | backend/src/modules/positions/abi.ts:57-91 | decoding inverts the ABI encoding of every list of nine-field tuples |
| PositionsAbi.Accepted | backend/src/modules/positions/abi.ts:57-91 | a payload is accepted if and only if it is empty or every declared tuple is there |
| PositionsAbi.TooShortRejected | backend/src/modules/positions/abi.ts:21-34 | a payload too short for its declared length is rejected |
| PositionsAbi.CalldataCarriesUser | backend/src/modules/positions/abi.ts:36-43 | calldata is the selector and one word that reads back as the user in lower case; other lengths are refused |
| EventDecoder.StringReads | backend/src/modules/rescue-history/event-decoder.ts:30-42 | a string is read back from any even position, whatever comes before and after it |
| EventDecoder.StringCompleteIff | backend/src/modules/rescue-history/event-decoder.ts:30-42 | a string has its declared length if and only if all its bytes are there as hex digits, and is never longer |
| EventDecoder.ShortStringIsCut | backend/src/modules/rescue-history/event-decoder.ts:38-41 | a string declared one byte longer than its data decodes to its data |
| EventDecoder.EventOfTopic | backend/src/modules/rescue-history/event-topics.ts:1-24 | the eleven topics are distinct, and each announces its event |
| EventDecoder.SkippedIff | backend/src/modules/rescue-history/event-decoder.ts:44-52 | a log is skipped if and only if it has no topic or an unknown first one |
| EventDecoder.IdsAreLower | backend/src/modules/rescue-history/event-decoder.ts:44-207 | decoded ids and addresses are in lower case |
| EventDecoder.ShortDataThrows | backend/src/modules/rescue-history/event-decoder.ts:7-14 | data that ends within an event's head words throws, whatever the event |
| EventDecoder.LoneTopic | backend/src/modules/rescue-history/event-decoder.ts:44-207 | missing topics count as no id and as the number 0, whatever the event |
| EventDecoder.DecodeInverts | backend/src/modules/rescue-history/event-decoder.ts:44-207 | the decoder inverts the encoding of all eleven events, whatever topics and data follow |

## Left out

- The chain, its contracts and the RPC: contract reads are inputs, the RPC fails by an arbitrary function; nothing is assumed about how contracts settle or deduplicate.
- Delivery: a relay timeout does not cancel the transaction in flight, so no bound on deliveries is claimed; only success, failure or timeout of an execution is modelled.
- RelayQueue.RelayService.RetryRelayJob: the check of the status and the update are one step; in the source they are two, and another worker may claim between them.
- RelayQueue.RelayService.UpsertJob: the lookup of a message and the insert or update are one step; in the source they are two, and a second insert would fail on the unique index.
- RelayQueue.RelayService.ClaimNextRunnableJob: rows locked by other workers do not occur in the method; the machine's claim may take any runnable job instead.
- RelayQueue.RelayService.RunRelayWorkerOnce: is one worker's tick by itself; other workers act between its steps in the machine.
- RescueIndexer.RescueHistoryService.IndexChain: leaves out the user synchronisation and the projections it starts, whose failures it ignores.
- RescuePlanner.RunChainlinkApiGuardFlow: takes prices and decimals as already read; a failed read of decimals, which the source replaces by 18, is the market's default.
- RescuePlanner.ReadAdapters: leaves out the token decimals the same loop reads into a cache; they are the market's decimals.
- PortfolioAgreement.ListingsAgree: supposes that the backend stores exactly what the adapters answer, in their order, and that each adapter of a chain is asked once; discovery caches and their age are not modelled.
- RiskGuard.EvaluateChainlinkApiGuard: takes the price reports as loaded and already mapped from canonical assets.
- Clocks: all workers read one clock, and a statement and its timestamp are one moment.
- SQL: queries and updates are written on maps of rows; a claim in the machine may take any runnable job, because locked rows are skipped, while the single worker's method takes the first.
- Reorganisations and `resetIndexedRescueData`: chain logs are fixed and rows are never deleted.
- IndexerTheorems.CursorCovers: supposes that a chain never reuses a transaction hash and log index for a different log, which is what the table's unique key rests on.
- Integrity hashes and execution ids: the outcome of the check and the id's status are inputs.
- Request bodies, configuration and DTO parsing: their results are the model's inputs, with the ranges the parsers admit.
- JavaScript numbers: counters and basis points are exact integers; rounding beyond 2^53 is not modelled.
- Text: UTF-8 decoding (string arguments stay bytes), non-ASCII case folding, and topics other than hex text are not modelled; decoded numbers are kept as numbers rather than decimal text.
- Loading of price reports and snapshots with their fallbacks, and the copies of the guard in the two quant workflows.
- Severity labels, logs, metadata, list endpoints, user synchronisation, demo wallets, registrations: no state that the theorems depend on.
- Project files, migrations, entities' other columns (outputs and errors of jobs): never read back by the modelled code.
