/**
 One portfolio from both sides: what the adapters answer the workflow, and the positions the backend stores of the
 same answers. From these both planners draw up the same listing, and so reach the same verdicts.
 */
module PortfolioAgreement {
  import opened Common
  import opened FixedPoint
  import opened SimulationTheorems
  import P = RescuePlanner
  import S = PositionsSimulation
  import G = RiskGuard
  import A = PlannerAgreement
  import GA = GuardAgreement
  import WA = WorkflowAgreement

  // ---- the collateral of an adapter ----

  lemma {:induction false} TotalsConcat(a: seq<S.SimPosition>, b: seq<S.SimPosition>, of: S.SimPosition)
    ensures S.AdapterTotal(a + b, of) == S.AdapterTotal(a, of) + S.AdapterTotal(b, of)
  {
    if b == [] {
      assert a + b == a;
    } else {
      assert (a + b)[..|a + b| - 1] == a + b[..|b| - 1];
      TotalsConcat(a, b[..|b| - 1], of);
    }
  }

  /** A position elsewhere, or one that holds no collateral. */
  predicate AddsNothing(p: S.SimPosition, of: S.SimPosition) {
    p.chainId == of.chainId && p.adapterAddress == of.adapterAddress ==> p.collateralAmountRaw == 0
  }

  /** What is available at an adapter is no less than a position holds there itself, and just that exactly when
      the others at its chain and adapter hold no collateral. */
  lemma TotalVersusOwn(positions: seq<S.SimPosition>, i: nat)
    requires i < |positions|
    ensures var own := positions[i];
            && S.AdapterTotal(positions, own) >= own.collateralAmountRaw
            && (S.AdapterTotal(positions, own) == own.collateralAmountRaw
                <==> forall j :: 0 <= j < |positions| && j != i ==> AddsNothing(positions[j], own))
  {
    hide S.AdapterTotal, AddsNothing;
    var own, front, back := positions[i], positions[..i], positions[i + 1..];
    assert positions == front + [own] + back;
    TotalsConcat(front + [own], back, own);
    TotalsConcat(front, [own], own);
    TotalOfAlone(own);
    ZeroIff(front, own);
    ZeroIff(back, own);
    OthersAre(positions, i, own);
  }

  lemma OthersAre(positions: seq<S.SimPosition>, i: nat, of: S.SimPosition)
    requires i < |positions|
    ensures var front, back := positions[..i], positions[i + 1..];
            (forall j :: 0 <= j < |positions| && j != i ==> AddsNothing(positions[j], of))
            <==> && (forall j :: 0 <= j < |front| ==> AddsNothing(front[j], of))
                 && (forall j :: 0 <= j < |back| ==> AddsNothing(back[j], of))
  {
    hide AddsNothing;
    var front, back := positions[..i], positions[i + 1..];
    if forall j :: 0 <= j < |positions| && j != i ==> AddsNothing(positions[j], of) {
      forall j | 0 <= j < |back|
        ensures AddsNothing(back[j], of)
      {
        assert back[j] == positions[j + i + 1];
      }
    }
    if (forall j :: 0 <= j < i ==> AddsNothing(front[j], of))
       && (forall j :: 0 <= j < |back| ==> AddsNothing(back[j], of)) {
      forall j | 0 <= j < |positions| && j != i
        ensures AddsNothing(positions[j], of)
      {
        assert positions[j] == if j < i then front[j] else back[j - i - 1];
      }
    }
  }

  lemma TotalOfAlone(p: S.SimPosition)
    ensures S.AdapterTotal([p], p) == p.collateralAmountRaw
  {
    assert [p][..0] == [];
  }

  lemma {:induction false} ZeroIff(positions: seq<S.SimPosition>, of: S.SimPosition)
    ensures S.AdapterTotal(positions, of) == 0
            <==> forall j :: 0 <= j < |positions| ==> AddsNothing(positions[j], of)
  {
    if positions != [] {
      ZeroIff(positions[..|positions| - 1], of);
    }
  }

  // ---- the portfolio ----

  /** What one adapter answered, and what the backend stores of it. */
  datatype Holding = Holding(read: P.AdapterRead, stored: seq<S.SimPosition>)

  /** A read that threw answers nothing. */
  function Answered(h: Holding): seq<P.Position> {
    h.read.positions.GetOr([])
  }

  ghost predicate Faithful(h: Holding, sel: map<P.Address, nat>) {
    && h.read.chainKey != ""
    && h.read.rescueTargetChainSelector
       == (if h.read.adapterAddress in sel then Some(sel[h.read.adapterAddress]) else None)
    && |h.stored| == |Answered(h)|
    && forall i :: 0 <= i < |h.stored| ==>
         var p := h.stored[i];
         && A.AsPosition(p) == Answered(h)[i] && p.adapterAddress == h.read.adapterAddress
         && Some(p.chainId) == h.read.chainId && p.chainKey == h.read.chainKey
  }

  /** Every adapter of a chain is asked once. */
  ghost predicate Portfolio(hs: seq<Holding>, sel: map<P.Address, nat>) {
    && (forall k :: 0 <= k < |hs| ==> Faithful(hs[k], sel))
    && (forall k, l :: 0 <= k < l < |hs| && hs[k].read.adapterAddress == hs[l].read.adapterAddress ==>
          hs[k].read.chainId != hs[l].read.chainId)
  }

  function ReadsOf(hs: seq<Holding>): seq<P.AdapterRead> {
    seq(|hs|, k requires 0 <= k < |hs| => hs[k].read)
  }

  function StoredOf(hs: seq<Holding>): seq<S.SimPosition> {
    if hs == [] then [] else StoredOf(hs[..|hs| - 1]) + hs[|hs| - 1].stored
  }

  lemma {:induction false} StoredMembers(hs: seq<Holding>, p: S.SimPosition)
    ensures p in StoredOf(hs) <==> exists h :: h in hs && p in h.stored
  {
    if hs != [] {
      StoredMembers(hs[..|hs| - 1], p);
      assert hs == hs[..|hs| - 1] + [hs[|hs| - 1]];
    }
  }

  // ---- one listing ----

  /** The total over the stored positions is the one the workflow sums over the answer. */
  lemma {:induction false} OwnTotal(stored: seq<S.SimPosition>, answered: seq<P.Position>, of: S.SimPosition)
    requires |stored| == |answered|
    requires forall i :: 0 <= i < |stored| ==> A.AsPosition(stored[i]) == answered[i] && S.SameAdapter(stored[i], of)
    ensures S.AdapterTotal(stored, of) == P.TotalCollateral(answered)
  {
    if stored != [] {
      OwnTotal(stored[..|stored| - 1], answered[..|answered| - 1], of);
    }
  }

  lemma {:induction false} OthersTotal(hs: seq<Holding>, of: S.SimPosition)
    requires forall k, i :: 0 <= k < |hs| && 0 <= i < |hs[k].stored| ==> !S.SameAdapter(hs[k].stored[i], of)
    ensures S.AdapterTotal(StoredOf(hs), of) == 0
  {
    if hs != [] {
      var last := hs[|hs| - 1].stored;
      OthersTotal(hs[..|hs| - 1], of);
      TotalsConcat(StoredOf(hs[..|hs| - 1]), last, of);
      ZeroIff(last, of);
    }
  }

  lemma {:induction false} TotalIsAnswered(hs: seq<Holding>, k: nat, of: S.SimPosition, sel: map<P.Address, nat>)
    requires k < |hs| && Portfolio(hs, sel) && of in hs[k].stored
    ensures S.AdapterTotal(StoredOf(hs), of) == P.TotalCollateral(Answered(hs[k]))
  {
    hide S.AdapterTotal;
    var front, last := hs[..|hs| - 1], hs[|hs| - 1];
    TotalsConcat(StoredOf(front), last.stored, of);
    if k < |front| {
      TotalIsAnswered(front, k, of, sel);
      Apart(hs, k, |hs| - 1, of, sel);
      ZeroIff(last.stored, of);
    } else {
      forall l | 0 <= l < |front|
        ensures forall i :: 0 <= i < |front[l].stored| ==> !S.SameAdapter(front[l].stored[i], of)
      {
        Apart(hs, k, l, of, sel);
      }
      OthersTotal(front, of);
      OwnTotal(last.stored, Answered(last), of);
    }
  }

  lemma Apart(hs: seq<Holding>, k: nat, l: nat, of: S.SimPosition, sel: map<P.Address, nat>)
    requires k < |hs| && l < |hs| && k != l && Portfolio(hs, sel) && of in hs[k].stored
    ensures forall i :: 0 <= i < |hs[l].stored| ==> !S.SameAdapter(hs[l].stored[i], of)
  {
    assert Faithful(hs[k], sel) && Faithful(hs[l], sel);
  }

  /** Positions listed with the totals over all that are stored. */
  function Listed(positions: seq<S.SimPosition>, all: seq<S.SimPosition>): (r: seq<S.SimFlat>)
    ensures |r| == |positions|
  {
    seq(|positions|, i requires 0 <= i < |positions| =>
      var p := positions[i];
      S.SimFlat(p.adapterAddress, S.AdapterTotal(all, p), p.chainId, p.chainKey, p))
  }

  lemma ListedConcat(a: seq<S.SimPosition>, b: seq<S.SimPosition>, all: seq<S.SimPosition>)
    ensures Listed(a + b, all) == Listed(a, all) + Listed(b, all)
  {
  }

  lemma ListingOfOne(h: Holding, all: seq<S.SimPosition>, sel: map<P.Address, nat>)
    requires Faithful(h, sel)
    requires forall p :: p in h.stored ==> S.AdapterTotal(all, p) == P.TotalCollateral(Answered(h))
    ensures A.AsFlats(Listed(h.stored, all), sel)
            == if P.Discovered(h.read) then P.FlattenOne(P.SnapshotOf(h.read), |h.read.positions.value|) else []
  {
    hide S.AdapterTotal, P.TotalCollateral;
  }

  lemma {:induction false} ListingOfAll(hs: seq<Holding>, all: seq<S.SimPosition>, sel: map<P.Address, nat>)
    requires forall k :: 0 <= k < |hs| ==> Faithful(hs[k], sel)
    requires forall k, p :: 0 <= k < |hs| && p in hs[k].stored ==>
               S.AdapterTotal(all, p) == P.TotalCollateral(Answered(hs[k]))
    ensures A.AsFlats(Listed(StoredOf(hs), all), sel) == P.Flatten(P.SnapshotsOf(ReadsOf(hs)))
  {
    hide S.AdapterTotal, P.TotalCollateral, A.AsFlats, Faithful, P.FlattenOne, Listed, P.Flatten, P.SnapshotsOf;
    if hs == [] {
      NothingListed(all, sel);
    } else {
      var front, last := hs[..|hs| - 1], hs[|hs| - 1];
      ListingOfAll(front, all, sel);
      ListingOfOne(last, all, sel);
      ListedConcat(StoredOf(front), last.stored, all);
      A.AsFlatsConcat(Listed(StoredOf(front), all), Listed(last.stored, all), sel);
      assert ReadsOf(hs) == ReadsOf(front) + [last.read];
      ReadSnoc(ReadsOf(front), last.read);
    }
  }

  lemma ReadSnoc(answers: seq<P.AdapterRead>, read: P.AdapterRead)
    ensures P.Flatten(P.SnapshotsOf(answers + [read]))
            == P.Flatten(P.SnapshotsOf(answers))
               + (if P.Discovered(read) then P.FlattenOne(P.SnapshotOf(read), |read.positions.value|) else [])
  {
    hide P.FlattenOne, P.TotalCollateral;
    assert (answers + [read])[..|answers|] == answers;
    var before := P.SnapshotsOf(answers);
    if P.Discovered(read) {
      assert (before + [P.SnapshotOf(read)])[..|before|] == before;
    } else {
      assert before + [] == before;
    }
  }

  lemma NothingListed(all: seq<S.SimPosition>, sel: map<P.Address, nat>)
    ensures A.AsFlats(Listed([], all), sel) == [] == P.Flatten(P.SnapshotsOf([]))
  {
  }

  lemma FlattenIsListed(positions: seq<S.SimPosition>)
    ensures S.Flatten(positions) == Listed(positions, positions)
  {
  }

  /** The simulation lists the stored positions as the workflow lists the answers: in the same order, each with the
      collateral of its adapter. */
  lemma ListingsAgree(hs: seq<Holding>, sel: map<P.Address, nat>)
    requires Portfolio(hs, sel)
    ensures A.AsFlats(S.Flatten(StoredOf(hs)), sel) == P.Flatten(P.SnapshotsOf(ReadsOf(hs)))
  {
    hide S.AdapterTotal, P.TotalCollateral, A.AsFlats, Listed;
    forall k, p | 0 <= k < |hs| && p in hs[k].stored
      ensures S.AdapterTotal(StoredOf(hs), p) == P.TotalCollateral(Answered(hs[k]))
    {
      TotalIsAnswered(hs, k, p, sel);
    }
    ListingOfAll(hs, StoredOf(hs), sel);
    FlattenIsListed(StoredOf(hs));
  }

  // ---- one market ----

  /** A position stored with the prices and decimals of a market; a price of 0 is none. */
  predicate RecordedAt(p: S.SimPosition, market: P.Market) {
    && p.collateralPriceWad == market.Price(p.collateralAsset) && p.debtPriceWad == market.Price(p.debtAsset)
    && p.collateralDecimals == market.Decimals(p.collateralAsset) && p.debtDecimals == market.Decimals(p.debtAsset)
  }

  /** The prices and decimals that the simulation gathers from the stored positions are those of the market. */
  lemma MarketIsRecorded(positions: seq<S.SimPosition>, market: P.Market)
    requires forall p :: p in positions ==> RecordedAt(p, market)
    ensures var gathered := S.MarketOf(positions);
            forall p :: p in positions ==>
              && gathered.Price(p.collateralAsset) == p.collateralPriceWad
              && gathered.Price(p.debtAsset) == p.debtPriceWad
              && gathered.Decimals(p.collateralAsset) == p.collateralDecimals
              && gathered.Decimals(p.debtAsset) == p.debtDecimals
  {
    hide S.PricesOf, S.DecimalsOf;
    GatheredMentions(positions);
    GatheredPrices(positions, market);
    GatheredDecimals(positions, market);
  }

  lemma {:induction false} GatheredPrices(positions: seq<S.SimPosition>, market: P.Market)
    requires forall p :: p in positions ==> RecordedAt(p, market)
    ensures forall a :: a in S.PricesOf(positions) ==> S.PricesOf(positions)[a] == market.Price(a)
  {
    if positions != [] {
      var front, last := positions[..|positions| - 1], positions[|positions| - 1];
      assert last in positions && RecordedAt(last, market);
      GatheredPrices(front, market);
    }
  }

  lemma {:induction false} GatheredDecimals(positions: seq<S.SimPosition>, market: P.Market)
    requires forall p :: p in positions ==> RecordedAt(p, market)
    ensures forall a :: a in S.DecimalsOf(positions) ==> S.DecimalsOf(positions)[a] == market.Decimals(a)
  {
    if positions != [] {
      var front, last := positions[..|positions| - 1], positions[|positions| - 1];
      assert last in positions && RecordedAt(last, market);
      GatheredDecimals(front, market);
    }
  }

  lemma {:induction false} GatheredMentions(positions: seq<S.SimPosition>)
    ensures var gathered := S.MarketOf(positions);
            forall p :: p in positions ==>
              && p.collateralAsset in gathered.decimals && p.debtAsset in gathered.decimals
              && (p.collateralPriceWad > 0 ==> p.collateralAsset in gathered.prices)
              && (p.debtPriceWad > 0 ==> p.debtAsset in gathered.prices)
  {
    if positions != [] {
      GatheredMentions(positions[..|positions| - 1]);
      assert positions == positions[..|positions| - 1] + [positions[|positions| - 1]];
    }
  }

  /** When positions disagree, the last to mention an asset settles its decimals, and the last to price it its
      price; within a position the debt comes after the collateral. */
  lemma {:induction false} LastMentionSettles(positions: seq<S.SimPosition>, i: nat, asset: P.Address)
    requires i < |positions| && asset in {positions[i].collateralAsset, positions[i].debtAsset}
    ensures (forall j :: i < j < |positions| ==>
               asset != positions[j].collateralAsset && asset != positions[j].debtAsset) ==>
              S.MarketOf(positions).Decimals(asset)
              == (if asset == positions[i].debtAsset then positions[i].debtDecimals
                  else positions[i].collateralDecimals)
    ensures (forall j :: i < j < |positions| ==>
               && (asset == positions[j].collateralAsset ==> positions[j].collateralPriceWad == 0)
               && (asset == positions[j].debtAsset ==> positions[j].debtPriceWad == 0)) ==>
              && (asset == positions[i].debtAsset && positions[i].debtPriceWad > 0 ==>
                    S.MarketOf(positions).Price(asset) == positions[i].debtPriceWad)
              && (asset == positions[i].collateralAsset && positions[i].collateralPriceWad > 0
                  && (asset != positions[i].debtAsset || positions[i].debtPriceWad == 0) ==>
                    S.MarketOf(positions).Price(asset) == positions[i].collateralPriceWad)
  {
    if i < |positions| - 1 {
      LastMentionSettles(positions[..|positions| - 1], i, asset);
    }
  }

  /** Only the prices and decimals of the target's and the source's assets matter to the size. */
  lemma SizeLooksAtFour(s: S.SimSelection, dto: S.Dto, m: P.Market, m': P.Market)
    requires dto.Valid()
    requires forall a :: a in {s.target.position.collateralAsset, s.target.position.debtAsset,
                               s.source.position.collateralAsset, s.source.position.debtAsset} ==>
               m.Price(a) == m'.Price(a) && m.Decimals(a) == m'.Decimals(a)
    ensures S.Size(s, dto, m) == S.Size(s, dto, m')
  {
    hide ToUsdWad, FromUsdWadToAmount;
    assert S.EstimateNeededAction(s.mode, s.target, dto.targetHfBps, m)
           == S.EstimateNeededAction(s.mode, s.target, dto.targetHfBps, m');
    assert S.ComputeSourceHfSafeCap(s.source, dto.sourceFloorHfBps, m)
           == S.ComputeSourceHfSafeCap(s.source, dto.sourceFloorHfBps, m');
  }

  lemma {:induction false} CandidatesAreListed(flat: seq<S.SimFlat>, target: S.SimFlat,
                                               canonicalMap: map<P.Address, P.Address>, dto: S.Dto, c: S.SimCandidate)
    requires c in S.Candidates(flat, target, canonicalMap, dto)
    ensures c.source in flat
  {
    if flat != [] && c !in S.CandidateAt(flat[|flat| - 1], target, canonicalMap, dto) {
      CandidatesAreListed(flat[..|flat| - 1], target, canonicalMap, dto, c);
    }
  }

  lemma {:induction false} SelectedIsListed(list: seq<S.SimCandidate>, wanted: Option<P.Address>)
    ensures S.Selected(list, wanted).Some? ==> S.Selected(list, wanted).value in list
  {
    if list != [] {
      SelectedIsListed(list[..|list| - 1], wanted);
    }
  }

  lemma {:induction false} FoundIsListed(list: seq<S.SimFlat>, adapter: P.Address)
    ensures S.Find(list, adapter).Some? ==> S.Find(list, adapter).value in list
  {
    if list != [] {
      FoundIsListed(list[1..], adapter);
    }
  }

  lemma SelectionIsListed(flat: seq<S.SimFlat>, canonicalMap: map<P.Address, P.Address>, dto: S.Dto)
    requires S.Select(flat, canonicalMap, dto).Ok?
    ensures var s := S.Select(flat, canonicalMap, dto).value;
            s.target in flat && s.source in flat
  {
    hide S.ByRisk, S.DebtBearing, S.Candidates, S.Selected, S.GuardLetsPass;
    var sorted := S.ByRisk(S.DebtBearing(flat));
    ByRiskMembers(flat);
    if dto.targetAdapter.Some? {
      FoundIsListed(sorted, dto.targetAdapter.value);
    }
    var target := if dto.targetAdapter.Some? then S.Find(sorted, dto.targetAdapter.value).value else sorted[0];
    assert target in sorted;
    var candidates := S.Candidates(flat, target, canonicalMap, dto);
    SelectedIsListed(candidates, dto.sourceAdapter);
    CandidatesAreListed(flat, target, canonicalMap, dto, S.Selected(candidates, dto.sourceAdapter).value);
  }

  lemma ListedArePositions(positions: seq<S.SimPosition>, f: S.SimFlat)
    requires f in S.Flatten(positions)
    ensures f.position in positions
  {
  }

  /** So the simulation sizes its plan at the market's prices. */
  lemma SimulatedAtMarket(positions: seq<S.SimPosition>, canonicalMap: map<P.Address, P.Address>, dto: S.Dto,
                          market: P.Market)
    requires dto.Valid() && forall p :: p in positions ==> RecordedAt(p, market)
    ensures S.Simulate(S.Flatten(positions), canonicalMap, dto, S.MarketOf(positions))
            == S.Simulate(S.Flatten(positions), canonicalMap, dto, market)
  {
    hide S.Flatten, S.MarketOf, S.Select, S.Size;
    var flat := S.Flatten(positions);
    if S.Select(flat, canonicalMap, dto).Ok? {
      var s := S.Select(flat, canonicalMap, dto).value;
      SelectionIsListed(flat, canonicalMap, dto);
      ListedArePositions(positions, s.target);
      ListedArePositions(positions, s.source);
      MarketIsRecorded(positions, market);
      SizeLooksAtFour(s, dto, S.MarketOf(positions), market);
    }
  }

  // ---- from end to end ----

  /** The workflow reads the portfolio and gets past its gates; the backend has stored it at the same prices. */
  ghost predicate SameInputs(hs: seq<Holding>, i: WA.Inputs, dto: S.Dto, sel: map<P.Address, nat>) {
    && Portfolio(hs, sel) && i.snapshots == P.SnapshotsOf(ReadsOf(hs)) && StoredOf(hs) != []
    && G.Gate(i.Scan(), i.cfg) == None
    && i.cfg.onchainHfMinBps == dto.onchainHfMinBps && i.cfg.earlyWarningHfBps == dto.earlyWarningHfBps
    && GA.SafeThresholds(dto)
    && forall p :: p in StoredOf(hs) ==> RecordedAt(p, i.Market()) && GA.StoredAt(p, i.Market())
  }

  lemma SameInputsAreOneCase(hs: seq<Holding>, i: WA.Inputs, dto: S.Dto, sel: map<P.Address, nat>)
    requires SameInputs(hs, i, dto, sel)
    ensures WA.SameCase(i, S.Flatten(StoredOf(hs)), dto, sel)
  {
    hide G.Gate, G.ScanAll, GA.SafeThresholds, GA.StoredAt, RecordedAt, A.AsFlats, P.SnapshotsOf, Faithful, Portfolio,
         G.MarketIn, ReadsOf;
    var flat := S.Flatten(StoredOf(hs));
    ListingsAgree(hs, sel);
    forall f | f in flat
      ensures f.position in StoredOf(hs)
    {
      ListedArePositions(StoredOf(hs), f);
    }
    assert |flat| > 0;
    PortfolioIsLocated(hs, sel);
  }

  lemma PortfolioIsLocated(hs: seq<Holding>, sel: map<P.Address, nat>)
    requires Portfolio(hs, sel)
    ensures A.Located(S.Flatten(StoredOf(hs)))
  {
    hide S.AdapterTotal;
    var flat := S.Flatten(StoredOf(hs));
    forall k | 0 <= k < |flat|
      ensures flat[k].chainKey != ""
    {
      var p := StoredOf(hs)[k];
      StoredMembers(hs, p);
      var h :| h in hs && p in h.stored;
      assert Faithful(h, sel);
    }
  }

  /** The workflow on the adapters' answers and the simulation on the stored positions, where the guards agree and
      any requested target has debt: both stop for want of debt or of risk, or both give the verdict of the same
      selection and sizing. */
  lemma PortfolioMatches(hs: seq<Holding>, i: WA.Inputs, canonicalMap: map<P.Address, P.Address>, dto: S.Dto,
                         dest: nat, sel: map<P.Address, nat>)
    requires dto.Valid() && SameInputs(hs, i, dto, sel)
    requires GA.GuardsAlike(S.Flatten(StoredOf(hs)), i.Market(), sel, i.Penalty(), dto)
    ensures var flat := S.Flatten(StoredOf(hs));
            var run := WA.RunOn(i, canonicalMap, dto, dest);
            var simulated := S.Simulate(flat, canonicalMap, dto, S.MarketOf(StoredOf(hs)));
            && (!HasDebt(flat) ==>
                  run == P.Stop(P.NoAction, P.GuardVerdict) && simulated == S.SimStop(P.Abort, P.NoDebtBearing))
            && (HasDebt(flat) && !SomeLow(flat, dto) ==>
                  run == P.Stop(P.NoAction, P.GuardVerdict)
                  && simulated == S.SimStop(P.NoAction, P.GuardVerdict))
            && (SomeLow(flat, dto) && TargetServed(flat, dto) ==> A.SameVerdict(simulated, run))
  {
    hide S.Flatten, S.MarketOf, S.Select, WA.RunOn, A.SameVerdict, HasDebt, SomeLow, TargetServed, GA.GuardsAlike,
         G.ScanAll, G.Gate, GA.StoredAt, RecordedAt, Portfolio, StoredOf, P.SnapshotsOf, ReadsOf, A.ExpectedVerdict,
         S.Size, G.MarketIn, G.TotalPenaltyBps;
    SameInputsAreOneCase(hs, i, dto, sel);
    SimulatedAtMarket(StoredOf(hs), canonicalMap, dto, i.Market());
    WA.WorkflowMatchesSimulation(i, S.Flatten(StoredOf(hs)), canonicalMap, dto, dest, sel);
    ListedNotEmpty(StoredOf(hs));
    if !HasDebt(S.Flatten(StoredOf(hs))) {
      SimulationStopsWithoutDebt(S.Flatten(StoredOf(hs)), canonicalMap, dto, S.MarketOf(StoredOf(hs)));
    }
  }

  lemma ListedNotEmpty(positions: seq<S.SimPosition>)
    ensures S.Flatten(positions) == [] <==> positions == []
  {
    assert |S.Flatten(positions)| == |positions|;
  }

  lemma SimulationStopsWithoutDebt(flat: seq<S.SimFlat>, canonicalMap: map<P.Address, P.Address>, dto: S.Dto,
                                   market: P.Market)
    requires dto.Valid() && flat != [] && !HasDebt(flat)
    ensures S.Simulate(flat, canonicalMap, dto, market) == S.SimStop(P.Abort, P.NoDebtBearing)
  {
    hide S.Select, S.Size, HasDebt;
    RefusalsIff(flat, canonicalMap, dto);
  }

  // ---- a portfolio in need ----

  const STORED := S.SimPosition(1, "sepolia", "aave", "weth", "usdc", 100, 100, WAD, 10000, 0, 0, WAD, WAD)
  const READ := P.AdapterRead("aave", Some([P.Position("weth", "usdc", 100, 100, WAD, 10000)]), Some(1), "sepolia",
                              None)
  const AT_PAR := G.Report(WAD, None, 0, G.Mock, true)
  const WATCHED := WA.Inputs(P.SnapshotsOf([READ]), ["weth", "usdc"], map["weth" := AT_PAR, "usdc" := AT_PAR],
                             map["weth" := 0, "usdc" := 0],
                             G.GuardConfig(10000, 11250, 0, 0, 0, true, true, 2000, true), 0)

  lemma InNeedIsRead()
    ensures Portfolio([Holding(READ, [STORED])], map[]) && StoredOf([Holding(READ, [STORED])]) == [STORED]
    ensures ReadsOf([Holding(READ, [STORED])]) == [READ]
  {
    var hs := [Holding(READ, [STORED])];
    assert hs[..0] == [];
    assert StoredOf(hs[..0]) == [];
    assert READ.positions.value[0] == A.AsPosition(STORED);
  }

  lemma InNeedIsWatched()
    ensures G.Gate(WATCHED.Scan(), WATCHED.cfg) == None
    ensures RecordedAt(STORED, WATCHED.Market())
  {
    var assets := WATCHED.assets;
    assert assets[..1] == ["weth"] && ["weth"][..0] == [];
    assert G.ScanAll([], WATCHED.reports, WATCHED.cfg, 0) == G.Scan(0, 0, 0, 0, 0);
    assert G.ScanAll(["weth"], WATCHED.reports, WATCHED.cfg, 0) == G.Scan(0, 0, 0, 0, 0);
  }

  lemma InNeedIsLow()
    ensures GA.StoredAt(STORED, WATCHED.Market()) && GA.Priced(STORED, WATCHED.Market())
    ensures P.DebtUsd(A.AsPosition(STORED), WATCHED.Market()) == 100 * WAD
    ensures G.PositionHfWad(A.AsPosition(STORED), WATCHED.Market()) == WAD <= ThresholdWad(GA.ASKED)
  {
    var p, market := A.AsPosition(STORED), WATCHED.Market();
    InNeedIsWatched();
    assert P.CollateralUsd(p, market) == 100 * WAD && P.DebtUsd(p, market) == 100 * WAD;
    assert P.EffectiveUsd(p, market) == 100 * WAD;
    G.BackendHealthFactorAgrees(p, market);
  }

  /** The agreement is about something: a position at a health factor of 1, read, stored and priced, that both
      guards would rescue. */
  lemma InNeedMatches()
    ensures SameInputs([Holding(READ, [STORED])], WATCHED, GA.ASKED, map[]) && GA.ASKED.Valid()
    ensures var flat := S.Flatten(StoredOf([Holding(READ, [STORED])]));
            && GA.GuardsAlike(flat, WATCHED.Market(), map[], WATCHED.Penalty(), GA.ASKED)
            && SomeLow(flat, GA.ASKED) && TargetServed(flat, GA.ASKED)
  {
    hide G.AtRisk, G.ScanAll, G.Gate, G.MarketIn, P.SnapshotsOf, G.PositionHfWad, GA.StoredAt, RecordedAt, Portfolio,
         StoredOf, ReadsOf, P.DebtUsd, GA.Priced;
    InNeedIsRead();
    InNeedIsWatched();
    InNeedIsLow();
    var flat := S.Flatten([STORED]);
    assert flat[0] in flat && flat[0].position == STORED;
    PassesIsThreshold(flat[0], GA.ASKED);
    assert forall f :: f in flat ==> f.position == STORED;
    assert GA.LowAtPrices(flat[0], WATCHED.Market(), ThresholdWad(GA.ASKED));
  }
}
