/**
 When the simulation goes on to plan a rescue, and why it refuses, in terms of its positions and request.
 */
module SimulationTheorems {
  import opened Common
  import opened FixedPoint
  import StableSort
  import P = RescuePlanner
  import S = PositionsSimulation

  ghost predicate HasDebt(flat: seq<S.SimFlat>) {
    exists f :: f in flat && f.position.debtAmountRaw > 0
  }

  /** Some position with debt has its stored health factor at a threshold or under it. */
  ghost predicate SomeLow(flat: seq<S.SimFlat>, dto: S.Dto) {
    exists f :: f in flat && f.position.debtAmountRaw > 0 && S.GuardLetsPass(f, dto)
  }

  ghost predicate DebtAt(flat: seq<S.SimFlat>, adapter: P.Address) {
    exists f :: f in flat && f.position.debtAmountRaw > 0 && f.adapterAddress == adapter
  }

  /** No target is requested, or some position with debt is at the requested adapter. */
  ghost predicate TargetServed(flat: seq<S.SimFlat>, dto: S.Dto) {
    dto.targetAdapter.None? || DebtAt(flat, dto.targetAdapter.value)
  }

  function ThresholdWad(dto: S.Dto): nat {
    Max(dto.onchainHfMinBps, dto.earlyWarningHfBps) * WAD_PER_BPS
  }

  lemma PassesIsThreshold(f: S.SimFlat, dto: S.Dto)
    ensures S.GuardLetsPass(f, dto) <==> f.position.healthFactorWad <= ThresholdWad(dto)
  {
    MulMonotone(dto.onchainHfMinBps, Max(dto.onchainHfMinBps, dto.earlyWarningHfBps), WAD_PER_BPS);
    MulMonotone(dto.earlyWarningHfBps, Max(dto.onchainHfMinBps, dto.earlyWarningHfBps), WAD_PER_BPS);
  }

  lemma {:induction false} DebtBearingMembers(flat: seq<S.SimFlat>)
    ensures forall f :: f in S.DebtBearing(flat) <==> f in flat && f.position.debtAmountRaw > 0
  {
    if flat != [] {
      DebtBearingMembers(flat[..|flat| - 1]);
      assert flat == flat[..|flat| - 1] + [flat[|flat| - 1]];
    }
  }

  lemma ByRiskMembers(flat: seq<S.SimFlat>)
    ensures forall f :: f in S.ByRisk(S.DebtBearing(flat)) <==> f in flat && f.position.debtAmountRaw > 0
  {
    hide S.DebtBearing;
    DebtBearingMembers(flat);
    forall f
      ensures f in S.ByRisk(S.DebtBearing(flat)) <==> f in S.DebtBearing(flat)
    {
      StableSort.SortMembers(S.AtMostAsHealthy, S.DebtBearing(flat), f);
    }
  }

  lemma DebtIsSorted(flat: seq<S.SimFlat>)
    ensures HasDebt(flat) <==> S.ByRisk(S.DebtBearing(flat)) != []
  {
    hide S.ByRisk;
    ByRiskMembers(flat);
    var sorted := S.ByRisk(S.DebtBearing(flat));
    if sorted != [] {
      assert sorted[0] in sorted;
    }
  }

  /** The simulation's look at the weakest position alone finds what a look at all of them would. */
  lemma WeakestTellsAll(flat: seq<S.SimFlat>, dto: S.Dto)
    requires S.ByRisk(S.DebtBearing(flat)) != []
    ensures S.GuardLetsPass(S.ByRisk(S.DebtBearing(flat))[0], dto) <==> SomeLow(flat, dto)
  {
    hide S.DebtBearing;
    var sorted := S.ByRisk(S.DebtBearing(flat));
    ByRiskMembers(flat);
    StableSort.SortSorted(S.AtMostAsHealthy, S.DebtBearing(flat));
    assert sorted[0] in sorted;
    if f :| f in flat && f.position.debtAmountRaw > 0 && S.GuardLetsPass(f, dto) {
      assert f in sorted;
      var i :| 0 <= i < |sorted| && sorted[i] == f;
      assert i == 0 || S.AtMostAsHealthy(sorted[0], sorted[i]);
    }
  }

  lemma {:induction false} FindsAdapter(list: seq<S.SimFlat>, adapter: P.Address)
    ensures S.Find(list, adapter) == None <==> forall f :: f in list ==> f.adapterAddress != adapter
  {
    if list != [] {
      FindsAdapter(list[1..], adapter);
      assert list == [list[0]] + list[1..];
    }
  }

  lemma TargetFound(flat: seq<S.SimFlat>, adapter: P.Address)
    ensures S.Find(S.ByRisk(S.DebtBearing(flat)), adapter).Some? <==> DebtAt(flat, adapter)
  {
    hide S.ByRisk;
    ByRiskMembers(flat);
    FindsAdapter(S.ByRisk(S.DebtBearing(flat)), adapter);
  }

  /** Why the simulation stops before it looks for a source: there is no debt, nothing is low, or the
      requested target has no debt; and it looks for one exactly in every other case. */
  lemma RefusalsIff(flat: seq<S.SimFlat>, canonicalMap: map<P.Address, P.Address>, dto: S.Dto)
    ensures S.Select(flat, canonicalMap, dto) == Err(P.NoDebtBearing) <==> !HasDebt(flat)
    ensures S.Select(flat, canonicalMap, dto) == Err(P.GuardVerdict) <==> HasDebt(flat) && !SomeLow(flat, dto)
    ensures S.Select(flat, canonicalMap, dto) == Err(P.TargetNotDebtBearing)
            <==> SomeLow(flat, dto) && !TargetServed(flat, dto)
  {
    hide S.ByRisk, S.DebtBearing, S.Candidates, S.Selected, S.GuardLetsPass, SomeLow, HasDebt, DebtAt;
    DebtIsSorted(flat);
    LowHasDebt(flat, dto);
    if S.ByRisk(S.DebtBearing(flat)) != [] {
      WeakestTellsAll(flat, dto);
      if dto.targetAdapter.Some? {
        TargetFound(flat, dto.targetAdapter.value);
      }
    }
  }

  lemma LowHasDebt(flat: seq<S.SimFlat>, dto: S.Dto)
    ensures SomeLow(flat, dto) ==> HasDebt(flat)
  {
  }
}
