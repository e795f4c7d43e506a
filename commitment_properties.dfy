/** What the constraint rules of a window mean for every feasible assignment. */
module CommitmentProperties {
  import opened Sums
  import opened OrderedSets
  import opened UnitCommitment

  // ---------------------------------------------------------------- initial condition

  /** The initial-condition rules pin hour 0 to ini_on/ini_mwh and say nothing about any
      other hour: they hold exactly when hour 0 carries the initial state. */
  lemma InitialConditionsExactlyHourZero(p: Window, a: Assignment)
    ensures InitialConditions(p, a) <==>
      forall j | j in Generators(p) :: a.on(j, 0) == p.iniOn(j) && a.mwh(j, 0) == p.iniMwh(j)
  {
    if InitialConditions(p, a) {
      forall j | j in Generators(p) ensures a.on(j, 0) == p.iniOn(j) && a.mwh(j, 0) == p.iniMwh(j) {
        assert MwhConInitial(p, a, j, 0) && OnConInitial(p, a, j, 0);
      }
    }
  }

  /** In a feasible assignment hour 0 is the initial state; since on is binary, a window
      whose ini_on is not 0 or 1 (ini_on is declared a non-negative real) has none. */
  lemma HourZeroPinned(p: Window, a: Assignment, j: string)
    requires Feasible(p, a) && j in Generators(p)
    ensures a.on(j, 0) == p.iniOn(j) && a.mwh(j, 0) == p.iniMwh(j)
    ensures Binary(p.iniOn(j)) && p.iniMwh(j) >= 0.0
  {
    assert MwhConInitial(p, a, j, 0) && OnConInitial(p, a, j, 0);
  }

  // ---------------------------------------------------------------- start indicator

  /** With binary on/switch and any big-M m >= 1, the three switch rules of hour i hold
      exactly when switch marks an off-to-on transition. */
  lemma StartLogicExact(p: Window, a: Assignment, j: string, i: Hour)
    requires 1 <= i && p.m >= 1.0
    requires Binary(a.on(j, i - 1)) && Binary(a.on(j, i)) && Binary(a.switch(j, i))
    ensures SwitchCon2(p, a, j, i) && SwitchCon3(p, a, j, i) && SwitchCon4(p, a, j, i) <==>
      (a.switch(j, i) == 1.0 <==> a.on(j, i - 1) == 0.0 && a.on(j, i) == 1.0)
  {
  }

  /** In a feasible assignment switch[j,i] is 1 exactly at the hours where the unit goes
      from off to on. */
  lemma StartIndicator(p: Window, a: Assignment, j: string, i: Hour)
    requires Feasible(p, a) && j in Generators(p) && 1 <= i <= p.horizonHours
    ensures a.switch(j, i) == 1.0 <==> a.on(j, i - 1) == 0.0 && a.on(j, i) == 1.0
  {
    assert SwitchCon2(p, a, j, i) && SwitchCon3(p, a, j, i) && SwitchCon4(p, a, j, i);
    assert Binary(a.on(j, i - 1)) && Binary(a.on(j, i)) && Binary(a.switch(j, i));
  }

  // ---------------------------------------------------------------- minimum up / down time

  /** A start at hour i keeps the unit on through hour min(i+minup-1, H). */
  ghost predicate StaysOnAfterStart(p: Window, a: Assignment, j: string)
  {
    forall i: Hour, k: Hour | 1 <= i && i < k <= Min(i + p.unit(j).minup - 1, p.horizonHours) ::
      a.on(j, i - 1) == 0.0 && a.on(j, i) == 1.0 ==> a.on(j, k) == 1.0
  }

  /** A shutdown at hour i keeps the unit off through hour min(i+mindn-1, H). */
  ghost predicate StaysOffAfterStop(p: Window, a: Assignment, j: string)
  {
    forall i: Hour, k: Hour | 1 <= i && i < k <= Min(i + p.unit(j).mindn - 1, p.horizonHours) ::
      a.on(j, i - 1) == 1.0 && a.on(j, i) == 0.0 ==> a.on(j, k) == 0.0
  }

  ghost predicate BinaryOn(p: Window, a: Assignment, j: string)
  {
    forall i: Hour | i <= p.horizonHours :: Binary(a.on(j, i))
  }

  /** On binary values, on_i − on_{i−1} ≤ on_k says: a start at i means on at k. */
  lemma StartRuleBinary(before: real, now: real, later: real)
    requires Binary(before) && Binary(now) && Binary(later)
    ensures (now - before <= later) <==> (before == 0.0 && now == 1.0 ==> later == 1.0)
  {
  }

  /** On binary values, on_{i−1} − on_i ≤ 1 − on_k says: a stop at i means off at k. */
  lemma StopRuleBinary(before: real, now: real, later: real)
    requires Binary(before) && Binary(now) && Binary(later)
    ensures (before - now <= 1.0 - later) <==> (before == 1.0 && now == 0.0 ==> later == 0.0)
  {
  }

  /** For a binary commitment trajectory the MinimumUp rules of unit j are exactly the
      statement that a start keeps the unit on for the truncated lookahead. */
  lemma MinUpExact(p: Window, a: Assignment, j: string)
    requires BinaryOn(p, a, j)
    ensures (forall i: Hour, k: Hour | i <= p.horizonHours && k <= p.horizonHours :: MinUp(p, a, j, i, k))
      <==> StaysOnAfterStart(p, a, j)
  {
    if forall i: Hour, k: Hour | i <= p.horizonHours && k <= p.horizonHours :: MinUp(p, a, j, i, k) {
      forall i: Hour, k: Hour | 1 <= i && i < k <= Min(i + p.unit(j).minup - 1, p.horizonHours)
        ensures a.on(j, i - 1) == 0.0 && a.on(j, i) == 1.0 ==> a.on(j, k) == 1.0
      {
        assert MinUp(p, a, j, i, k);
        StartRuleBinary(a.on(j, i - 1), a.on(j, i), a.on(j, k));
      }
    }
    if StaysOnAfterStart(p, a, j) {
      forall i: Hour, k: Hour | i <= p.horizonHours && k <= p.horizonHours
        ensures MinUp(p, a, j, i, k)
      {
        if i > 0 && k > i && k <= Min(i + p.unit(j).minup - 1, p.horizonHours) {
          StartRuleBinary(a.on(j, i - 1), a.on(j, i), a.on(j, k));
        }
      }
    }
  }

  /** The same for the MinimumDown rules and a shutdown. */
  lemma MinDownExact(p: Window, a: Assignment, j: string)
    requires BinaryOn(p, a, j)
    ensures (forall i: Hour, k: Hour | i <= p.horizonHours && k <= p.horizonHours :: MinDown(p, a, j, i, k))
      <==> StaysOffAfterStop(p, a, j)
  {
    if forall i: Hour, k: Hour | i <= p.horizonHours && k <= p.horizonHours :: MinDown(p, a, j, i, k) {
      forall i: Hour, k: Hour | 1 <= i && i < k <= Min(i + p.unit(j).mindn - 1, p.horizonHours)
        ensures a.on(j, i - 1) == 1.0 && a.on(j, i) == 0.0 ==> a.on(j, k) == 0.0
      {
        assert MinDown(p, a, j, i, k);
        StopRuleBinary(a.on(j, i - 1), a.on(j, i), a.on(j, k));
      }
    }
    if StaysOffAfterStop(p, a, j) {
      forall i: Hour, k: Hour | i <= p.horizonHours && k <= p.horizonHours
        ensures MinDown(p, a, j, i, k)
      {
        if i > 0 && k > i && k <= Min(i + p.unit(j).mindn - 1, p.horizonHours) {
          StopRuleBinary(a.on(j, i - 1), a.on(j, i), a.on(j, k));
        }
      }
    }
  }

  /** In a feasible assignment a unit that starts at hour i stays on through
      min(i+minup-1, H) and a unit that stops stays off through min(i+mindn-1, H). */
  lemma MinUpDownTimes(p: Window, a: Assignment, j: string)
    requires Feasible(p, a) && j in Generators(p)
    ensures StaysOnAfterStart(p, a, j) && StaysOffAfterStop(p, a, j)
  {
    assert BinaryOn(p, a, j);
    assert forall i: Hour, k: Hour | i <= p.horizonHours && k <= p.horizonHours :: MinUp(p, a, j, i, k);
    assert forall i: Hour, k: Hour | i <= p.horizonHours && k <= p.horizonHours :: MinDown(p, a, j, i, k);
    MinUpExact(p, a, j);
    MinDownExact(p, a, j);
  }

  // ---------------------------------------------------------------- ramping

  /** Ramp limits, in the uniform form: because hour 0 holds ini_mwh, the special case
      of hour 1 compares with mwh[j,0] like every other hour. */
  lemma RampLimit(p: Window, a: Assignment, j: string, i: Hour)
    requires Feasible(p, a) && j in Generators(p) && 1 <= i <= p.horizonHours
    ensures RampBase(p, a, j, i) == a.mwh(j, i - 1)
    ensures -p.unit(j).ramp <= a.mwh(j, i) - a.mwh(j, i - 1) <= p.unit(j).ramp
  {
    assert MwhConInitial(p, a, j, 0);
    assert Ramp1(p, a, j, i) && Ramp2(p, a, j, i);
  }

  // ---------------------------------------------------------------- capacity and reserves per unit

  /** An off unit produces nothing and offers no spinning reserve; its non-spinning
      offer is bounded by its derated capacity. */
  lemma OffUnitIdle(p: Window, a: Assignment, j: string, i: Hour)
    requires Feasible(p, a) && j in Generators(p) && 1 <= i <= p.horizonHours
    requires a.on(j, i) == 0.0
    ensures a.mwh(j, i) == 0.0 && a.srsv(j, i) == 0.0
    ensures 0.0 <= a.nrsv(j, i) <= Available(p, j, i)
  {
    assert MaxC(p, a, j, i) && SpinningReq2(p, a, j, i) && NonSpinningReq(p, a, j, i);
  }

  /** An on unit runs between mincap and its derated capacity, shares that capacity with
      its spinning reserve, and offers no non-spinning reserve. */
  lemma OnUnitWithinLimits(p: Window, a: Assignment, j: string, i: Hour)
    requires Feasible(p, a) && j in Generators(p) && 1 <= i <= p.horizonHours
    requires a.on(j, i) == 1.0
    ensures p.unit(j).mincap <= a.mwh(j, i) <= Available(p, j, i)
    ensures a.mwh(j, i) + a.srsv(j, i) <= Available(p, j, i)
    ensures a.nrsv(j, i) == 0.0
  {
    assert MaxC(p, a, j, i) && MinC(p, a, j, i) && NonSpinningReq(p, a, j, i) && ZeroSum(p, a, j, i);
  }

  /** Output and both reserve offers together never exceed the derated capacity. */
  lemma CapacityShared(p: Window, a: Assignment, j: string, i: Hour)
    requires Feasible(p, a) && j in Generators(p) && 1 <= i <= p.horizonHours
    ensures a.mwh(j, i) + a.srsv(j, i) + a.nrsv(j, i) <= Available(p, j, i)
    ensures a.srsv(j, i) <= a.on(j, i) * Available(p, j, i)
    ensures a.nrsv(j, i) <= (1.0 - a.on(j, i)) * Available(p, j, i)
  {
    assert ZeroSum(p, a, j, i) && SpinningReq2(p, a, j, i) && NonSpinningReq(p, a, j, i);
  }

  // ---------------------------------------------------------------- system reserves

  /** ResGenerators has exactly the members of the four fuel sets, each once. */
  lemma ResGeneratorsIsUnion(p: Window)
    ensures forall j :: j in ResGenerators(p) <==>
      j in p.gas || j in p.slack || j in p.geothermal || j in p.hydrogen
    ensures Distinct(p.gas) && Distinct(p.slack) && Distinct(p.geothermal) && Distinct(p.hydrogen)
      ==> Distinct(ResGenerators(p))
  {
  }

  /** A positive reserve requirement is met only if some reserve-eligible unit offers
      spinning or non-spinning reserve in that hour. */
  lemma ReserveHasProvider(p: Window, a: Assignment, i: Hour) returns (j: string)
    requires Feasible(p, a) && 1 <= i <= p.horizonHours && p.reserves(i) > 0.0
    ensures j in ResGenerators(p) && (a.srsv(j, i) > 0.0 || a.nrsv(j, i) > 0.0)
  {
    assert SysReserve(p, a, i);
    if SpinningTotal(p, a, i) > 0.0 {
      j := SumPositiveWitness(ResGenerators(p), SpinningOffer(a, i));
    } else {
      j := SumPositiveWitness(ResGenerators(p), NonSpinningOffer(a, i));
    }
  }

  /** The fuel sets are sets of units of the window. */
  ghost predicate FuelSetsWithinGenerators(p: Window)
  {
    forall j | j in p.gas || j in p.slack || j in p.geothermal || j in p.hydrogen :: j in Generators(p)
  }

  /** The set data Pyomo builds a window from: every unit set and node set holds each
      member once, no demand node is listed twice, and the reserve-eligible units are
      units of the window, so that srsv/nrsv exist for them. */
  ghost predicate WellFormedWindow(p: Window)
  {
    && (forall n | 0 <= n < |p.gd| :: Distinct(p.gd[n].gens))
    && (forall n, n' | 0 <= n < n' < |p.gd| :: p.gd[n].node != p.gd[n'].node)
    && Distinct(p.gas) && Distinct(p.slack) && Distinct(p.geothermal) && Distinct(p.hydrogen)
    && Distinct(p.sources) && Distinct(p.sinks)
    && Distinct(p.hNodes) && Distinct(p.sNodes) && Distinct(p.tdNodes) && Distinct(p.tnNodes)
    && FuelSetsWithinGenerators(p)
  }

  /** In a well-formed window Generators and ResGenerators are sets, and the second is
      part of the first. */
  lemma WellFormedSets(p: Window)
    requires WellFormedWindow(p)
    ensures Distinct(Generators(p)) && Distinct(ResGenerators(p))
    ensures forall j :: j in ResGenerators(p) ==> j in Generators(p)
  {
    var ss := seq(|p.gd|, n requires 0 <= n < |p.gd| => p.gd[n].gens);
    assert forall k :: 0 <= k < |ss| ==> Distinct(ss[k]);
    UnionAllDistinct(ss);
    ResGeneratorsIsUnion(p);
  }

  /** In a well-formed window every reserve total counts units whose reserves the unit
      rules bound: output and both reserves share the derated capacity. */
  lemma ReserveUnitsShareCapacity(p: Window, a: Assignment, j: string, i: Hour)
    requires Feasible(p, a) && WellFormedWindow(p) && j in ResGenerators(p) && 1 <= i <= p.horizonHours
    ensures 0.0 <= a.srsv(j, i) && 0.0 <= a.nrsv(j, i)
    ensures a.mwh(j, i) + a.srsv(j, i) + a.nrsv(j, i) <= Available(p, j, i)
  {
    WellFormedSets(p);
    assert j in Generators(p);
    assert ZeroSum(p, a, j, i);
  }

  /** A positive spinning requirement spin_margin·reserve forces some reserve-eligible
      unit to be committed and offering spinning reserve. */
  lemma SpinningNeedsCommittedUnit(p: Window, a: Assignment, i: Hour) returns (j: string)
    requires Feasible(p, a) && FuelSetsWithinGenerators(p) && 1 <= i <= p.horizonHours
    requires p.spinMargin * p.reserves(i) > 0.0
    ensures j in ResGenerators(p) && a.on(j, i) == 1.0 && a.srsv(j, i) > 0.0
  {
    assert SpinningReq(p, a, i);
    PositiveSpinningTotal(p, a, i);
    j := SumPositiveWitness(ResGenerators(p), SpinningOffer(a, i));
    ResGeneratorsIsUnion(p);
    assert j in Generators(p);
    assert SpinningReq2(p, a, j, i) && Binary(a.on(j, i));
    SpinningOnlyWhenOn(p, a, j, i);
  }

  /** A met positive spinning requirement means a positive spinning total. */
  lemma PositiveSpinningTotal(p: Window, a: Assignment, i: Hour)
    requires SpinningReq(p, a, i) && p.spinMargin * p.reserves(i) > 0.0
    ensures SpinningTotal(p, a, i) > 0.0
  {
    CoversPositiveNeed(SpinningTotal(p, a, i), p.spinMargin, p.reserves(i));
  }

  /** An amount that covers a positive requirement margin·reserve is positive. */
  lemma CoversPositiveNeed(total: real, margin: real, reserve: real)
    requires total >= margin * reserve && margin * reserve > 0.0
    ensures total > 0.0
  {
  }

  lemma SpinningOnlyWhenOn(p: Window, a: Assignment, j: string, i: Hour)
    requires SpinningReq2(p, a, j, i) && Binary(a.on(j, i)) && a.srsv(j, i) > 0.0
    ensures a.on(j, i) == 1.0
  {
  }

  // ---------------------------------------------------------------- network and renewables

  /** The flow on every ordered pair with a positive limit stays within ±n1criterion·limit. */
  lemma LineLimit(p: Window, a: Assignment, s: string, k: string, i: Hour)
    requires Feasible(p, a) && s in p.sources && k in p.sinks && 1 <= i <= p.horizonHours
    requires p.linemva(s, k) > 0.0
    ensures -p.n1criterion * p.linemva(s, k)
      <= p.linesus(s, k) * (a.vltAngle(s, i) - a.vltAngle(k, i))
      <= p.n1criterion * p.linemva(s, k)
  {
    assert MaxLine(p, a, s, k, i) && MinLine(p, a, s, k, i);
  }

  /** A pair without a positive limit gets no line constraint at all. */
  lemma UnconnectedPairExempt(p: Window, a: Assignment, s: string, k: string, i: Hour)
    requires p.linemva(s, k) <= 0.0
    ensures MaxLine(p, a, s, k, i) && MinLine(p, a, s, k, i)
  {
  }

  /** The reference node has angle 0 in every free hour. */
  lemma ReferenceAngle(p: Window, a: Assignment, i: Hour)
    requires Feasible(p, a) && 1 <= i <= p.horizonHours
    ensures a.vltAngle(p.refNode, i) == 0.0
  {
    assert RefNode(p, a, i);
  }

  /** Hydro dispatch stays within the hour's availability; none is available, none is dispatched. */
  lemma HydroCeiling(p: Window, a: Assignment, z: string, i: Hour)
    requires Feasible(p, a) && z in p.hNodes && 1 <= i <= p.horizonHours
    ensures 0.0 <= a.hydro(z, i) <= p.hydroAvail(z, i)
    ensures p.hydroAvail(z, i) == 0.0 ==> a.hydro(z, i) == 0.0
  {
    assert HydroC(p, a, z, i);
  }

  /** Solar dispatch stays within the hour's availability; none is available, none is dispatched. */
  lemma SolarCeiling(p: Window, a: Assignment, z: string, i: Hour)
    requires Feasible(p, a) && z in p.sNodes && 1 <= i <= p.horizonHours
    ensures 0.0 <= a.solar(z, i) <= p.solarAvail(z, i)
    ensures p.solarAvail(z, i) == 0.0 ==> a.solar(z, i) == 0.0
  {
    assert SolarC(p, a, z, i);
  }
}
