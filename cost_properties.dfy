/** Properties of the objective SysCost: it is never negative when the cost data are
    not, it charges each reserve-eligible unit's energy exactly once when the fuel sets
    are disjoint, and like feasibility it only sees hours 1..H. */
module CostProperties {
  import opened Sums
  import opened OrderedSets
  import opened UnitCommitment
  import opened CommitmentProperties
  import opened WindowScope

  lemma HoursAreWindow(p: Window)
    ensures forall i :: i in Hours(p) <==> 1 <= i <= p.horizonHours
  {
    forall i | 1 <= i <= p.horizonHours ensures i in Hours(p) {
      assert Hours(p)[i - 1] == i;
    }
  }

  /** Capacities, O&M rates, start-up costs and energy prices of the units are not negative. */
  ghost predicate NonnegativeCostData(p: Window)
  {
    forall j | j in Generators(p) ::
      && p.unit(j).maxcap >= 0.0
      && p.unit(j).fixOm >= 0.0
      && p.unit(j).stCost >= 0.0
      && EnergyPrice(p.unit(j)) >= 0.0
  }

  lemma MulNonneg(x: real, y: real)
    requires x >= 0.0 && y >= 0.0
    ensures x * y >= 0.0
  {
  }

  /** The three cost terms of one unit in one hour are non-negative. */
  lemma UnitTermsAtNonneg(p: Window, a: Assignment, j: string, i: Hour)
    requires Domains(p, a) && NonnegativeCostData(p) && j in Generators(p) && i <= p.horizonHours
    ensures FixedTerm(p, a, i)(j) >= 0.0 && StartTerm(p, a, i)(j) >= 0.0 && EnergyTerm(p, a, i)(j) >= 0.0
  {
    UnitTermsNonneg(p.unit(j), a.on(j, i), a.switch(j, i), a.mwh(j, i));
  }

  lemma UnitTermsNonneg(u: Unit, on: real, switch: real, mwh: real)
    requires u.maxcap >= 0.0 && u.fixOm >= 0.0 && u.stCost >= 0.0 && EnergyPrice(u) >= 0.0
    requires on >= 0.0 && switch >= 0.0 && mwh >= 0.0
    ensures u.maxcap * u.fixOm * on >= 0.0 && u.maxcap * u.stCost * switch >= 0.0
    ensures mwh * EnergyPrice(u) >= 0.0
  {
    MulNonneg(u.maxcap, u.fixOm);
    MulNonneg(u.maxcap * u.fixOm, on);
    MulNonneg(u.maxcap, u.stCost);
    MulNonneg(u.maxcap * u.stCost, switch);
    MulNonneg(mwh, EnergyPrice(u));
  }

  lemma FixedCostAtNonneg(p: Window, a: Assignment, i: Hour)
    requires Domains(p, a) && NonnegativeCostData(p) && 1 <= i <= p.horizonHours
    ensures FixedCostAt(p, a, i) >= 0.0
  {
    forall j | j in Generators(p) ensures FixedTerm(p, a, i)(j) >= 0.0 {
      UnitTermsAtNonneg(p, a, j, i);
    }
    SumNonneg(Generators(p), FixedTerm(p, a, i));
  }

  lemma StartCostAtNonneg(p: Window, a: Assignment, i: Hour)
    requires Domains(p, a) && NonnegativeCostData(p) && 1 <= i <= p.horizonHours
    ensures StartCostAt(p, a, i) >= 0.0
  {
    forall j | j in Generators(p) ensures StartTerm(p, a, i)(j) >= 0.0 {
      UnitTermsAtNonneg(p, a, j, i);
    }
    SumNonneg(Generators(p), StartTerm(p, a, i));
  }

  lemma FuelCostAtNonneg(p: Window, a: Assignment, fuel: seq<string>, i: Hour)
    requires Domains(p, a) && NonnegativeCostData(p) && 1 <= i <= p.horizonHours
    requires forall j :: j in fuel ==> j in Generators(p)
    ensures FuelCostAt(p, a, fuel, i) >= 0.0
  {
    forall j | j in fuel ensures EnergyTerm(p, a, i)(j) >= 0.0 {
      UnitTermsAtNonneg(p, a, j, i);
    }
    SumNonneg(fuel, EnergyTerm(p, a, i));
  }

  lemma HourlyCostsNonneg(p: Window, a: Assignment, i: Hour)
    requires Domains(p, a) && NonnegativeCostData(p) && FuelSetsWithinGenerators(p)
    requires 1 <= i <= p.horizonHours
    ensures FixedCostAt(p, a, i) >= 0.0 && StartCostAt(p, a, i) >= 0.0
    ensures FuelCostAt(p, a, p.gas, i) >= 0.0 && FuelCostAt(p, a, p.slack, i) >= 0.0
    ensures FuelCostAt(p, a, p.geothermal, i) >= 0.0 && FuelCostAt(p, a, p.hydrogen, i) >= 0.0
  {
    FixedCostAtNonneg(p, a, i);
    StartCostAtNonneg(p, a, i);
    FuelCostAtNonneg(p, a, p.gas, i);
    FuelCostAtNonneg(p, a, p.slack, i);
    FuelCostAtNonneg(p, a, p.geothermal, i);
    FuelCostAtNonneg(p, a, p.hydrogen, i);
  }

  /** With non-negative cost data every schedule within the variable domains has a
      non-negative system cost. */
  lemma SysCostNonneg(p: Window, a: Assignment)
    requires Domains(p, a) && NonnegativeCostData(p) && FuelSetsWithinGenerators(p)
    ensures SysCost(p, a) >= 0.0
  {
    HoursAreWindow(p);
    forall i | i in Hours(p)
      ensures FixedCostByHour(p, a)(i) >= 0.0 && StartCostByHour(p, a)(i) >= 0.0
      ensures FuelCostByHour(p, a, p.gas)(i) >= 0.0 && FuelCostByHour(p, a, p.slack)(i) >= 0.0
      ensures FuelCostByHour(p, a, p.geothermal)(i) >= 0.0 && FuelCostByHour(p, a, p.hydrogen)(i) >= 0.0
    {
      HourlyCostsNonneg(p, a, i);
    }
    SumNonneg(Hours(p), FixedCostByHour(p, a));
    SumNonneg(Hours(p), StartCostByHour(p, a));
    SumNonneg(Hours(p), FuelCostByHour(p, a, p.gas));
    SumNonneg(Hours(p), FuelCostByHour(p, a, p.slack));
    SumNonneg(Hours(p), FuelCostByHour(p, a, p.geothermal));
    SumNonneg(Hours(p), FuelCostByHour(p, a, p.hydrogen));
  }

  lemma FixedCostAgrees(p: Window, a: Assignment, b: Assignment)
    requires AgreeOnFreeHours(p, a, b)
    ensures FixedCost(p, a) == FixedCost(p, b)
  {
    HoursAreWindow(p);
    forall i | i in Hours(p) ensures FixedCostByHour(p, a)(i) == FixedCostByHour(p, b)(i) {
      SumExt(Generators(p), FixedTerm(p, a, i), FixedTerm(p, b, i));
    }
    SumExt(Hours(p), FixedCostByHour(p, a), FixedCostByHour(p, b));
  }

  lemma StartCostAgrees(p: Window, a: Assignment, b: Assignment)
    requires AgreeOnFreeHours(p, a, b)
    ensures StartCost(p, a) == StartCost(p, b)
  {
    HoursAreWindow(p);
    forall i | i in Hours(p) ensures StartCostByHour(p, a)(i) == StartCostByHour(p, b)(i) {
      SumExt(Generators(p), StartTerm(p, a, i), StartTerm(p, b, i));
    }
    SumExt(Hours(p), StartCostByHour(p, a), StartCostByHour(p, b));
  }

  lemma FuelCostAgrees(p: Window, a: Assignment, b: Assignment, fuel: seq<string>)
    requires AgreeOnFreeHours(p, a, b)
    ensures FuelCost(p, a, fuel) == FuelCost(p, b, fuel)
  {
    HoursAreWindow(p);
    forall i | i in Hours(p) ensures FuelCostByHour(p, a, fuel)(i) == FuelCostByHour(p, b, fuel)(i) {
      SumExt(fuel, EnergyTerm(p, a, i), EnergyTerm(p, b, i));
    }
    SumExt(Hours(p), FuelCostByHour(p, a, fuel), FuelCostByHour(p, b, fuel));
  }

  /** The objective only reads hours 1..H: schedules that agree there cost the same,
      whatever they do at hour 0 or after the horizon. */
  lemma SysCostDependsOnlyOnWindow(p: Window, a: Assignment, b: Assignment)
    requires AgreeOnFreeHours(p, a, b)
    ensures SysCost(p, a) == SysCost(p, b)
  {
    FixedCostAgrees(p, a, b);
    StartCostAgrees(p, a, b);
    FuelCostAgrees(p, a, b, p.gas);
    FuelCostAgrees(p, a, b, p.slack);
    FuelCostAgrees(p, a, b, p.geothermal);
    FuelCostAgrees(p, a, b, p.hydrogen);
  }

  /** No unit belongs to two of the fuel sets. */
  ghost predicate DisjointFuelSets(p: Window)
  {
    && (forall j | j in p.gas :: j !in p.slack && j !in p.geothermal && j !in p.hydrogen)
    && (forall j | j in p.slack :: j !in p.geothermal && j !in p.hydrogen)
    && (forall j | j in p.geothermal :: j !in p.hydrogen)
  }

  lemma FuelCostAtUnion(p: Window, a: Assignment, x: seq<string>, y: seq<string>, i: Hour)
    requires forall j :: j in y ==> j !in x
    ensures FuelCostAt(p, a, Union(x, y), i) == FuelCostAt(p, a, x, i) + FuelCostAt(p, a, y, i)
  {
    WithoutDisjoint(y, x);
    SumAppend(x, y, EnergyTerm(p, a, i));
  }

  /** When the fuel sets are disjoint, the four energy terms of the objective charge
      every reserve-eligible unit exactly once: together they are the energy cost of
      ResGenerators. */
  lemma EnergyCostOfReserveUnits(p: Window, a: Assignment)
    requires DisjointFuelSets(p)
    ensures FuelCost(p, a, p.gas) + FuelCost(p, a, p.slack)
          + FuelCost(p, a, p.geothermal) + FuelCost(p, a, p.hydrogen)
         == FuelCost(p, a, ResGenerators(p))
  {
    var gs := Union(p.gas, p.slack);
    var gsg := Union(gs, p.geothermal);
    var Gas, Slack, Geo, Hyd := FuelCostByHour(p, a, p.gas), FuelCostByHour(p, a, p.slack),
                                FuelCostByHour(p, a, p.geothermal), FuelCostByHour(p, a, p.hydrogen);
    var GasSlack := (i: Hour) => Gas(i) + Slack(i);
    var GasSlackGeo := (i: Hour) => GasSlack(i) + Geo(i);
    forall i ensures FuelCostByHour(p, a, ResGenerators(p))(i) == GasSlackGeo(i) + Hyd(i) {
      FuelCostAtUnion(p, a, p.gas, p.slack, i);
      FuelCostAtUnion(p, a, gs, p.geothermal, i);
      FuelCostAtUnion(p, a, gsg, p.hydrogen, i);
    }
    var H := Hours(p);
    SumAdd(H, Gas, Slack, GasSlack);
    SumAdd(H, GasSlack, Geo, GasSlackGeo);
    SumAdd(H, GasSlackGeo, Hyd, FuelCostByHour(p, a, ResGenerators(p)));
  }
}
