/** One planning window of the unit-commitment / optimal-power-flow formulation: its
    parameters, a candidate assignment of every decision variable, one predicate per
    constraint rule (with the rule's own index guard; a guard that fails is the rule's
    `Constraint.Skip`), the conjunction `Feasible`, and the objective `SysCost`.
    Hours 0..H form the window; hour 0 only carries the initial condition. */
module UnitCommitment {
  import opened Sums
  import opened OrderedSets

  type Hour = nat

  /** Static parameters of one dispatchable unit. */
  datatype Unit = Unit(
    typ: string,
    node: string,
    maxcap: real,
    mincap: real,
    heatRate: real,
    varOm: real,
    fixOm: real,
    stCost: real,
    ramp: real,
    minup: int,
    mindn: int,
    genCost: real)

  /** A dispatchable node with demand together with its set of units: the n-th entry
      pairs the n-th name of the hard-coded demand-node list with the set GD<n>Gens. */
  datatype GenNode = GenNode(node: string, gens: seq<string>)

  /** Everything a window is built from. Indexed parameters are total functions; the
      rules only read them inside the index sets they are declared on. */
  datatype Window = Window(
    gd: seq<GenNode>,
    gas: seq<string>,
    slack: seq<string>,
    geothermal: seq<string>,
    hydrogen: seq<string>,
    sources: seq<string>,
    sinks: seq<string>,
    hNodes: seq<string>,
    sNodes: seq<string>,
    tdNodes: seq<string>,
    tnNodes: seq<string>,
    unit: string -> Unit,
    linemva: (string, string) -> real,
    linesus: (string, string) -> real,
    transLoss: real,
    n1criterion: real,
    spinMargin: real,
    m: real,
    horizonHours: nat,
    demand: (string, Hour) -> real,
    reserves: Hour -> real,
    hydroAvail: (string, Hour) -> real,
    solarAvail: (string, Hour) -> real,
    deratef: (string, Hour) -> real,
    iniOn: string -> real,
    iniMwh: string -> real,
    refNode: string)

  /** A value for every decision variable at every index. */
  datatype Assignment = Assignment(
    mwh: (string, Hour) -> real,
    on: (string, Hour) -> real,
    switch: (string, Hour) -> real,
    srsv: (string, Hour) -> real,
    nrsv: (string, Hour) -> real,
    hydro: (string, Hour) -> real,
    solar: (string, Hour) -> real,
    vltAngle: (string, Hour) -> real)

  function Min(x: int, y: int): int { if x <= y then x else y }

  predicate Binary(v: real) { v == 0.0 || v == 1.0 }

  /** hh_periods as an ordered set. */
  function Hours(p: Window): seq<Hour>
  {
    seq(p.horizonHours, k requires 0 <= k < p.horizonHours => k + 1)
  }

  /** Generators = GD1Gens | GD2Gens | ... */
  function Generators(p: Window): seq<string>
  {
    UnionAll(seq(|p.gd|, n requires 0 <= n < |p.gd| => p.gd[n].gens))
  }

  /** ResGenerators = Gas | Slack | Geothermal | Hydrogen */
  function ResGenerators(p: Window): seq<string>
  {
    Union(Union(Union(p.gas, p.slack), p.geothermal), p.hydrogen)
  }

  // ---------------------------------------------------------------- variable domains

  /** Var domains: NonNegativeReals for mwh, srsv, nrsv, hydro, solar; Binary for on and
      switch; vlt_angle is free. Declared over every hour 0..H. */
  predicate Domains(p: Window, a: Assignment)
  {
    && (forall j, i: Hour | j in Generators(p) && i <= p.horizonHours ::
          a.mwh(j, i) >= 0.0 && a.srsv(j, i) >= 0.0 && a.nrsv(j, i) >= 0.0)
    && (forall j, i: Hour | j in Generators(p) && i <= p.horizonHours ::
          Binary(a.on(j, i)) && Binary(a.switch(j, i)))
    && (forall z, i: Hour | z in p.hNodes && i <= p.horizonHours :: a.hydro(z, i) >= 0.0)
    && (forall z, i: Hour | z in p.sNodes && i <= p.horizonHours :: a.solar(z, i) >= 0.0)
  }

  // ---------------------------------------------------------------- commitment logic

  predicate MwhConInitial(p: Window, a: Assignment, j: string, i: Hour)
  {
    i == 0 ==> a.mwh(j, i) == p.iniMwh(j)
  }

  predicate OnConInitial(p: Window, a: Assignment, j: string, i: Hour)
  {
    i == 0 ==> a.on(j, i) == p.iniOn(j)
  }

  predicate SwitchCon2(p: Window, a: Assignment, j: string, i: Hour)
  {
    a.switch(j, i) <= a.on(j, i) * p.m
  }

  predicate SwitchCon3(p: Window, a: Assignment, j: string, i: Hour)
    requires i >= 1
  {
    a.switch(j, i) <= (1.0 - a.on(j, i - 1)) * p.m
  }

  predicate SwitchCon4(p: Window, a: Assignment, j: string, i: Hour)
    requires i >= 1
  {
    a.on(j, i) - a.on(j, i - 1) <= a.switch(j, i)
  }

  predicate MinUp(p: Window, a: Assignment, j: string, i: Hour, k: Hour)
  {
    i > 0 && k > i && k <= Min(i + p.unit(j).minup - 1, p.horizonHours) ==>
      a.on(j, i) - a.on(j, i - 1) <= a.on(j, k)
  }

  predicate MinDown(p: Window, a: Assignment, j: string, i: Hour, k: Hour)
  {
    i > 0 && k > i && k <= Min(i + p.unit(j).mindn - 1, p.horizonHours) ==>
      a.on(j, i - 1) - a.on(j, i) <= 1.0 - a.on(j, k)
  }

  /** The output the ramp rules compare hour i with: the initial output for hour 1. */
  function RampBase(p: Window, a: Assignment, j: string, i: Hour): real
    requires i >= 1
  {
    if i == 1 then p.iniMwh(j) else a.mwh(j, i - 1)
  }

  predicate Ramp1(p: Window, a: Assignment, j: string, i: Hour)
    requires i >= 1
  {
    a.mwh(j, i) - RampBase(p, a, j, i) <= p.unit(j).ramp
  }

  predicate Ramp2(p: Window, a: Assignment, j: string, i: Hour)
    requires i >= 1
  {
    RampBase(p, a, j, i) - a.mwh(j, i) <= p.unit(j).ramp
  }

  // ---------------------------------------------------------------- capacity

  /** Derated capacity maxcap·HorizonDeratef of unit j in hour i. */
  function Available(p: Window, j: string, i: Hour): real
  {
    p.unit(j).maxcap * p.deratef(j, i)
  }

  predicate MaxC(p: Window, a: Assignment, j: string, i: Hour)
  {
    a.mwh(j, i) <= a.on(j, i) * p.unit(j).maxcap * p.deratef(j, i)
  }

  predicate MinC(p: Window, a: Assignment, j: string, i: Hour)
  {
    a.mwh(j, i) >= a.on(j, i) * p.unit(j).mincap
  }

  predicate HydroC(p: Window, a: Assignment, z: string, i: Hour)
  {
    a.hydro(z, i) <= p.hydroAvail(z, i)
  }

  predicate SolarC(p: Window, a: Assignment, z: string, i: Hour)
  {
    a.solar(z, i) <= p.solarAvail(z, i)
  }

  // ---------------------------------------------------------------- nodal balance

  /** Σ over sinks k of linesus[z,k]·(vlt_angle[z,i] − vlt_angle[k,i]). */
  function Flow(p: Window, a: Assignment, z: string, i: Hour): real
  {
    SumOver(p.sinks, k => p.linesus(z, k) * (a.vltAngle(z, i) - a.vltAngle(k, i)))
  }

  predicate TDnodesBalance(p: Window, a: Assignment, z: string, i: Hour)
  {
    -p.demand(z, i) == Flow(p, a, z, i)
  }

  predicate TNnodesBalance(p: Window, a: Assignment, z: string, i: Hour)
  {
    0.0 == Flow(p, a, z, i)
  }

  predicate HPnodesBalance(p: Window, a: Assignment, z: string, i: Hour)
  {
    (1.0 - p.transLoss) * a.hydro(z, i) == Flow(p, a, z, i)
  }

  predicate SolarnodesBalance(p: Window, a: Assignment, z: string, i: Hour)
  {
    (1.0 - p.transLoss) * a.solar(z, i) == Flow(p, a, z, i)
  }

  /** Σ mwh[j,i] over the units of the n-th dispatchable demand node. */
  function Thermo(p: Window, a: Assignment, n: nat, i: Hour): real
    requires n < |p.gd|
  {
    SumOver(p.gd[n].gens, MwhAt(a, i))
  }

  /** mwh[., i] as a function of the unit. */
  function MwhAt(a: Assignment, i: Hour): string -> real
  {
    j => a.mwh(j, i)
  }

  /** GD<n+1>_Balance. */
  predicate GDBalance(p: Window, a: Assignment, n: nat, i: Hour)
    requires n < |p.gd|
  {
    (1.0 - p.transLoss) * Thermo(p, a, n, i) - p.demand(p.gd[n].node, i)
      == Flow(p, a, p.gd[n].node, i)
  }

  // ---------------------------------------------------------------- transmission

  predicate RefNode(p: Window, a: Assignment, i: Hour)
  {
    a.vltAngle(p.refNode, i) == 0.0
  }

  predicate MaxLine(p: Window, a: Assignment, s: string, k: string, i: Hour)
  {
    p.linemva(s, k) > 0.0 ==>
      p.n1criterion * p.linemva(s, k) >= p.linesus(s, k) * (a.vltAngle(s, i) - a.vltAngle(k, i))
  }

  predicate MinLine(p: Window, a: Assignment, s: string, k: string, i: Hour)
  {
    p.linemva(s, k) > 0.0 ==>
      (-p.n1criterion) * p.linemva(s, k) <= p.linesus(s, k) * (a.vltAngle(s, i) - a.vltAngle(k, i))
  }

  // ---------------------------------------------------------------- reserves

  /** The spinning reserve offered in hour i, as a function of the unit. */
  function SpinningOffer(a: Assignment, i: Hour): string -> real
  {
    j => a.srsv(j, i)
  }

  /** The non-spinning reserve offered in hour i, as a function of the unit. */
  function NonSpinningOffer(a: Assignment, i: Hour): string -> real
  {
    j => a.nrsv(j, i)
  }

  function SpinningTotal(p: Window, a: Assignment, i: Hour): real
  {
    SumOver(ResGenerators(p), SpinningOffer(a, i))
  }

  function NonSpinningTotal(p: Window, a: Assignment, i: Hour): real
  {
    SumOver(ResGenerators(p), NonSpinningOffer(a, i))
  }

  predicate SysReserve(p: Window, a: Assignment, i: Hour)
  {
    SpinningTotal(p, a, i) + NonSpinningTotal(p, a, i) >= p.reserves(i)
  }

  predicate SpinningReq(p: Window, a: Assignment, i: Hour)
  {
    SpinningTotal(p, a, i) >= p.spinMargin * p.reserves(i)
  }

  predicate SpinningReq2(p: Window, a: Assignment, j: string, i: Hour)
  {
    a.srsv(j, i) <= a.on(j, i) * p.unit(j).maxcap * p.deratef(j, i)
  }

  predicate NonSpinningReq(p: Window, a: Assignment, j: string, i: Hour)
  {
    a.nrsv(j, i) <= (1.0 - a.on(j, i)) * p.unit(j).maxcap * p.deratef(j, i)
  }

  predicate ZeroSum(p: Window, a: Assignment, j: string, i: Hour)
  {
    a.mwh(j, i) + a.srsv(j, i) + a.nrsv(j, i) <= p.unit(j).maxcap * p.deratef(j, i)
  }

  // ---------------------------------------------------------------- constraint families

  /** initial_mwh_constr and initial_value_constr, over Generators × HH_periods. */
  predicate InitialConditions(p: Window, a: Assignment)
  {
    forall j, i: Hour | j in Generators(p) && i <= p.horizonHours ::
      MwhConInitial(p, a, j, i) && OnConInitial(p, a, j, i)
  }

  /** Switch2/3/4Constraint, over Generators × hh_periods. */
  predicate StartLogic(p: Window, a: Assignment)
  {
    forall j, i: Hour | j in Generators(p) && 1 <= i <= p.horizonHours ::
      SwitchCon2(p, a, j, i) && SwitchCon3(p, a, j, i) && SwitchCon4(p, a, j, i)
  }

  /** MinimumUp and MinimumDown, over Generators × HH_periods × HH_periods. */
  predicate UpDownTimes(p: Window, a: Assignment)
  {
    forall j, i: Hour, k: Hour | j in Generators(p) && i <= p.horizonHours && k <= p.horizonHours ::
      MinUp(p, a, j, i, k) && MinDown(p, a, j, i, k)
  }

  /** RampCon1 and RampCon2, over Generators × hh_periods. */
  predicate Ramping(p: Window, a: Assignment)
  {
    forall j, i: Hour | j in Generators(p) && 1 <= i <= p.horizonHours :: Ramp1(p, a, j, i) && Ramp2(p, a, j, i)
  }

  /** MaxCap and MinCap, over Generators × hh_periods. */
  predicate Capacity(p: Window, a: Assignment)
  {
    forall j, i: Hour | j in Generators(p) && 1 <= i <= p.horizonHours :: MaxC(p, a, j, i) && MinC(p, a, j, i)
  }

  /** HydroConstraint and SolarConstraint, over h_nodes/s_nodes × hh_periods. */
  predicate Renewables(p: Window, a: Assignment)
  {
    && (forall z, i: Hour | z in p.hNodes && 1 <= i <= p.horizonHours :: HydroC(p, a, z, i))
    && (forall z, i: Hour | z in p.sNodes && 1 <= i <= p.horizonHours :: SolarC(p, a, z, i))
  }

  /** Every nodal balance, over its node set × hh_periods. */
  predicate Balances(p: Window, a: Assignment)
  {
    && (forall z, i: Hour | z in p.tdNodes && 1 <= i <= p.horizonHours :: TDnodesBalance(p, a, z, i))
    && (forall z, i: Hour | z in p.tnNodes && 1 <= i <= p.horizonHours :: TNnodesBalance(p, a, z, i))
    && (forall z, i: Hour | z in p.hNodes && 1 <= i <= p.horizonHours :: HPnodesBalance(p, a, z, i))
    && (forall z, i: Hour | z in p.sNodes && 1 <= i <= p.horizonHours :: SolarnodesBalance(p, a, z, i))
    && (forall n: nat, i: Hour | n < |p.gd| && 1 <= i <= p.horizonHours :: GDBalance(p, a, n, i))
  }

  /** Ref_NodeConstraint over hh_periods; Max/MinLineConstraint over sources × sinks × hh_periods. */
  predicate Network(p: Window, a: Assignment)
  {
    && (forall i: Hour | 1 <= i <= p.horizonHours :: RefNode(p, a, i))
    && (forall s, k, i: Hour | s in p.sources && k in p.sinks && 1 <= i <= p.horizonHours ::
          MaxLine(p, a, s, k, i) && MinLine(p, a, s, k, i))
  }

  /** SystemReserve, SpinReq, SpinReq2, NonSpinReq and ZeroSumConstraint. */
  predicate ReserveRules(p: Window, a: Assignment)
  {
    && (forall i: Hour | 1 <= i <= p.horizonHours :: SysReserve(p, a, i) && SpinningReq(p, a, i))
    && (forall j, i: Hour | j in Generators(p) && 1 <= i <= p.horizonHours ::
          SpinningReq2(p, a, j, i) && NonSpinningReq(p, a, j, i) && ZeroSum(p, a, j, i))
  }

  /** The assignment satisfies every variable domain and every constraint of the window. */
  predicate Feasible(p: Window, a: Assignment)
  {
    && Domains(p, a)
    && InitialConditions(p, a)
    && StartLogic(p, a)
    && UpDownTimes(p, a)
    && Ramping(p, a)
    && Capacity(p, a)
    && Renewables(p, a)
    && Balances(p, a)
    && Network(p, a)
    && ReserveRules(p, a)
  }

  // ---------------------------------------------------------------- objective

  /** Fuel and variable O&M cost of one MWh from unit u. */
  function EnergyPrice(u: Unit): real
  {
    u.heatRate * u.genCost + u.varOm
  }

  // Each cost term is a sum over hh_periods of an hourly sum over units; the summands
  // are named so that every statement about a term refers to the same function.

  /** mwh[j,i]·(heat_rate[j]·gen_cost[j] + var_om[j]) as a function of the unit j. */
  function EnergyTerm(p: Window, a: Assignment, i: Hour): string -> real
  {
    j => a.mwh(j, i) * EnergyPrice(p.unit(j))
  }

  /** maxcap[j]·fix_om[j]·on[j,i] as a function of the unit j. */
  function FixedTerm(p: Window, a: Assignment, i: Hour): string -> real
  {
    j => p.unit(j).maxcap * p.unit(j).fixOm * a.on(j, i)
  }

  /** maxcap[j]·st_cost[j]·switch[j,i] as a function of the unit j. */
  function StartTerm(p: Window, a: Assignment, i: Hour): string -> real
  {
    j => p.unit(j).maxcap * p.unit(j).stCost * a.switch(j, i)
  }

  /** Energy cost of one fuel set in hour i. */
  function FuelCostAt(p: Window, a: Assignment, fuel: seq<string>, i: Hour): real
  {
    SumOver(fuel, EnergyTerm(p, a, i))
  }

  /** Fixed O&M of the committed units in hour i. */
  function FixedCostAt(p: Window, a: Assignment, i: Hour): real
  {
    SumOver(Generators(p), FixedTerm(p, a, i))
  }

  /** Start-up cost in hour i. */
  function StartCostAt(p: Window, a: Assignment, i: Hour): real
  {
    SumOver(Generators(p), StartTerm(p, a, i))
  }

  /** Hourly energy cost of one fuel set, as a function of the hour. */
  function FuelCostByHour(p: Window, a: Assignment, fuel: seq<string>): Hour -> real
  {
    (i: Hour) => FuelCostAt(p, a, fuel, i)
  }

  function FixedCostByHour(p: Window, a: Assignment): Hour -> real
  {
    (i: Hour) => FixedCostAt(p, a, i)
  }

  function StartCostByHour(p: Window, a: Assignment): Hour -> real
  {
    (i: Hour) => StartCostAt(p, a, i)
  }

  /** Σ over hh_periods of the energy cost of one fuel set. */
  function FuelCost(p: Window, a: Assignment, fuel: seq<string>): real
  {
    SumOver(Hours(p), FuelCostByHour(p, a, fuel))
  }

  /** Σ over hh_periods and Generators of maxcap·fix_om·on. */
  function FixedCost(p: Window, a: Assignment): real
  {
    SumOver(Hours(p), FixedCostByHour(p, a))
  }

  /** Σ over hh_periods and Generators of maxcap·st_cost·switch. */
  function StartCost(p: Window, a: Assignment): real
  {
    SumOver(Hours(p), StartCostByHour(p, a))
  }

  /** The objective: fixed + starts + gas + slack + geothermal + hydrogen. */
  function SysCost(p: Window, a: Assignment): real
  {
    FixedCost(p, a) + StartCost(p, a)
      + FuelCost(p, a, p.gas) + FuelCost(p, a, p.slack)
      + FuelCost(p, a, p.geothermal) + FuelCost(p, a, p.hydrogen)
  }
}
