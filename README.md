# PowNet (Cornell): unit-commitment window and `.dat` writer in Dafny

This project models the two parts of the PowNet power-system model that decide what a
simulation computes: the constraint rules and objective of one planning window of the
unit-commitment / optimal-power-flow formulation, and the writer that produces the
section-based `.dat` data file the formulation is loaded from.

**The unit-commitment window** (`unit_commitment.dfy` and the property modules).
- A window's parameters (`Window`) and a candidate value for every decision variable
  over hours `0..H` (`Assignment`) are datatypes.
- Every constraint rule is a predicate with the rule's own index guard. The guard that
  skips a rule (`Constraint.Skip`) makes the predicate hold trivially.
- `Feasible` is the conjunction of all rules over their index sets, and `SysCost` is the
  objective.
- The lemmas state what the formulation means for every feasible assignment:
  - hour 0 is pinned to the initial state;
  - `switch` marks exactly the off-to-on transitions;
  - minimum up/down times hold with a lookahead truncated at the horizon;
  - ramping, capacity and reserve sharing per unit, and the system reserve requirements;
  - line limits, the reference angle and the renewable ceilings;
  - system-wide power conservation.
- Further lemmas say the cost is non-negative, and that feasibility and cost depend only
  on hours `1..H`.

**The writer** (`dat_*.dfy`, `frames.dfy`, `path_table.dfy`, `hourly_series.dfy`).
- It works as the source does: methods with loops append the chunks of each section to
  a buffer `f`.
- Each method is proved to append exactly a specification function of its inputs.
- Lemmas about those functions state what the file holds:
  - the bidirectional path table;
  - the dense line table with its last-match rule;
  - generator sets filtered by node and by fuel type, with sanitised names;
  - the node-set blocks, the scalar section and the generator table with its cold start;
  - the 1-based hourly series.
- Round trips read sections back: set blocks to their members, rendered numbers to their
  values, the scalar section to its parameters.

Three places where the code does less than a reader of a DC power-flow model would
expect. The model follows the code in each.
- **Node balance.** In a DC-flow formulation every node carries a balance. The code
  declares balance rules for the transformer, hydro, solar and dispatchable demand nodes
  (`Model_withdata_5_MoreBoreholes/pownet_model.py:318-374`), and none for `gn_nodes`,
  although the data file declares their sets
  (`Model_withdata_0_Current/pownet_datasetup.py:114-124`).
  `DatFile.WrittenNodeSetsBalance` shows that every sink has exactly one balance rule
  exactly when that list is empty.
- **Reference angle.** The reference angle anchors the angles in every hour of the window.
  `Ref_NodeConstraint` is declared over `hh_periods` only
  (`Model_withdata_5_MoreBoreholes/pownet_model.py:384-386`), so it applies to hours
  `1..H` and leaves hour 0 free (`WindowScope.HourZeroAnglesFree`).
- **Line data.** `df_paths` adds a reversed copy of every transmission row so that each
  line is written in both directions with its own data
  (`Model_withdata_0_Current/pownet_datasetup.py:55-58`). When the input lists a line in
  both directions, the reversed copies come later and win the last-match loop
  (`Model_withdata_0_Current/pownet_datasetup.py:285-291`). Each direction is then
  written with the data of the row listed for the other direction
  (`PathTable.LineValueBothDirections`).

## Model

| member | source | states |
|---|---|---|
| UnitCommitment.Generators | Model_withdata_5_MoreBoreholes/pownet_model.py:25 | Generators = GD1Gens | GD2Gens | …, one set per entry of the demand-node list |
| UnitCommitment.ResGenerators | Model_withdata_5_MoreBoreholes/pownet_model.py:34 | ResGenerators = Gas | Slack | Geothermal | Hydrogen |
| UnitCommitment.Domains | Model_withdata_5_MoreBoreholes/pownet_model.py:174-194 | mwh, srsv, nrsv, hydro and solar non-negative and on, switch binary over hours 0..H; vlt_angle free |
| UnitCommitment.MwhConInitial | Model_withdata_5_MoreBoreholes/pownet_model.py:222-227 | mwh[j,0] = ini_mwh[j]; skipped for i ≠ 0 |
| UnitCommitment.OnConInitial | Model_withdata_5_MoreBoreholes/pownet_model.py:229-234 | on[j,0] = ini_on[j]; skipped for i ≠ 0 |
| UnitCommitment.SwitchCon2 | Model_withdata_5_MoreBoreholes/pownet_model.py:236-238 | switch[j,i] ≤ on[j,i]·m |
| UnitCommitment.SwitchCon3 | Model_withdata_5_MoreBoreholes/pownet_model.py:240-242 | switch[j,i] ≤ (1 − on[j,i−1])·m |
| UnitCommitment.SwitchCon4 | Model_withdata_5_MoreBoreholes/pownet_model.py:244-246 | on[j,i] − on[j,i−1] ≤ switch[j,i] |
| UnitCommitment.MinUp | Model_withdata_5_MoreBoreholes/pownet_model.py:251-256 | on[j,i] − on[j,i−1] ≤ on[j,k] when i > 0, k > i and k ≤ min(i + minup − 1, H); skipped otherwise (meaning: `CommitmentProperties.MinUpExact`) |
| UnitCommitment.MinDown | Model_withdata_5_MoreBoreholes/pownet_model.py:259-264 | on[j,i−1] − on[j,i] ≤ 1 − on[j,k] under the same guard with mindn (meaning: `CommitmentProperties.MinDownExact`) |
| UnitCommitment.RampBase | Model_withdata_5_MoreBoreholes/pownet_model.py:268-272 | the output hour i is compared with: ini_mwh for hour 1, mwh[j,i−1] after |
| UnitCommitment.Ramp1 | Model_withdata_5_MoreBoreholes/pownet_model.py:267-274 | mwh[j,i] − base ≤ ramp[j] |
| UnitCommitment.Ramp2 | Model_withdata_5_MoreBoreholes/pownet_model.py:276-283 | base − mwh[j,i] ≤ ramp[j] |
| UnitCommitment.MaxC | Model_withdata_5_MoreBoreholes/pownet_model.py:293-295 | mwh[j,i] ≤ on[j,i]·maxcap[j]·HorizonDeratef[j,i] |
| UnitCommitment.MinC | Model_withdata_5_MoreBoreholes/pownet_model.py:297-299 | mwh[j,i] ≥ on[j,i]·mincap[j] |
| UnitCommitment.HydroC | Model_withdata_5_MoreBoreholes/pownet_model.py:302-304 | hydro[z,i] ≤ HorizonHydro[z,i] |
| UnitCommitment.SolarC | Model_withdata_5_MoreBoreholes/pownet_model.py:307-309 | solar[z,i] ≤ HorizonSolar[z,i] |
| UnitCommitment.Flow | Model_withdata_5_MoreBoreholes/pownet_model.py:320 | Σ over sinks k of linesus[z,k]·(vlt_angle[z,i] − vlt_angle[k,i]) |
| UnitCommitment.TDnodesBalance | Model_withdata_5_MoreBoreholes/pownet_model.py:318-322 | −demand[z,i] equals the flow out of z |
| UnitCommitment.TNnodesBalance | Model_withdata_5_MoreBoreholes/pownet_model.py:325-329 | the flow out of z is 0 |
| UnitCommitment.HPnodesBalance | Model_withdata_5_MoreBoreholes/pownet_model.py:339-344 | (1 − TransLoss)·hydro[z,i] equals the flow out of z |
| UnitCommitment.SolarnodesBalance | Model_withdata_5_MoreBoreholes/pownet_model.py:348-352 | (1 − TransLoss)·solar[z,i] equals the flow out of z |
| UnitCommitment.GDBalance | Model_withdata_5_MoreBoreholes/pownet_model.py:360-374 | (1 − TransLoss)·Σ mwh over GD<n+1>Gens − demand equals the flow out of gd_nodes[n] |
| UnitCommitment.RefNode | Model_withdata_5_MoreBoreholes/pownet_model.py:384-386 | the reference node's angle is 0 |
| UnitCommitment.MaxLine | Model_withdata_5_MoreBoreholes/pownet_model.py:390-395 | linesus·(angle difference) ≤ n1criterion·linemva when linemva > 0; skipped otherwise |
| UnitCommitment.MinLine | Model_withdata_5_MoreBoreholes/pownet_model.py:397-402 | linesus·(angle difference) ≥ −n1criterion·linemva when linemva > 0; skipped otherwise |
| UnitCommitment.SysReserve | Model_withdata_5_MoreBoreholes/pownet_model.py:413-415 | Σ srsv + Σ nrsv over ResGenerators ≥ HorizonReserves[i] |
| UnitCommitment.SpinningReq | Model_withdata_5_MoreBoreholes/pownet_model.py:418-420 | Σ srsv over ResGenerators ≥ spin_margin·HorizonReserves[i] |
| UnitCommitment.SpinningReq2 | Model_withdata_5_MoreBoreholes/pownet_model.py:423-425 | srsv[j,i] ≤ on[j,i]·maxcap[j]·HorizonDeratef[j,i] |
| UnitCommitment.NonSpinningReq | Model_withdata_5_MoreBoreholes/pownet_model.py:428-430 | nrsv[j,i] ≤ (1 − on[j,i])·maxcap[j]·HorizonDeratef[j,i] |
| UnitCommitment.ZeroSum | Model_withdata_5_MoreBoreholes/pownet_model.py:434-436 | mwh + srsv + nrsv ≤ maxcap[j]·HorizonDeratef[j,i] |
| UnitCommitment.Balances | Model_withdata_5_MoreBoreholes/pownet_model.py:318-374 | every nodal balance rule over its node set and hours 1..H (there is none for gn_nodes) |
| UnitCommitment.Feasible | Model_withdata_5_MoreBoreholes/pownet_model.py:174-436 | every variable domain and every constraint rule over the index sets it is declared on |
| UnitCommitment.SysCost | Model_withdata_5_MoreBoreholes/pownet_model.py:203-214 | fixed + starts + the gas, slack, geothermal and hydrogen energy costs over hh_periods (properties: `CostProperties`) |
| CommitmentProperties.InitialConditionsExactlyHourZero | Model_withdata_5_MoreBoreholes/pownet_model.py:222-234 | the two initial-condition rules hold exactly when every unit's hour-0 commitment and output equal ini_on and ini_mwh; they constrain no other hour |
| CommitmentProperties.HourZeroPinned | Model_withdata_5_MoreBoreholes/pownet_model.py:222-234 | in a feasible assignment on[j,0] = ini_on[j] and mwh[j,0] = ini_mwh[j]; so a window has no feasible assignment unless ini_on is 0 or 1 and ini_mwh is non-negative |
| CommitmentProperties.StartLogicExact | Model_withdata_5_MoreBoreholes/pownet_model.py:236-246 | with binary on/switch and any big-M m ≥ 1, the three switch rules of an hour hold if and only if switch = 1 exactly on an off-to-on transition |
| CommitmentProperties.StartIndicator | Model_withdata_5_MoreBoreholes/pownet_model.py:236-246 | in a feasible assignment, for hours 1..H, switch[j,i] = 1 iff on[j,i-1] = 0 and on[j,i] = 1 |
| CommitmentProperties.StartRuleBinary | Model_withdata_5_MoreBoreholes/pownet_model.py:251-253 | on 0/1 values the minimum-up inequality on_i − on_{i−1} ≤ on_k is the same as "a start at i means on at k" |
| CommitmentProperties.StopRuleBinary | Model_withdata_5_MoreBoreholes/pownet_model.py:259-261 | on 0/1 values the minimum-down inequality on_{i−1} − on_i ≤ 1 − on_k is the same as "a stop at i means off at k" |
| CommitmentProperties.MinUpExact | Model_withdata_5_MoreBoreholes/pownet_model.py:251-256 | for a binary trajectory, all MinimumUp rules hold iff every start at hour i keeps the unit on for all k with i < k ≤ min(i+minup−1, H) |
| CommitmentProperties.MinDownExact | Model_withdata_5_MoreBoreholes/pownet_model.py:259-264 | for a binary trajectory, all MinimumDown rules hold iff every stop at hour i keeps the unit off for all k with i < k ≤ min(i+mindn−1, H) |
| CommitmentProperties.MinUpDownTimes | Model_withdata_5_MoreBoreholes/pownet_model.py:251-264 | in a feasible assignment every start keeps the unit on, and every stop keeps it off, through the horizon-truncated minimum time |
| CommitmentProperties.RampLimit | Model_withdata_5_MoreBoreholes/pownet_model.py:267-283 | the previous output the ramp rules compare with (ini_mwh at hour 1) is mwh[j,i−1] in every hour, and the output changes by at most ramp[j] in either direction |
| CommitmentProperties.OffUnitIdle | Model_withdata_5_MoreBoreholes/pownet_model.py:423-430 | a unit that is off in a feasible assignment produces nothing, offers no spinning reserve, and offers non-spinning reserve of at most maxcap·derate |
| CommitmentProperties.OnUnitWithinLimits | Model_withdata_5_MoreBoreholes/pownet_model.py:293-299 | a unit that is on runs between mincap and maxcap·derate, its output plus spinning reserve fits that capacity, and it offers no non-spinning reserve |
| CommitmentProperties.CapacityShared | Model_withdata_5_MoreBoreholes/pownet_model.py:423-436 | output plus both reserve offers never exceed maxcap·derate; spinning reserve needs the unit on and non-spinning reserve needs it off |
| CommitmentProperties.ResGeneratorsIsUnion | Model_withdata_5_MoreBoreholes/pownet_model.py:34 | ResGenerators contains exactly the members of Gas, Slack, Geothermal and Hydrogen, each once when the four sets are duplicate-free |
| CommitmentProperties.ReserveHasProvider | Model_withdata_5_MoreBoreholes/pownet_model.py:413-415 | when an hour's reserve requirement is positive, a feasible assignment has a reserve-eligible unit offering spinning or non-spinning reserve in it |
| CommitmentProperties.PositiveSpinningTotal | Model_withdata_5_MoreBoreholes/pownet_model.py:418-420 | a met spinning requirement spin_margin·reserve that is positive means a positive total of spinning offers |
| CommitmentProperties.SpinningOnlyWhenOn | Model_withdata_5_MoreBoreholes/pownet_model.py:423-425 | a unit with a binary commitment that offers spinning reserve is on |
| CommitmentProperties.SpinningNeedsCommittedUnit | Model_withdata_5_MoreBoreholes/pownet_model.py:418-425 | a positive spinning requirement forces some reserve-eligible unit to be committed and to offer spinning reserve |
| CommitmentProperties.WellFormedSets | Model_withdata_5_MoreBoreholes/pownet_model.py:22-34 | when every set holds each member once and the fuel sets are units of the window, Generators and ResGenerators are duplicate-free and ResGenerators ⊆ Generators |
| CommitmentProperties.ReserveUnitsShareCapacity | Model_withdata_5_MoreBoreholes/pownet_model.py:413-436 | in a well-formed window every unit the reserve totals count has non-negative reserves that share its derated capacity with its output |
| CommitmentProperties.LineLimit | Model_withdata_5_MoreBoreholes/pownet_model.py:390-402 | on every ordered pair with a positive limit, the flow linesus·(θs − θk) lies within ±n1criterion·linemva |
| CommitmentProperties.UnconnectedPairExempt | Model_withdata_5_MoreBoreholes/pownet_model.py:390-402 | a pair whose linemva is not positive is skipped by both line rules whatever the angles |
| CommitmentProperties.ReferenceAngle | Model_withdata_5_MoreBoreholes/pownet_model.py:384-386 | the reference node has angle 0 in every hour 1..H of a feasible assignment |
| CommitmentProperties.HydroCeiling | Model_withdata_5_MoreBoreholes/pownet_model.py:302-304 | hydro dispatch lies between 0 and the hour's availability; zero availability forces zero dispatch |
| CommitmentProperties.SolarCeiling | Model_withdata_5_MoreBoreholes/pownet_model.py:307-309 | solar dispatch lies between 0 and the hour's availability; zero availability forces zero dispatch |
| OrderedSets.Union | Model_withdata_5_MoreBoreholes/pownet_model.py:34 | the ordered set union of A and B (Pyomo's `A` or `B`): its members are those of A or B, A comes first unchanged, and it is duplicate-free when A and B are |
| OrderedSets.UnionAll | Model_withdata_5_MoreBoreholes/pownet_model.py:25 | Generators, the union of GD1Gens, GD2Gens, …: a unit is a generator iff it belongs to some node's set |
| OrderedSets.UnionAllDistinct | Model_withdata_5_MoreBoreholes/pownet_model.py:25 | the union of duplicate-free sets is duplicate-free, so Generators lists each unit once |
| WindowScope.FlowAgrees | Model_withdata_5_MoreBoreholes/pownet_model.py:318-322 | the angle-weighted flow out of a node in hour i depends only on the angles of hour i |
| WindowScope.ReserveTotalsAgree | Model_withdata_5_MoreBoreholes/pownet_model.py:413-420 | the spinning and non-spinning totals of hour i depend only on the offers of hour i |
| WindowScope.DomainsCarryOver | Model_withdata_5_MoreBoreholes/pownet_model.py:174-194 | the variable domains over hours 0..H hold for any assignment that agrees on hours 1..H and on the hour-0 commitment and output, and whose other hour-0 values lie in their domains |
| WindowScope.CommitmentRulesCarryOver | Model_withdata_5_MoreBoreholes/pownet_model.py:222-264 | the initial-condition, switch and minimum up/down rules carry over to any assignment that agrees on hours 1..H and on the hour-0 commitment and output |
| WindowScope.OutputRulesCarryOver | Model_withdata_5_MoreBoreholes/pownet_model.py:267-309 | the ramp, capacity and renewable rules carry over to any assignment that agrees on hours 1..H |
| WindowScope.LoadNodesCarryOver | Model_withdata_5_MoreBoreholes/pownet_model.py:318-329 | the balances of transformer nodes with and without demand carry over to any assignment that agrees on hours 1..H |
| WindowScope.RenewableNodesCarryOver | Model_withdata_5_MoreBoreholes/pownet_model.py:339-352 | the hydro and solar node balances carry over to any assignment that agrees on hours 1..H |
| WindowScope.ThermoAgrees | Model_withdata_5_MoreBoreholes/pownet_model.py:362 | a demand node's dispatchable output in hour i depends only on the outputs of hour i |
| WindowScope.GenerationNodesCarryOver | Model_withdata_5_MoreBoreholes/pownet_model.py:360-374 | the balances of the dispatchable demand nodes carry over to any assignment that agrees on hours 1..H |
| WindowScope.UnitReservesCarryOver | Model_withdata_5_MoreBoreholes/pownet_model.py:423-436 | a unit's spinning, non-spinning and zero-sum rules of hour i carry over to any assignment that agrees on hour i |
| WindowScope.NetworkAndReservesCarryOver | Model_withdata_5_MoreBoreholes/pownet_model.py:384-436 | the network and reserve rules carry over to any assignment that agrees on hours 1..H |
| WindowScope.FeasibleDependsOnlyOnWindow | Model_withdata_5_MoreBoreholes/pownet_model.py:131-132 | feasibility depends only on hours 1..H and the pinned hour-0 commitment and output: an assignment agreeing there, with its other hour-0 values in their domains, is feasible too |
| WindowScope.LookaheadTruncated | Model_withdata_5_MoreBoreholes/pownet_model.py:251-264 | a feasible assignment stays feasible whatever any variable does after hour H, so minimum up/down times are truncated at the horizon and never wrap |
| WindowScope.HourZeroAnglesFree | Model_withdata_5_MoreBoreholes/pownet_model.py:384-386 | the hour-0 angles, the reference node's included, can be set to anything without losing feasibility |
| CostProperties.HoursAreWindow | Model_withdata_5_MoreBoreholes/pownet_model.py:132 | hh_periods holds exactly the hours 1..H |
| CostProperties.UnitTermsAtNonneg | Model_withdata_5_MoreBoreholes/pownet_model.py:204-210 | with non-negative cost data and variables in their domains, a unit's fixed, start-up and energy terms in an hour are non-negative |
| CostProperties.FixedCostAtNonneg | Model_withdata_5_MoreBoreholes/pownet_model.py:204 | the hourly fixed O&M sum over Generators is non-negative |
| CostProperties.StartCostAtNonneg | Model_withdata_5_MoreBoreholes/pownet_model.py:205 | the hourly start-up cost sum over Generators is non-negative |
| CostProperties.FuelCostAtNonneg | Model_withdata_5_MoreBoreholes/pownet_model.py:207-210 | the hourly energy cost of a fuel set of generators is non-negative |
| CostProperties.HourlyCostsNonneg | Model_withdata_5_MoreBoreholes/pownet_model.py:204-210 | all six hourly terms of the objective are non-negative in every hour 1..H |
| CostProperties.SysCostNonneg | Model_withdata_5_MoreBoreholes/pownet_model.py:203-212 | with non-negative cost data, every assignment within the variable domains has a non-negative system cost |
| CostProperties.FixedCostAgrees | Model_withdata_5_MoreBoreholes/pownet_model.py:204 | the fixed O&M term depends only on the commitments of hours 1..H |
| CostProperties.StartCostAgrees | Model_withdata_5_MoreBoreholes/pownet_model.py:205 | the start-up term depends only on the start indicators of hours 1..H |
| CostProperties.FuelCostAgrees | Model_withdata_5_MoreBoreholes/pownet_model.py:207-210 | a fuel set's energy term depends only on the outputs of hours 1..H |
| CostProperties.SysCostDependsOnlyOnWindow | Model_withdata_5_MoreBoreholes/pownet_model.py:203-212 | two assignments that agree on hours 1..H have the same system cost, whatever they do at hour 0 or after H |
| CostProperties.FuelCostAtUnion | Model_withdata_5_MoreBoreholes/pownet_model.py:34 | the hourly energy cost of a union of two disjoint unit sets is the sum of their energy costs |
| CostProperties.EnergyCostOfReserveUnits | Model_withdata_5_MoreBoreholes/pownet_model.py:207-212 | with disjoint fuel sets, the four energy terms of the objective add up to the energy cost of ResGenerators: each reserve-eligible unit is charged once |
| PowerBalance.NetFlowVanishes | Model_withdata_5_MoreBoreholes/pownet_model.py:318-322 | with symmetric susceptances, the angle-weighted flows out of all sinks sum to zero in every hour |
| PowerBalance.DemandNodeBalance | Model_withdata_5_MoreBoreholes/pownet_model.py:360-374 | the same balance for any node record in the list of dispatchable demand nodes |
| PowerBalance.DispatchableInjections | Model_withdata_5_MoreBoreholes/pownet_model.py:360-374 | summed over the dispatchable demand nodes, flow equals (1 − TransLoss)·output minus demand |
| PowerBalance.SinkFlowsSplit | Model_withdata_5_MoreBoreholes/pownet_model.py:44-52 | when the sinks are the hydro, solar, transformer and dispatchable demand nodes, the total flow over the sinks splits into those five groups |
| PowerBalance.HydroFlows | Model_withdata_5_MoreBoreholes/pownet_model.py:339-344 | the hydro nodes together inject (1 − TransLoss) times their dispatch |
| PowerBalance.SolarFlows | Model_withdata_5_MoreBoreholes/pownet_model.py:348-352 | the solar nodes together inject (1 − TransLoss) times their dispatch |
| PowerBalance.SubstationFlows | Model_withdata_5_MoreBoreholes/pownet_model.py:318-329 | the transformer nodes with demand together draw their demand, and those without demand carry no net flow |
| PowerBalance.PowerConservation | Model_withdata_5_MoreBoreholes/pownet_model.py:316-374 | with symmetric susceptances and one balance per sink, in each hour (1 − TransLoss)·(hydro + solar + dispatchable output) equals total demand |
| DatFile.DatChunks | Model_withdata_0_Current/pownet_datasetup.py:99-336 | the generator sets, node sets, scalars, generator table, line table, series and reserves in file order (written by `DatWriter.WriteDat`) |
| DatFile.WrittenNodeSetsBalance | Model_withdata_0_Current/pownet_datasetup.py:76-88 | for a window loaded from the written node sets, every sink has exactly one balance rule iff the list of generator nodes without demand is empty |
| DatText.Sanitize | Model_withdata_0_Current/pownet_datasetup.py:110 | `replace(' ', '_')`: same length, each space becomes `_`, every other character is kept, and no space remains |
| DatText.SanitizeIdempotent | Model_withdata_0_Current/pownet_datasetup.py:110 | sanitising a written name again changes nothing |
| DatText.SanitizeKeepsSpaceFree | Model_withdata_0_Current/pownet_datasetup.py:110 | a name without spaces is written unchanged |
| DatText.NatToString | Model_withdata_0_Current/pownet_datasetup.py:240-244 | `%d` / `str` of a natural number is a non-empty string of digits with no leading zero |
| DatText.ParseNatToString | Model_withdata_0_Current/pownet_datasetup.py:240-244 | reading back a rendered number gives the number |
| DatText.NatToStringInjective | Model_withdata_0_Current/pownet_datasetup.py:308 | different hours are rendered differently |
| DatText.ReadNatToString | Model_withdata_0_Current/pownet_datasetup.py:240-244 | the number reader accepts every rendered number and returns its value |
| Frames.IndexOf | Model_withdata_0_Current/pownet_datasetup.py:104 | `list.index`: the position of the first occurrence of the element |
| Frames.SetColumn | Model_withdata_0_Current/pownet_datasetup.py:31-33 | `df[c] = values` sets column c to the values, keeps every other column, and appends c when the frame lacks it |
| Frames.PrepareGenFrame | Model_withdata_0_Current/pownet_datasetup.py:31-33 | the prepared generator table keeps its rows and required columns and gains gen_cost, ini_on and ini_mwh |
| Frames.PreparedGenerators | Model_withdata_0_Current/pownet_datasetup.py:31-33 | each prepared unit has ini_on = ini_mwh = 0 and the cost of its fuel type, and keeps its name, type and node |
| Frames.UnknownTypeCostsNaN | Model_withdata_0_Current/pownet_datasetup.py:31 | a unit whose type is none of the four mapped types gets a NaN cost |
| Frames.MatchingRowsExact | Model_withdata_0_Current/pownet_datasetup.py:107-108 | the filter keeps exactly the rows whose column holds the value, each once, in increasing row order |
| Frames.MatchingRowsDisjoint | Model_withdata_0_Current/pownet_datasetup.py:129-166 | two different values select disjoint rows: no unit is in two fuel-type sets |
| PathTable.Paths | Model_withdata_0_Current/pownet_datasetup.py:55-58 | df_paths: the input rows, then the same rows with source and sink exchanged (meaning: `PathTable.PathsLayout`) |
| PathTable.PathsLayout | Model_withdata_0_Current/pownet_datasetup.py:55-58 | the path table is twice as long as the input: the input rows, then each input row with source and sink exchanged and the same line data |
| PathTable.SwappedInvolution | Model_withdata_0_Current/pownet_datasetup.py:55-56 | reversing the path list twice gives it back |
| PathTable.LineValue | Model_withdata_0_Current/pownet_datasetup.py:292-295 | the line data of the last matching path as `linemva\tlinesus\n`, or `0\t0\n` (meaning: `PathTable.LineValueFromInput`) |
| PathTable.LastMatch | Model_withdata_0_Current/pownet_datasetup.py:285-291 | the result is the position of the last row from z to x, or none when no row joins them |
| PathTable.IsLastMatchUnique | Model_withdata_0_Current/pownet_datasetup.py:285-291 | at most one answer has the last-match property |
| PathTable.LastMatchSwapped | Model_withdata_0_Current/pownet_datasetup.py:55-56 | searching the reversed rows for z→x is searching the input for x→z |
| PathTable.LastMatchPaths | Model_withdata_0_Current/pownet_datasetup.py:285-291 | in the path table, a reversed input row x→z wins over a forward row z→x |
| PathTable.LineValueFromInput | Model_withdata_0_Current/pownet_datasetup.py:285-295 | the pair z→x is written with the data of the last input row x→z if any, else of the last input row z→x, else `0 0` |
| PathTable.ConnectionSymmetric | Model_withdata_0_Current/pownet_datasetup.py:285-291 | the pair (z, x) has a matching path iff (x, z) has one |
| PathTable.UnconnectedPairIsZero | Model_withdata_0_Current/pownet_datasetup.py:292-295 | a pair with no input row in either direction is written as `0 0` |
| PathTable.LineValueSymmetric | Model_withdata_0_Current/pownet_datasetup.py:285-295 | a line listed in one direction only is written with the same data in both directions |
| PathTable.LineValueBothDirections | Model_withdata_0_Current/pownet_datasetup.py:285-295 | a line listed in both directions is written in each direction with the data of the row for the other direction |
| PathTable.FindLastMatch | Model_withdata_0_Current/pownet_datasetup.py:285-291 | the search loop that overwrites match/p_match ends with a match exactly when one exists, at the last matching row |
| PathTable.SinkRowAt | Model_withdata_0_Current/pownet_datasetup.py:283-295 | sink b of source z is written as the pair label followed by its line data |
| PathTable.LineRowsLength | Model_withdata_0_Current/pownet_datasetup.py:282-284 | the first n sources contribute two chunks for each of the n·N pairs |
| PathTable.LineRowAt | Model_withdata_0_Current/pownet_datasetup.py:282-295 | source outer, sink inner: the pair at positions (a, b) is row a·N + b and holds that pair and its line data |
| PathTable.LineTable | Model_withdata_0_Current/pownet_datasetup.py:281-296 | the header, the rows of every ordered node pair, then `;` (size: `PathTable.LineTableSize`) |
| PathTable.LineTableSize | Model_withdata_0_Current/pownet_datasetup.py:281-296 | the line table has one row per ordered pair of nodes, N² rows, between its header and its end |
| DatSets.Suffixed | Model_withdata_0_Current/pownet_datasetup.py:176-177 | each item is written followed by the separator, in order |
| DatSets.SetBlock | Model_withdata_0_Current/pownet_datasetup.py:175-178 | `set NAME :=\n`, each member followed by a space, `;\n\n` (read back: `DatSets.SetBlockMembers`) |
| DatSets.SetBlockMembers | Model_withdata_0_Current/pownet_datasetup.py:175-178 | a set block is `set NAME :=\n`, one chunk per member, `;\n\n`, and reads back as its members in order |
| DatSets.UnitNames | Model_withdata_0_Current/pownet_datasetup.py:107-111 | the sanitised names of the rows whose column holds the value, in row order |
| DatSets.UnitNamesOfMatchingRows | Model_withdata_0_Current/pownet_datasetup.py:107-111 | the names written for a filter are the sanitised names of exactly the matching rows, in row order |
| DatSets.UnitNameSource | Model_withdata_0_Current/pownet_datasetup.py:107-111 | every written unit name comes from a generator that passed the filter, has no space, and is as long as that generator's name |
| DatSets.NodeSetName | Model_withdata_0_Current/pownet_datasetup.py:104-105 | `GD<k+1>Gens` for the node at `list.index` k |
| DatSets.NodeGenBlockOfNode | Model_withdata_0_Current/pownet_datasetup.py:102-112 | with a duplicate-free node list, the k-th node's block is named GD<k+1>Gens and lists exactly the units at that node |
| DatSets.IndexOfDistinct | Model_withdata_0_Current/pownet_datasetup.py:104 | in a duplicate-free node list, `list.index` of the k-th node is k |
| DatSets.NodeSetNamesDistinct | Model_withdata_0_Current/pownet_datasetup.py:104-105 | with a duplicate-free node list, no two nodes share a set name |
| DatSets.NumberedNameInjective | Model_withdata_0_Current/pownet_datasetup.py:105 | equal set names have equal numbers |
| DatSets.FuelSetMembership | Model_withdata_0_Current/pownet_datasetup.py:129-166 | a unit is in a fuel-type set iff its type is that fuel; a unit of any other type is in none of the four |
| DatSets.NodeSetsAgree | Model_withdata_0_Current/pownet_datasetup.py:175-190 | the nodes, sources and sinks blocks each list all_nodes in the same order, and all_nodes holds every node list whole |
| DatSets.AllNodesMultiset | Model_withdata_0_Current/pownet_datasetup.py:88 | all_nodes holds each kind's node list whole, counted with multiplicity |
| DatTables.ScalarChunks | Model_withdata_0_Current/pownet_datasetup.py:240-251 | the six scalar statements and their separators in source order (read back: `DatTables.ScalarsRoundTrip`) |
| DatTables.ReadScalarWritten | Model_withdata_0_Current/pownet_datasetup.py:240 | a statement `head v;` reads back as v |
| DatTables.ScalarsRoundTrip | Model_withdata_0_Current/pownet_datasetup.py:240-251 | the scalar section reads back as its parameters, with the hour count 24 times the day count |
| DatTables.RowChunkAt | Model_withdata_0_Current/pownet_datasetup.py:265-271 | the k-th chunk of a row is the cell of column k: the sanitised name or the printed value, then a tab |
| DatTables.NonNameColumns | Model_withdata_0_Current/pownet_datasetup.py:259-263 | the header names exactly the columns other than `name` |
| DatTables.NonNameColumnsCount | Model_withdata_0_Current/pownet_datasetup.py:259-263 | with distinct columns including `name`, the header names one column fewer than each row has cells |
| DatTables.GenTable | Model_withdata_0_Current/pownet_datasetup.py:259-273 | the header of non-name columns, one row per unit, then `;` |
| DatTables.GenRowsLength | Model_withdata_0_Current/pownet_datasetup.py:264-272 | each unit takes C + 1 chunks, its C cells and a newline |
| DatTables.GenRowAt | Model_withdata_0_Current/pownet_datasetup.py:264-272 | row i starts at i·(C + 1) and holds that unit's cells then a newline |
| DatTables.GenCellWritten | Model_withdata_0_Current/pownet_datasetup.py:264-272 | column c of unit i is written at position i·(C + 1) + index of c |
| DatTables.ColdStartWritten | Model_withdata_0_Current/pownet_datasetup.py:32-33 | every written unit row has `0` for ini_on and ini_mwh, the cost of its fuel type, and its name without spaces |
| HourlySeries.Series | Model_withdata_0_Current/pownet_datasetup.py:305-309 | `param:\tNAME:=\n`, every node's hourly rows, then `;` |
| HourlySeries.NodeRowAt | Model_withdata_0_Current/pownet_datasetup.py:307-308 | the h-th row of node z is `z \t h+1 \t value at h` |
| HourlySeries.SeriesRowsLength | Model_withdata_0_Current/pownet_datasetup.py:306-308 | each node contributes one row per hour of the series |
| HourlySeries.SeriesRowAt | Model_withdata_0_Current/pownet_datasetup.py:306-308 | node outer, hour inner: row a·L + h is node a's row for the 1-based hour h + 1 |
| HourlySeries.GenUnits | Model_withdata_0_Current/pownet_datasetup.py:37 | the derate series is written for the columns after the first four, none when there are at most four, and each is a column of the series |
| HourlySeries.ReserveRows | Model_withdata_0_Current/pownet_datasetup.py:334-335 | one reserve row per hour: the 1-based hour, a tab, and that hour's reserve |
| DatWriter.WriteSet | Model_withdata_0_Current/pownet_datasetup.py:175-178 | appends exactly the set block of the members |
| DatWriter.WriteUnitSet | Model_withdata_0_Current/pownet_datasetup.py:129-136 | appends the set block of the sanitised names of the units whose column holds the value |
| DatWriter.WriteNodeGenSet | Model_withdata_0_Current/pownet_datasetup.py:102-112 | appends the generator set of one node, numbered by its position in the list |
| DatWriter.WriteNodeGenSets | Model_withdata_0_Current/pownet_datasetup.py:102-124 | appends one generator set per node, in list order |
| DatWriter.WriteFuelSets | Model_withdata_0_Current/pownet_datasetup.py:129-166 | appends the Gas, Slack, Geothermal and Hydrogen sets |
| DatWriter.WriteNodeSets | Model_withdata_0_Current/pownet_datasetup.py:175-232 | appends the ten node-set blocks |
| DatWriter.WriteScalars | Model_withdata_0_Current/pownet_datasetup.py:240-251 | appends the scalar section, with the hour count computed from the day count |
| DatWriter.WriteGenHeader | Model_withdata_0_Current/pownet_datasetup.py:259-263 | appends every non-name column followed by a tab |
| DatWriter.WriteGenRow | Model_withdata_0_Current/pownet_datasetup.py:265-272 | appends one unit's cells in column order, then a newline |
| DatWriter.WriteGenRows | Model_withdata_0_Current/pownet_datasetup.py:264-272 | appends every unit's row, in table order |
| DatWriter.WriteGenTable | Model_withdata_0_Current/pownet_datasetup.py:259-273 | appends the whole generator parameter section |
| DatWriter.WriteSinkRows | Model_withdata_0_Current/pownet_datasetup.py:283-295 | appends, for source z and every sink, the pair and its last-match line data |
| DatWriter.WriteLineTable | Model_withdata_0_Current/pownet_datasetup.py:281-296 | appends the whole line table |
| DatWriter.WriteNodeRows | Model_withdata_0_Current/pownet_datasetup.py:307-308 | appends one row per hour for node z |
| DatWriter.WriteSeries | Model_withdata_0_Current/pownet_datasetup.py:305-309 | appends an hourly series section, node by node |
| DatWriter.WriteReserves | Model_withdata_0_Current/pownet_datasetup.py:333-336 | appends the reserve section, one row per hour of the load |
| DatWriter.WriteGenSets | Model_withdata_0_Current/pownet_datasetup.py:102-166 | appends the generator sets by node with demand, by node without demand and by fuel type |
| DatWriter.WriteSeriesSections | Model_withdata_0_Current/pownet_datasetup.py:305-336 | appends the demand, hydro, solar and derate series and the reserves |
| DatWriter.WriteDat | Model_withdata_0_Current/pownet_datasetup.py:99-336 | the whole file is exactly the sections in order: generator sets, node sets, scalars, generator table, line table, hourly series and reserves |

## Left out

- Pyomo itself (`AbstractModel`, `Set`/`Param`/`Var` construction, data loading) and the solver. Optimality is not modelled: only feasibility of an assignment and the value of the objective.
- The rolling-horizon driver that copies the `Sim*` series into the mutable `Horizon*` parameters and carries `ini_on`/`ini_mwh` forward is not part of this model. A `Window` receives the horizon demand, reserves, availabilities, derate factors and initial state directly.
- Parameter domains declared with `within` (non-negative demand, reserves, availabilities, derate factors, `ini_on`, `ini_mwh`) are not checked on a `Window`. Lemmas that need such facts state them as preconditions; `NonnegativeCostData` is the one for the cost data.
- The big-M constant `1e5` is the parameter `m`; `CommitmentProperties.StartLogicExact` holds for any m ≥ 1.
- The hard-coded reference node `CORN2` is the parameter `refNode`. The two hard-coded balances `GD1_Balance` and `GD2_Balance` become one balance per entry of a list pairing each demand node with its generator set (`Window.gd`): entry n is node `gd_nodes[n]` with set `GD<n+1>Gens`.
- Pyomo's `Set(within=nodes)` for sources and sinks, and an undefined `linemva`/`linesus` entry, which Pyomo would reject when loading, are not modelled. Line parameters are total functions.
- Set data Pyomo would not accept is not excluded from a `Window`. (1) A unit in Gas, Slack, Geothermal or Hydrogen that is in no GD<n>Gens set has no `srsv`/`nrsv` in Pyomo, whose variables are declared over Generators only, so building the reserve sums fails; in the model its reserves enter `SysReserve` and `SpinningReq` unbounded, because `SpinningReq2`, `NonSpinningReq` and `ZeroSum` range over Generators. (2) A set that lists a member twice holds it once in Pyomo; `Union` and `UnionAll` keep such a repeat, so `SysCost` and the reserve totals would count that unit twice, and `Flow` would count a repeated sink twice. `CommitmentProperties.WellFormedWindow` states the data Pyomo accepts; `CommitmentProperties.WellFormedSets` and `CommitmentProperties.ReserveUnitsShareCapacity` show what it gives. Lemmas that need these facts take them as preconditions rather than `Feasible` assuming them.
- `minup`/`mindn` are integers, while Pyomo declares them `within=Any`. Nothing is lost: for an integer hour k, `k <= i + minup - 1` holds exactly when it holds with minup replaced by its floor.
- Float arithmetic: the model uses exact reals, so rounding in the solver's constraint evaluation is not captured.
- `pd.read_csv`, `open`/`f.write` and the final `print`: the writer is given in-memory tables. The file is the sequence of the strings passed to `f.write`; their concatenation is not taken.
- Number formatting: `%0.3f` and `str` of a float or table cell are kept as the tokens they print. Only the integers written with `%d` and `str(h+1)` are rendered.
- The reserve series `sum(load)·res_margin` (line 52) is given as its printed tokens; the sum and the scaling are not modelled.
- The run constants (`yr`, `SimDays`, `HorizonHours`, `TransLoss`, `n1criterion`, `spin_margin`, the node lists, `data_name`) are inputs of the writer. The unused `types` list is left out.
- Frames.GenCostToken: the printed cost of a type is fixed as pandas prints a float column (`3.3`, `53.5604`, `0.0`, `6.82`, `nan`). A table whose units were all geothermal would hold an integer column and print `0`; this is not captured.
- PathTable.Path keeps only the four columns the writer reads. Any other column of the transmission table does not affect the file.
- Name-sanitisation collisions (two names that differ only by a space and an underscore are written alike) are not excluded; no property depends on distinct written names.
- DatFile.ValidInput: the series are assumed to have a column for every node they are written for, and the reserves one entry per hour of the load. The source would fail with a lookup error otherwise; that error path is not modelled.
