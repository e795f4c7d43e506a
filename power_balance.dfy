/** System-wide power balance. Every nodal balance equates a node's injection with its
    susceptance-weighted angle differences to all sinks; with symmetric susceptances
    those flows cancel over the whole network, so in every hour the derated generation
    of hydro, solar and dispatchable units equals the total demand. */
module PowerBalance {
  import opened Sums
  import opened UnitCommitment

  /** The node names of the dispatchable demand nodes, in order. */
  function NodeNames(gs: seq<GenNode>): (r: seq<string>)
    ensures |r| == |gs|
    ensures forall n :: 0 <= n < |gs| ==> r[n] == gs[n].node
  {
    if gs == [] then [] else [gs[0].node] + NodeNames(gs[1..])
  }

  /** linesus is symmetric on the sinks, as a table listing every line in both
      directions makes it. */
  ghost predicate SymmetricSusceptance(p: Window)
  {
    forall z, k | z in p.sinks && k in p.sinks :: p.linesus(z, k) == p.linesus(k, z)
  }

  /** Every sink carries exactly one balance rule: the sinks are, up to order, the hydro,
      solar, load-only, transit and dispatchable demand nodes (no generator node without
      demand). */
  ghost predicate BalancedNodeSets(p: Window)
  {
    multiset(p.sinks) == multiset(p.hNodes + p.sNodes + p.tdNodes + p.tnNodes + NodeNames(p.gd))
  }

  lemma {:induction false} SumOverNodeNames(gs: seq<GenNode>, f: string -> real, h: GenNode -> real)
    requires forall g :: h(g) == f(g.node)
    ensures SumOver(NodeNames(gs), f) == SumOver(gs, h)
    decreases |gs|
  {
    if gs != [] {
      SumOverNodeNames(gs[1..], f, h);
      assert NodeNames(gs)[1..] == NodeNames(gs[1..]);
    }
  }

  // Per-hour quantities as functions of a node or a unit, so that every sum below is
  // taken over the same function value.

  function FlowAt(p: Window, a: Assignment, i: Hour): string -> real
  {
    z => Flow(p, a, z, i)
  }

  function HydroAt(a: Assignment, i: Hour): string -> real
  {
    z => a.hydro(z, i)
  }

  function SolarAt(a: Assignment, i: Hour): string -> real
  {
    z => a.solar(z, i)
  }

  function DemandAt(p: Window, i: Hour): string -> real
  {
    z => p.demand(z, i)
  }

  /** Output of the units of one dispatchable demand node. */
  function NodeOutput(a: Assignment, i: Hour): GenNode -> real
  {
    (g: GenNode) => SumOver(g.gens, MwhAt(a, i))
  }

  /** Demand of one dispatchable demand node. */
  function NodeDemand(p: Window, i: Hour): GenNode -> real
  {
    (g: GenNode) => p.demand(g.node, i)
  }

  /** Σ over sinks k of linesus[z,k]·vlt_angle[z,i]. */
  function OwnRow(p: Window, a: Assignment, z: string, i: Hour): real
  {
    SumOver(p.sinks, k => p.linesus(z, k) * a.vltAngle(z, i))
  }

  /** Σ over sinks k of linesus[z,k]·vlt_angle[k,i]. */
  function FarRow(p: Window, a: Assignment, z: string, i: Hour): real
  {
    SumOver(p.sinks, k => p.linesus(z, k) * a.vltAngle(k, i))
  }

  /** Σ over sinks z of linesus[z,k]·vlt_angle[k,i]: what k receives, weighted by its own angle. */
  function FarColumn(p: Window, a: Assignment, k: string, i: Hour): real
  {
    SumOver(p.sinks, z => p.linesus(z, k) * a.vltAngle(k, i))
  }

  lemma FlowSplit(p: Window, a: Assignment, z: string, i: Hour)
    ensures Flow(p, a, z, i) == OwnRow(p, a, z, i) - FarRow(p, a, z, i)
  {
    SumSub(p.sinks, k => p.linesus(z, k) * a.vltAngle(z, i), k => p.linesus(z, k) * a.vltAngle(k, i),
           k => p.linesus(z, k) * (a.vltAngle(z, i) - a.vltAngle(k, i)));
  }

  lemma FarRowsAreFarColumns(p: Window, a: Assignment, i: Hour)
    ensures SumOver(p.sinks, z => FarRow(p, a, z, i)) == SumOver(p.sinks, k => FarColumn(p, a, k, i))
  {
    var S := p.sinks;
    var F := (z: string) => (k: string) => p.linesus(z, k) * a.vltAngle(k, i);
    var G := (k: string) => (z: string) => p.linesus(z, k) * a.vltAngle(k, i);
    forall z ensures FarRow(p, a, z, i) == SumOver(S, F(z)) {
      SumExt(S, F(z), k => p.linesus(z, k) * a.vltAngle(k, i));
    }
    forall k ensures FarColumn(p, a, k, i) == SumOver(S, G(k)) {
      SumExt(S, G(k), z => p.linesus(z, k) * a.vltAngle(k, i));
    }
    SumSwap(S, S, F, G, z => FarRow(p, a, z, i), k => FarColumn(p, a, k, i));
  }

  lemma SymmetricColumn(p: Window, a: Assignment, k: string, i: Hour)
    requires SymmetricSusceptance(p) && k in p.sinks
    ensures FarColumn(p, a, k, i) == OwnRow(p, a, k, i)
  {
    SumExt(p.sinks, z => p.linesus(z, k) * a.vltAngle(k, i), z => p.linesus(k, z) * a.vltAngle(k, i));
  }

  /** With symmetric susceptances the flows out of all sinks sum to zero. */
  lemma NetFlowVanishes(p: Window, a: Assignment, i: Hour)
    requires SymmetricSusceptance(p)
    ensures SumOver(p.sinks, FlowAt(p, a, i)) == 0.0
  {
    var S := p.sinks;
    forall z ensures Flow(p, a, z, i) == OwnRow(p, a, z, i) - FarRow(p, a, z, i) {
      FlowSplit(p, a, z, i);
    }
    SumSub(S, z => OwnRow(p, a, z, i), z => FarRow(p, a, z, i), FlowAt(p, a, i));
    FarRowsAreFarColumns(p, a, i);
    forall k | k in S ensures FarColumn(p, a, k, i) == OwnRow(p, a, k, i) {
      SymmetricColumn(p, a, k, i);
    }
    SumExt(S, k => FarColumn(p, a, k, i), z => OwnRow(p, a, z, i));
  }

  lemma NodeBalance(p: Window, a: Assignment, n: nat, i: Hour)
    requires n < |p.gd| && GDBalance(p, a, n, i)
    ensures FlowAt(p, a, i)(p.gd[n].node)
         == (1.0 - p.transLoss) * NodeOutput(a, i)(p.gd[n]) - NodeDemand(p, i)(p.gd[n])
  {
  }

  lemma FlowsAtDemandNodes(p: Window, a: Assignment, i: Hour)
    ensures SumOver(NodeNames(p.gd), FlowAt(p, a, i)) == SumOver(p.gd, (g: GenNode) => FlowAt(p, a, i)(g.node))
  {
    SumOverNodeNames(p.gd, FlowAt(p, a, i), (g: GenNode) => FlowAt(p, a, i)(g.node));
  }

  lemma DemandNodeBalance(p: Window, a: Assignment, g: GenNode, i: Hour)
    requires g in p.gd
    requires forall n: nat | n < |p.gd| :: GDBalance(p, a, n, i)
    ensures FlowAt(p, a, i)(g.node) == (1.0 - p.transLoss) * NodeOutput(a, i)(g) - NodeDemand(p, i)(g)
  {
    var n :| 0 <= n < |p.gd| && p.gd[n] == g;
    NodeBalance(p, a, n, i);
  }

  lemma DispatchableInjections(p: Window, a: Assignment, i: Hour)
    requires forall n: nat | n < |p.gd| :: GDBalance(p, a, n, i)
    ensures SumOver(p.gd, (g: GenNode) => FlowAt(p, a, i)(g.node))
         == (1.0 - p.transLoss) * SumOver(p.gd, NodeOutput(a, i)) - SumOver(p.gd, NodeDemand(p, i))
  {
    var h := (g: GenNode) => FlowAt(p, a, i)(g.node);
    forall g | g in p.gd
      ensures h(g) == (1.0 - p.transLoss) * NodeOutput(a, i)(g) - NodeDemand(p, i)(g)
    {
      DemandNodeBalance(p, a, g, i);
    }
    SumAffine(p.gd, 1.0 - p.transLoss, NodeOutput(a, i), NodeDemand(p, i), h);
  }

  lemma SinkFlowsSplit(p: Window, a: Assignment, i: Hour)
    requires BalancedNodeSets(p)
    ensures SumOver(p.sinks, FlowAt(p, a, i))
         == SumOver(p.hNodes, FlowAt(p, a, i)) + SumOver(p.sNodes, FlowAt(p, a, i))
          + SumOver(p.tdNodes, FlowAt(p, a, i)) + SumOver(p.tnNodes, FlowAt(p, a, i))
          + SumOver(NodeNames(p.gd), FlowAt(p, a, i))
  {
    var F := FlowAt(p, a, i);
    var hs, ss, td, tn := p.hNodes, p.sNodes, p.tdNodes, p.tnNodes;
    SumPermutation(p.sinks, hs + ss + td + tn + NodeNames(p.gd), F);
    SumAppend(hs + ss + td + tn, NodeNames(p.gd), F);
    SumAppend(hs + ss + td, tn, F);
    SumAppend(hs + ss, td, F);
    SumAppend(hs, ss, F);
  }

  /** The balance rules of one hour. */
  lemma BalancesAtHour(p: Window, a: Assignment, i: Hour)
    requires Balances(p, a) && 1 <= i <= p.horizonHours
    ensures forall z | z in p.hNodes :: HPnodesBalance(p, a, z, i)
    ensures forall z | z in p.sNodes :: SolarnodesBalance(p, a, z, i)
    ensures forall z | z in p.tdNodes :: TDnodesBalance(p, a, z, i)
    ensures forall z | z in p.tnNodes :: TNnodesBalance(p, a, z, i)
    ensures forall n: nat | n < |p.gd| :: GDBalance(p, a, n, i)
  {
  }

  lemma HydroFlows(p: Window, a: Assignment, i: Hour)
    requires forall z | z in p.hNodes :: HPnodesBalance(p, a, z, i)
    ensures SumOver(p.hNodes, FlowAt(p, a, i)) == (1.0 - p.transLoss) * SumOver(p.hNodes, HydroAt(a, i))
  {
    forall z | z in p.hNodes ensures FlowAt(p, a, i)(z) == (1.0 - p.transLoss) * HydroAt(a, i)(z) {
      assert HPnodesBalance(p, a, z, i);
    }
    SumScale(p.hNodes, 1.0 - p.transLoss, HydroAt(a, i), FlowAt(p, a, i));
  }

  lemma SolarFlows(p: Window, a: Assignment, i: Hour)
    requires forall z | z in p.sNodes :: SolarnodesBalance(p, a, z, i)
    ensures SumOver(p.sNodes, FlowAt(p, a, i)) == (1.0 - p.transLoss) * SumOver(p.sNodes, SolarAt(a, i))
  {
    forall z | z in p.sNodes ensures FlowAt(p, a, i)(z) == (1.0 - p.transLoss) * SolarAt(a, i)(z) {
      assert SolarnodesBalance(p, a, z, i);
    }
    SumScale(p.sNodes, 1.0 - p.transLoss, SolarAt(a, i), FlowAt(p, a, i));
  }

  lemma SubstationFlows(p: Window, a: Assignment, i: Hour)
    requires forall z | z in p.tdNodes :: TDnodesBalance(p, a, z, i)
    requires forall z | z in p.tnNodes :: TNnodesBalance(p, a, z, i)
    ensures SumOver(p.tdNodes, FlowAt(p, a, i)) == -1.0 * SumOver(p.tdNodes, DemandAt(p, i))
    ensures SumOver(p.tnNodes, FlowAt(p, a, i)) == 0.0
  {
    forall z | z in p.tdNodes ensures FlowAt(p, a, i)(z) == -1.0 * DemandAt(p, i)(z) {
      assert TDnodesBalance(p, a, z, i);
    }
    SumScale(p.tdNodes, -1.0, DemandAt(p, i), FlowAt(p, a, i));
    forall z | z in p.tnNodes ensures FlowAt(p, a, i)(z) == 0.0 {
      assert TNnodesBalance(p, a, z, i);
    }
    SumZero(p.tnNodes, FlowAt(p, a, i));
  }

  /** In every hour of a feasible window, generation net of transmission losses equals
      demand: (1 − TransLoss)·(hydro + solar + dispatchable output) = Σ demand over the
      load-only and the dispatchable demand nodes. */
  lemma PowerConservation(p: Window, a: Assignment, i: Hour)
    requires Feasible(p, a) && 1 <= i <= p.horizonHours
    requires SymmetricSusceptance(p) && BalancedNodeSets(p)
    ensures (1.0 - p.transLoss)
              * (SumOver(p.hNodes, HydroAt(a, i)) + SumOver(p.sNodes, SolarAt(a, i))
                 + SumOver(p.gd, NodeOutput(a, i)))
         == SumOver(p.tdNodes, DemandAt(p, i)) + SumOver(p.gd, NodeDemand(p, i))
  {
    NetFlowVanishes(p, a, i);
    SinkFlowsSplit(p, a, i);
    BalancesAtHour(p, a, i);
    HydroFlows(p, a, i);
    SolarFlows(p, a, i);
    SubstationFlows(p, a, i);
    FlowsAtDemandNodes(p, a, i);
    DispatchableInjections(p, a, i);
  }
}
