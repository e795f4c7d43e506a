/** The whole `.dat` file: its inputs, the sections in the order they are written, and
    how the node sets it declares meet the node balance of the unit-commitment model. */
module DatFile {
  import opened Frames
  import opened PathTable
  import opened DatSets
  import opened DatTables
  import opened HourlySeries
  import opened UnitCommitment
  import opened PowerBalance

  /** What the writer reads: the generator table, the derate, hydro, solar and load
      series, the hourly reserves, the one-way transmission paths, the node lists and
      the scalar parameters. */
  datatype DatInput = DatInput(
    gen: Frame,
    derate: Frame,
    hydro: Frame,
    solar: Frame,
    load: Frame,
    reserves: seq<string>,
    trans: seq<Path>,
    nodes: NodeLists,
    scalars: Scalars)

  /** The generator table has its name, type and node columns; every node written in a
      series is a column of that series; the reserves cover every hour of the load. */
  predicate ValidInput(d: DatInput)
  {
    && HasGenColumns(d.gen)
    && WellFormed(d.derate)
    && Covers(d.hydro, d.nodes.h)
    && Covers(d.solar, d.nodes.s)
    && Covers(d.load, DemandNodes(d.nodes))
    && |d.reserves| == |d.load.rows|
  }

  /** The generator sets: by node with demand, by node without demand, by fuel type. */
  function GenSetSections(d: DatInput): seq<string>
    requires ValidInput(d)
  {
    var g := PrepareGenFrame(d.gen);
    NodeGenBlocks("GD", d.nodes.gd, g, |d.nodes.gd|) + NodeGenBlocks("GN", d.nodes.gn, g, |d.nodes.gn|)
    + FuelBlocks(g)
  }

  /** The four hourly series and the reserves. */
  function SeriesSections(d: DatInput): seq<string>
    requires ValidInput(d)
  {
    Series("SimDemand", d.load, DemandNodes(d.nodes)) + Series("SimHydro", d.hydro, d.nodes.h)
    + Series("SimSolar", d.solar, d.nodes.s) + Series("SimDeratef", d.derate, GenUnits(d.derate))
    + Reserves(d.reserves, |d.load.rows|)
  }

  /** The file, section by section, in the order it is written. */
  function DatChunks(d: DatInput): seq<string>
    requires ValidInput(d)
  {
    GenSetSections(d) + NodeSetBlocks(d.nodes) + ScalarChunks(d.scalars)
    + GenTable(PrepareGenFrame(d.gen)) + LineTable(Paths(d.trans), AllNodes(d.nodes))
    + SeriesSections(d)
  }

  /** A unit-commitment window loaded from the file has as its sinks every node, and
      balance rules for the hydro, solar, transformer and generator-with-demand nodes.
      Each sink has exactly one balance rule exactly when there are no generator nodes
      without demand, whose sets the file declares but for which the model has no rule. */
  lemma WrittenNodeSetsBalance(l: NodeLists, p: Window)
    requires p.sinks == AllNodes(l)
    requires p.hNodes == l.h && p.sNodes == l.s && p.tdNodes == l.td && p.tnNodes == l.tn
    requires NodeNames(p.gd) == l.gd
    ensures BalancedNodeSets(p) <==> l.gn == []
  {
    SinksBalance(l.h, l.gn, l.gd, l.tn, l.td, l.s);
    assert p.sinks == l.h + l.gn + l.gd + l.tn + l.td + l.s;
    assert p.hNodes + p.sNodes + p.tdNodes + p.tnNodes + NodeNames(p.gd) == l.h + l.s + l.td + l.tn + l.gd;
  }

  /** The concatenated lists hold the same names, counted with multiplicity, exactly
      when the list left out of the second is empty. */
  lemma SinksBalance(h: seq<string>, gn: seq<string>, gd: seq<string>, tn: seq<string>, td: seq<string>, s: seq<string>)
    ensures multiset(h + gn + gd + tn + td + s) == multiset(h + s + td + tn + gd) <==> gn == []
  {
    var sinks := multiset(h + gn + gd + tn + td + s);
    var balanced := multiset(h + s + td + tn + gd);
    if gn == [] {
      forall x ensures sinks[x] == balanced[x] {
        assert sinks[x] == multiset(h)[x] + multiset(gd)[x] + multiset(tn)[x] + multiset(td)[x] + multiset(s)[x];
      }
      assert sinks == balanced;
    } else {
      var x := gn[0];
      assert multiset(gn)[x] > 0;
      assert sinks[x] == balanced[x] + multiset(gn)[x];
    }
  }
}
