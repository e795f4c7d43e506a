/** The `.dat` writer as it runs: each section is written by loops that append chunks to
    the file buffer, and each method is proved to append exactly its section. */
module DatWriter {
  import opened DatText
  import opened Frames
  import opened PathTable
  import opened DatSets
  import opened DatTables
  import opened HourlySeries
  import opened DatFile
  import opened Layout

  /** `set NAME :=`, each member followed by a space, `;`. */
  method WriteSet(f0: seq<string>, name: string, members: seq<string>) returns (f: seq<string>)
    ensures f == f0 + SetBlock(name, members)
  {
    f := f0 + [SetHeader(name)];
    ghost var head := f;
    for k := 0 to |members|
      invariant f == head + Suffixed(members[..k], " ")
    {
      assert members[..k + 1] == members[..k] + [members[k]];
      SuffixedSnoc(members[..k], members[k], " ");
      AppendAssoc(head, Suffixed(members[..k], " "), [members[k] + " "]);
      f := f + [members[k] + " "];
    }
    assert members[..|members|] == members;
    f := f + [SetEnd];
    ClosedSection(f0, SetHeader(name), Suffixed(members, " "), SetEnd);
  }

  /** A generator set: the sanitised name of every unit whose column c holds v. */
  method WriteUnitSet(f0: seq<string>, name: string, df: Frame, c: string, v: string) returns (f: seq<string>)
    requires HasGenColumns(df) && c in df.columns
    ensures f == f0 + SetBlock(name, UnitNames(df, c, v, |df.rows|))
  {
    f := f0 + [SetHeader(name)];
    ghost var head := f;
    for gen := 0 to |df.rows|
      invariant f == head + Suffixed(UnitNames(df, c, v, gen), " ")
    {
      if Cell(df, gen, c) == v {
        var unitName := Sanitize(Cell(df, gen, "name"));
        SuffixedSnoc(UnitNames(df, c, v, gen), unitName, " ");
        AppendAssoc(head, Suffixed(UnitNames(df, c, v, gen), " "), [unitName + " "]);
        f := f + [unitName + " "];
      } else {
        assert UnitNames(df, c, v, gen + 1) == UnitNames(df, c, v, gen);
      }
    }
    f := f + [SetEnd];
    ClosedSection(f0, SetHeader(name), Suffixed(UnitNames(df, c, v, |df.rows|), " "), SetEnd);
  }

  /** The generator set of node z, numbered by the position of z in its list
      (`list.index`), counted from 1. */
  method WriteNodeGenSet(f0: seq<string>, prefix: string, nodes: seq<string>, df: Frame, z: string)
    returns (f: seq<string>)
    requires HasGenColumns(df) && z in nodes
    ensures f == f0 + NodeGenBlock(prefix, nodes, df, z)
  {
    var zInt := IndexOf(nodes, z);
    f := WriteUnitSet(f0, prefix + NatToString(zInt + 1) + "Gens", df, "node", z);
  }

  /** One generator set per node, in list order. */
  method WriteNodeGenSets(f0: seq<string>, prefix: string, nodes: seq<string>, df: Frame) returns (f: seq<string>)
    requires HasGenColumns(df)
    ensures f == f0 + NodeGenBlocks(prefix, nodes, df, |nodes|)
  {
    f := f0;
    for k := 0 to |nodes|
      invariant f == f0 + NodeGenBlocks(prefix, nodes, df, k)
    {
      NodeGenBlocksSnoc(prefix, nodes, df, k);
      AppendAssoc(f0, NodeGenBlocks(prefix, nodes, df, k), NodeGenBlock(prefix, nodes, df, nodes[k]));
      f := WriteNodeGenSet(f, prefix, nodes, df, nodes[k]);
    }
  }

  /** The four fuel-type sets. */
  method WriteFuelSets(f0: seq<string>, df: Frame) returns (f: seq<string>)
    requires HasGenColumns(df)
    ensures f == f0 + FuelBlocks(df)
  {
    var n := |df.rows|;
    ghost var gas := SetBlock("Gas", UnitNames(df, "typ", "gas", n));
    ghost var slack := SetBlock("Slack", UnitNames(df, "typ", "slack", n));
    ghost var geo := SetBlock("Geothermal", UnitNames(df, "typ", "geothermal", n));
    ghost var hyd := SetBlock("Hydrogen", UnitNames(df, "typ", "hydrogen", n));
    f := WriteUnitSet(f0, "Gas", df, "typ", "gas");
    f := WriteUnitSet(f, "Slack", df, "typ", "slack");
    AppendAssoc(f0, gas, slack);
    f := WriteUnitSet(f, "Geothermal", df, "typ", "geothermal");
    AppendAssoc(f0, gas + slack, geo);
    f := WriteUnitSet(f, "Hydrogen", df, "typ", "hydrogen");
    AppendAssoc(f0, gas + slack + geo, hyd);
  }

  /** The ten node sets. */
  method WriteNodeSets(f0: seq<string>, l: NodeLists) returns (f: seq<string>)
    ensures f == f0 + NodeSetBlocks(l)
  {
    var allNodes := l.h + l.gn + l.gd + l.tn + l.td + l.s;
    var dNodes := l.gd + l.td;
    ghost var done: seq<string> := [];
    f := WriteSet(f0, "nodes", allNodes);
    done := SetBlock("nodes", allNodes);
    f := WriteSet(f, "sources", allNodes);
    AppendAssoc(f0, done, SetBlock("sources", allNodes));
    done := done + SetBlock("sources", allNodes);
    f := WriteSet(f, "sinks", allNodes);
    AppendAssoc(f0, done, SetBlock("sinks", allNodes));
    done := done + SetBlock("sinks", allNodes);
    f := WriteSet(f, "h_nodes", l.h);
    AppendAssoc(f0, done, SetBlock("h_nodes", l.h));
    done := done + SetBlock("h_nodes", l.h);
    f := WriteSet(f, "s_nodes", l.s);
    AppendAssoc(f0, done, SetBlock("s_nodes", l.s));
    done := done + SetBlock("s_nodes", l.s);
    f := WriteSet(f, "d_nodes", dNodes);
    AppendAssoc(f0, done, SetBlock("d_nodes", dNodes));
    done := done + SetBlock("d_nodes", dNodes);
    f := WriteSet(f, "gd_nodes", l.gd);
    AppendAssoc(f0, done, SetBlock("gd_nodes", l.gd));
    done := done + SetBlock("gd_nodes", l.gd);
    f := WriteSet(f, "gn_nodes", l.gn);
    AppendAssoc(f0, done, SetBlock("gn_nodes", l.gn));
    done := done + SetBlock("gn_nodes", l.gn);
    f := WriteSet(f, "td_nodes", l.td);
    AppendAssoc(f0, done, SetBlock("td_nodes", l.td));
    done := done + SetBlock("td_nodes", l.td);
    f := WriteSet(f, "tn_nodes", l.tn);
    AppendAssoc(f0, done, SetBlock("tn_nodes", l.tn));
  }

  /** The scalar parameters; the hour count is computed from the day count. */
  method WriteScalars(f0: seq<string>, sc: Scalars) returns (f: seq<string>)
    ensures f == f0 + ScalarChunks(sc)
  {
    var simHours := sc.simDays * 24;
    f := f0 + [SimHoursHead + NatToString(simHours) + ";"] + ["\n"];
    f := f + [SimDaysHead + NatToString(sc.simDays) + ";"] + ["\n\n"];
    f := f + [HorizonHead + NatToString(sc.horizonHours) + ";"] + ["\n\n"];
    f := f + [TransLossHead + sc.transLoss + ";"] + ["\n\n"];
    f := f + [N1Head + sc.n1criterion + ";"] + ["\n\n"];
    f := f + [SpinHead + sc.spinMargin + ";"] + ["\n\n"];
  }

  /** The header of the generator table: every column but the name, each with a tab. */
  method WriteGenHeader(f0: seq<string>, cols: seq<string>) returns (f: seq<string>)
    ensures f == f0 + Suffixed(NonNameColumns(cols), "\t")
  {
    f := f0;
    for k := 0 to |cols|
      invariant f == f0 + Suffixed(NonNameColumns(cols[..k]), "\t")
    {
      assert cols[..k + 1][..k] == cols[..k];
      if cols[k] != "name" {
        SuffixedSnoc(NonNameColumns(cols[..k]), cols[k], "\t");
        AppendAssoc(f0, Suffixed(NonNameColumns(cols[..k]), "\t"), [cols[k] + "\t"]);
        f := f + [cols[k] + "\t"];
      }
    }
    assert cols[..|cols|] == cols;
  }

  /** One unit's row: every column in order, the name sanitised, then a newline. */
  method WriteGenRow(f0: seq<string>, df: Frame, i: nat) returns (f: seq<string>)
    requires WellFormed(df) && i < |df.rows|
    ensures f == f0 + (RowChunks(df, i, |df.columns|) + ["\n"])
  {
    var cols := df.columns;
    f := f0;
    for k := 0 to |cols|
      invariant f == f0 + RowChunks(df, i, k)
    {
      AppendAssoc(f0, RowChunks(df, i, k), [GenCell(df, i, cols[k])]);
      if cols[k] == "name" {
        var unitName := Sanitize(Cell(df, i, "name"));
        f := f + [unitName + "\t"];
      } else {
        f := f + [Cell(df, i, cols[k]) + "\t"];
      }
    }
    AppendAssoc(f0, RowChunks(df, i, |cols|), ["\n"]);
    f := f + ["\n"];
  }

  /** Every unit's row, in table order. */
  method WriteGenRows(f0: seq<string>, df: Frame) returns (f: seq<string>)
    requires WellFormed(df)
    ensures f == f0 + GenRows(df, |df.rows|)
  {
    f := f0;
    for i := 0 to |df.rows|
      invariant f == f0 + GenRows(df, i)
    {
      GenRowsSnoc(df, i);
      AppendAssoc(f0, GenRows(df, i), RowChunks(df, i, |df.columns|) + ["\n"]);
      f := WriteGenRow(f, df, i);
    }
  }

  /** The generator table: the header, then one row per unit. */
  method WriteGenTable(f0: seq<string>, df: Frame) returns (f: seq<string>)
    requires WellFormed(df)
    ensures f == f0 + GenTable(df)
  {
    ghost var header := [GenTableHead] + Suffixed(NonNameColumns(df.columns), "\t") + [GenTableOpen];
    f := WriteGenHeader(f0 + [GenTableHead], df.columns);
    f := f + [GenTableOpen];
    ClosedSection(f0, GenTableHead, Suffixed(NonNameColumns(df.columns), "\t"), GenTableOpen);
    f := WriteGenRows(f, df);
    f := f + [";\n\n"];
    AppendAssoc(f0, header, GenRows(df, |df.rows|));
    AppendAssoc(f0, header + GenRows(df, |df.rows|), [";\n\n"]);
  }

  /** The pairs of source z with the first n sinks, each with its line data. */
  method WriteSinkRows(f0: seq<string>, paths: seq<Path>, nodes: seq<string>, z: string) returns (f: seq<string>)
    ensures f == f0 + SinkRows(paths, nodes, z, |nodes|)
  {
    f := f0;
    for b := 0 to |nodes|
      invariant f == f0 + SinkRows(paths, nodes, z, b)
    {
      var x := nodes[b];
      ghost var before := f;
      f := f + [z + "\t" + x + "\t"];
      var matched, pMatch := FindLastMatch(paths, z, x);
      var value;
      if matched {
        value := paths[pMatch].linemva + "\t" + paths[pMatch].linesus + "\n";
      } else {
        value := "0" + "\t" + "0" + "\n";
      }
      assert value == LineValue(paths, z, x);
      f := f + [value];
      AppendAssoc(before, [PairLabel(z, x)], [value]);
      AppendAssoc(f0, SinkRows(paths, nodes, z, b), [PairLabel(z, x), value]);
    }
  }

  /** The line table: for every source and every sink, the pair and the line data of the
      last path joining them, or `0 0`. */
  method WriteLineTable(f0: seq<string>, paths: seq<Path>, nodes: seq<string>) returns (f: seq<string>)
    ensures f == f0 + LineTable(paths, nodes)
  {
    f := f0 + [LineHeader];
    ghost var head := f;
    for a := 0 to |nodes|
      invariant f == head + LineRows(paths, nodes, a)
    {
      AppendAssoc(head, LineRows(paths, nodes, a), SinkRows(paths, nodes, nodes[a], |nodes|));
      f := WriteSinkRows(f, paths, nodes, nodes[a]);
    }
    f := f + [";\n\n"];
    ClosedSection(f0, LineHeader, LineRows(paths, nodes, |nodes|), ";\n\n");
  }

  /** The rows of node z: one per hour, hours counted from 1. */
  method WriteNodeRows(f0: seq<string>, df: Frame, z: string) returns (f: seq<string>)
    requires WellFormed(df) && z in df.columns
    ensures f == f0 + NodeRows(df, z, |df.rows|)
  {
    f := f0;
    for h := 0 to |df.rows|
      invariant f == f0 + NodeRows(df, z, h)
    {
      AppendAssoc(f0, NodeRows(df, z, h), [SeriesRow(z, h, Cell(df, h, z))]);
      f := f + [z + "\t" + NatToString(h + 1) + "\t" + Cell(df, h, z) + "\n"];
    }
  }

  /** An hourly series: node by node, one row per hour. */
  method WriteSeries(f0: seq<string>, name: string, df: Frame, nodes: seq<string>) returns (f: seq<string>)
    requires Covers(df, nodes)
    ensures f == f0 + Series(name, df, nodes)
  {
    f := f0 + ["param:\t" + name + ":=\n"];
    ghost var head := f;
    for a := 0 to |nodes|
      invariant f == head + SeriesRows(df, nodes, a)
    {
      AppendAssoc(head, SeriesRows(df, nodes, a), NodeRows(df, nodes[a], |df.rows|));
      f := WriteNodeRows(f, df, nodes[a]);
    }
    f := f + [";\n\n"];
    ClosedSection(f0, "param:\t" + name + ":=\n", SeriesRows(df, nodes, |nodes|), ";\n\n");
  }

  /** The reserve series: one row per hour of the load series. */
  method WriteReserves(f0: seq<string>, res: seq<string>, hours: nat) returns (f: seq<string>)
    requires hours <= |res|
    ensures f == f0 + Reserves(res, hours)
  {
    f := f0 + ["param\tSimReserves:=\n"];
    ghost var head := f;
    for h := 0 to hours
      invariant f == head + ReserveRows(res, h)
    {
      AppendAssoc(head, ReserveRows(res, h), [NatToString(h + 1) + "\t" + res[h] + "\n"]);
      f := f + [NatToString(h + 1) + "\t" + res[h] + "\n"];
    }
    f := f + [";\n\n"];
    ClosedSection(f0, "param\tSimReserves:=\n", ReserveRows(res, hours), ";\n\n");
  }

  /** The generator sets: by node with demand, by node without demand, by fuel type. */
  method WriteGenSets(f0: seq<string>, d: DatInput, gen: Frame) returns (f: seq<string>)
    requires ValidInput(d) && gen == PrepareGenFrame(d.gen)
    ensures f == f0 + GenSetSections(d)
  {
    ghost var gd := NodeGenBlocks("GD", d.nodes.gd, gen, |d.nodes.gd|);
    ghost var gn := NodeGenBlocks("GN", d.nodes.gn, gen, |d.nodes.gn|);
    f := WriteNodeGenSets(f0, "GD", d.nodes.gd, gen);
    f := WriteNodeGenSets(f, "GN", d.nodes.gn, gen);
    AppendAssoc(f0, gd, gn);
    f := WriteFuelSets(f, gen);
    AppendAssoc(f0, gd + gn, FuelBlocks(gen));
  }

  /** The hourly series and the reserves. */
  method WriteSeriesSections(f0: seq<string>, d: DatInput) returns (f: seq<string>)
    requires ValidInput(d)
    ensures f == f0 + SeriesSections(d)
  {
    var l := d.nodes;
    ghost var done := Series("SimDemand", d.load, DemandNodes(l));
    f := WriteSeries(f0, "SimDemand", d.load, l.gd + l.td);
    f := WriteSeries(f, "SimHydro", d.hydro, l.h);
    AppendAssoc(f0, done, Series("SimHydro", d.hydro, l.h));
    done := done + Series("SimHydro", d.hydro, l.h);
    f := WriteSeries(f, "SimSolar", d.solar, l.s);
    AppendAssoc(f0, done, Series("SimSolar", d.solar, l.s));
    done := done + Series("SimSolar", d.solar, l.s);
    f := WriteSeries(f, "SimDeratef", d.derate, GenUnits(d.derate));
    AppendAssoc(f0, done, Series("SimDeratef", d.derate, GenUnits(d.derate)));
    done := done + Series("SimDeratef", d.derate, GenUnits(d.derate));
    f := WriteReserves(f, d.reserves, |d.load.rows|);
    AppendAssoc(f0, done, Reserves(d.reserves, |d.load.rows|));
  }

  /** The whole file, written into an empty buffer: the cost and cold-start columns are
      added to the generator table, the path list is doubled, and the sections are
      written in order. */
  method WriteDat(d: DatInput) returns (f: seq<string>)
    requires ValidInput(d)
    ensures f == DatChunks(d)
  {
    var gen := PrepareGenFrame(d.gen);
    var paths := Paths(d.trans);
    var l := d.nodes;
    var allNodes := l.h + l.gn + l.gd + l.tn + l.td + l.s;
    f := WriteGenSets([], d, gen);
    assert f == GenSetSections(d);
    f := WriteNodeSets(f, l);
    f := WriteScalars(f, d.scalars);
    f := WriteGenTable(f, gen);
    f := WriteLineTable(f, paths, allNodes);
    f := WriteSeriesSections(f, d);
  }
}
