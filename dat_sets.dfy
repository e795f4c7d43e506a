/** The set sections of the `.dat` file: a block `set NAME :=` followed by the members,
    each written with a trailing space, and closed by `;`. The generator sets filter the
    generator table by node or by fuel type and write the sanitised unit names. */
module DatSets {
  import opened DatText
  import opened OrderedSets
  import opened Frames

  /** Each string followed by sfx, in order. */
  function Suffixed(xs: seq<string>, sfx: string): (r: seq<string>)
    ensures |r| == |xs|
    ensures forall k :: 0 <= k < |xs| ==> r[k] == xs[k] + sfx
    decreases |xs|
  {
    if xs == [] then [] else Suffixed(xs[..|xs| - 1], sfx) + [xs[|xs| - 1] + sfx]
  }

  /** Writing one more string appends one more chunk. */
  lemma SuffixedSnoc(xs: seq<string>, y: string, sfx: string)
    ensures Suffixed(xs + [y], sfx) == Suffixed(xs, sfx) + [y + sfx]
  {
    assert (xs + [y])[..|xs|] == xs;
  }

  function SetHeader(name: string): string
  {
    "set " + name + " :=\n"
  }

  const SetEnd := ";\n\n"

  /** `set NAME :=\n` + `m ` for each member m + `;\n\n`. */
  function SetBlock(name: string, members: seq<string>): seq<string>
  {
    [SetHeader(name)] + Suffixed(members, " ") + [SetEnd]
  }

  /** The reading side: the members of a block are its inner chunks with the trailing
      separator dropped. */
  function BlockMembers(block: seq<string>): (ms: seq<string>)
    requires |block| >= 2
    requires forall k :: 1 <= k < |block| - 1 ==> |block[k]| >= 1
  {
    seq(|block| - 2, k requires 0 <= k < |block| - 2 => block[k + 1][..|block[k + 1]| - 1])
  }

  /** A set block is read back as the members it was written from, in the same order. */
  lemma SetBlockMembers(name: string, members: seq<string>)
    ensures |SetBlock(name, members)| == |members| + 2
    ensures SetBlock(name, members)[0] == SetHeader(name)
    ensures SetBlock(name, members)[|members| + 1] == SetEnd
    ensures BlockMembers(SetBlock(name, members)) == members
  {
    var b := SetBlock(name, members);
    SetBlockInner(name, members);
    var ms := BlockMembers(b);
    forall k | 0 <= k < |members| ensures ms[k] == members[k] {
      DropSeparator(members[k]);
    }
  }

  /** Dropping the trailing space of a written member gives the member back. */
  lemma DropSeparator(m: string)
    ensures (m + " ")[..|m + " "| - 1] == m
  {
    assert (m + " ")[..|m|] == m;
  }

  /** Chunk k of a set block, for 1 <= k <= |members|, is member k - 1 with its trailing space. */
  lemma SetBlockInner(name: string, members: seq<string>)
    ensures |SetBlock(name, members)| == |members| + 2
    ensures SetBlock(name, members)[0] == SetHeader(name)
    ensures SetBlock(name, members)[|members| + 1] == SetEnd
    ensures forall k :: 1 <= k <= |members| ==> SetBlock(name, members)[k] == members[k - 1] + " "
  {
    var inner := Suffixed(members, " ");
    assert SetBlock(name, members) == [SetHeader(name)] + inner + [SetEnd];
  }

  /** Sanitised names of the generators, among the first n rows, whose column c holds v. */
  function UnitNames(df: Frame, c: string, v: string, n: nat): seq<string>
    requires HasGenColumns(df) && c in df.columns && n <= |df.rows|
    decreases n
  {
    if n == 0 then []
    else UnitNames(df, c, v, n - 1)
         + (if Cell(df, n - 1, c) == v then [Sanitize(Cell(df, n - 1, "name"))] else [])
  }

  /** The filtered names are the sanitised names of exactly the matching rows, in row order. */
  lemma {:induction false} UnitNamesOfMatchingRows(df: Frame, c: string, v: string, n: nat)
    requires HasGenColumns(df) && c in df.columns && n <= |df.rows|
    ensures |UnitNames(df, c, v, n)| == |MatchingRows(df, c, v, n)|
    ensures forall k :: 0 <= k < |UnitNames(df, c, v, n)| ==>
              MatchingRows(df, c, v, n)[k] < |df.rows|
              && UnitNames(df, c, v, n)[k] == Sanitize(Cell(df, MatchingRows(df, c, v, n)[k], "name"))
    decreases n
  {
    if n > 0 {
      UnitNamesOfMatchingRows(df, c, v, n - 1);
      MatchingRowsExact(df, c, v, n - 1);
    }
  }

  /** Every written unit name comes from a generator that passed the filter, is free of
      spaces and is as long as that generator's name. */
  lemma UnitNameSource(df: Frame, c: string, v: string, k: nat) returns (g: nat)
    requires HasGenColumns(df) && c in df.columns
    requires k < |UnitNames(df, c, v, |df.rows|)|
    ensures g < |df.rows| && Cell(df, g, c) == v
    ensures UnitNames(df, c, v, |df.rows|)[k] == Sanitize(Cell(df, g, "name"))
    ensures ' ' !in UnitNames(df, c, v, |df.rows|)[k]
    ensures |UnitNames(df, c, v, |df.rows|)[k]| == |Cell(df, g, "name")|
  {
    UnitNamesOfMatchingRows(df, c, v, |df.rows|);
    MatchingRowsExact(df, c, v, |df.rows|);
    g := MatchingRows(df, c, v, |df.rows|)[k];
  }

  /** The name of a generator set block: `GD%dGens` numbered from the position of z in
      its node list (`list.index`), counted from 1. */
  function NodeSetName(prefix: string, nodes: seq<string>, z: string): string
    requires z in nodes
  {
    prefix + NatToString(IndexOf(nodes, z) + 1) + "Gens"
  }

  /** The block of the generators at node z. */
  function NodeGenBlock(prefix: string, nodes: seq<string>, df: Frame, z: string): seq<string>
    requires HasGenColumns(df) && z in nodes
  {
    SetBlock(NodeSetName(prefix, nodes, z), UnitNames(df, "node", z, |df.rows|))
  }

  /** The blocks of the first n nodes, in list order. */
  function NodeGenBlocks(prefix: string, nodes: seq<string>, df: Frame, n: nat): seq<string>
    requires HasGenColumns(df) && n <= |nodes|
    decreases n
  {
    if n == 0 then []
    else NodeGenBlocks(prefix, nodes, df, n - 1) + NodeGenBlock(prefix, nodes, df, nodes[n - 1])
  }

  /** One more node appends that node's block. */
  lemma NodeGenBlocksSnoc(prefix: string, nodes: seq<string>, df: Frame, k: nat)
    requires HasGenColumns(df) && k < |nodes|
    ensures NodeGenBlocks(prefix, nodes, df, k + 1)
         == NodeGenBlocks(prefix, nodes, df, k) + NodeGenBlock(prefix, nodes, df, nodes[k])
  {
  }

  /** With a duplicate-free node list, the k-th node's block is named GD<k+1>Gens and
      lists exactly the units at that node. */
  lemma NodeGenBlockOfNode(prefix: string, nodes: seq<string>, df: Frame, k: nat)
    requires HasGenColumns(df) && Distinct(nodes) && k < |nodes|
    ensures NodeSetName(prefix, nodes, nodes[k]) == prefix + NatToString(k + 1) + "Gens"
    ensures BlockMembers(NodeGenBlock(prefix, nodes, df, nodes[k])) == UnitNames(df, "node", nodes[k], |df.rows|)
  {
    IndexOfDistinct(nodes, k);
    SetBlockMembers(NodeSetName(prefix, nodes, nodes[k]), UnitNames(df, "node", nodes[k], |df.rows|));
  }

  /** In a duplicate-free list, `list.index` of the k-th element is k. */
  lemma IndexOfDistinct(nodes: seq<string>, k: nat)
    requires Distinct(nodes) && k < |nodes|
    ensures IndexOf(nodes, nodes[k]) == k
  {
    var j := IndexOf(nodes, nodes[k]);
    assert nodes[j] == nodes[k];
  }

  /** With a duplicate-free node list, no two nodes share a block name. */
  lemma NodeSetNamesDistinct(prefix: string, nodes: seq<string>, k: nat, k': nat)
    requires Distinct(nodes) && k < |nodes| && k' < |nodes| && k != k'
    ensures NodeSetName(prefix, nodes, nodes[k]) != NodeSetName(prefix, nodes, nodes[k'])
  {
    IndexOfDistinct(nodes, k);
    IndexOfDistinct(nodes, k');
    NumberedNameInjective(prefix, NatToString(k + 1), NatToString(k' + 1));
    ParseNatToString(k + 1);
    ParseNatToString(k' + 1);
  }

  /** The number in a block name can be read back between the prefix and `Gens`. */
  lemma NumberedNameInjective(prefix: string, a: string, b: string)
    ensures prefix + a + "Gens" == prefix + b + "Gens" ==> a == b
  {
    var s := prefix + a + "Gens";
    var t := prefix + b + "Gens";
    if s == t {
      assert a == s[|prefix|..|prefix| + |a|];
      assert b == t[|prefix|..|prefix| + |b|];
    }
  }

  /** The four fuel-type sets, in the order the file declares them. */
  function FuelBlocks(df: Frame): seq<string>
    requires HasGenColumns(df)
  {
    SetBlock("Gas", UnitNames(df, "typ", "gas", |df.rows|))
    + SetBlock("Slack", UnitNames(df, "typ", "slack", |df.rows|))
    + SetBlock("Geothermal", UnitNames(df, "typ", "geothermal", |df.rows|))
    + SetBlock("Hydrogen", UnitNames(df, "typ", "hydrogen", |df.rows|))
  }

  /** A generator is listed in the fuel set of its own type only; one whose type is none
      of the four is listed in none of them. */
  lemma FuelSetMembership(df: Frame, g: nat, fuel: string)
    requires HasGenColumns(df) && g < |df.rows|
    ensures g in MatchingRows(df, "typ", fuel, |df.rows|) <==> Cell(df, g, "typ") == fuel
    ensures Cell(df, g, "typ") !in {"gas", "slack", "geothermal", "hydrogen"} ==>
              && g !in MatchingRows(df, "typ", "gas", |df.rows|)
              && g !in MatchingRows(df, "typ", "slack", |df.rows|)
              && g !in MatchingRows(df, "typ", "geothermal", |df.rows|)
              && g !in MatchingRows(df, "typ", "hydrogen", |df.rows|)
  {
    MatchingRowsExact(df, "typ", fuel, |df.rows|);
    MatchingRowsExact(df, "typ", "gas", |df.rows|);
    MatchingRowsExact(df, "typ", "slack", |df.rows|);
    MatchingRowsExact(df, "typ", "geothermal", |df.rows|);
    MatchingRowsExact(df, "typ", "hydrogen", |df.rows|);
  }

  /** The node lists of the system, as the writer is given them. */
  datatype NodeLists = NodeLists(
    h: seq<string>,
    s: seq<string>,
    gd: seq<string>,
    gn: seq<string>,
    td: seq<string>,
    tn: seq<string>)

  /** `all_nodes`: hydro, generators without demand, generators with demand, transformers
      without demand, transformers with demand, solar. */
  function AllNodes(l: NodeLists): seq<string>
  {
    l.h + l.gn + l.gd + l.tn + l.td + l.s
  }

  /** `d_nodes`: the nodes with demand. */
  function DemandNodes(l: NodeLists): seq<string>
  {
    l.gd + l.td
  }

  /** The ten node-set blocks. */
  function NodeSetBlocks(l: NodeLists): seq<string>
  {
    SetBlock("nodes", AllNodes(l)) + SetBlock("sources", AllNodes(l)) + SetBlock("sinks", AllNodes(l))
    + SetBlock("h_nodes", l.h) + SetBlock("s_nodes", l.s) + SetBlock("d_nodes", DemandNodes(l))
    + SetBlock("gd_nodes", l.gd) + SetBlock("gn_nodes", l.gn)
    + SetBlock("td_nodes", l.td) + SetBlock("tn_nodes", l.tn)
  }

  /** The nodes, sources and sinks blocks all list every node of every kind, in the same
      order; all_nodes holds each kind's list whole. */
  lemma NodeSetsAgree(l: NodeLists)
    ensures BlockMembers(SetBlock("nodes", AllNodes(l))) == AllNodes(l)
    ensures BlockMembers(SetBlock("sources", AllNodes(l))) == AllNodes(l)
    ensures BlockMembers(SetBlock("sinks", AllNodes(l))) == AllNodes(l)
    ensures multiset(AllNodes(l)) == multiset(l.h) + multiset(l.gn) + multiset(l.gd)
                                     + multiset(l.tn) + multiset(l.td) + multiset(l.s)
  {
    SetBlockMembers("nodes", AllNodes(l));
    SetBlockMembers("sources", AllNodes(l));
    SetBlockMembers("sinks", AllNodes(l));
    AllNodesMultiset(l);
  }

  /** all_nodes holds each kind's list whole. */
  lemma AllNodesMultiset(l: NodeLists)
    ensures multiset(AllNodes(l)) == multiset(l.h) + multiset(l.gn) + multiset(l.gd)
                                     + multiset(l.tn) + multiset(l.td) + multiset(l.s)
  {
  }
}
