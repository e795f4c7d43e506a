/** The hourly sections of the `.dat` file: for each node, one row per hour of the
    series, `node \t hour \t value`, with the hour counted from 1; and the system-wide
    reserve series, `hour \t value`. */
module HourlySeries {
  import opened DatText
  import opened Frames
  import opened Layout

  /** The row for node z at the 0-based hour h. */
  function SeriesRow(z: string, h: nat, cell: string): string
  {
    z + "\t" + NatToString(h + 1) + "\t" + cell + "\n"
  }

  /** Every listed node is a column of the series. */
  predicate Covers(df: Frame, nodes: seq<string>)
  {
    WellFormed(df) && forall z :: z in nodes ==> z in df.columns
  }

  /** The rows of node z for the first m hours. */
  function NodeRows(df: Frame, z: string, m: nat): (r: seq<string>)
    requires WellFormed(df) && z in df.columns && m <= |df.rows|
    ensures |r| == m
    decreases m
  {
    if m == 0 then [] else NodeRows(df, z, m - 1) + [SeriesRow(z, m - 1, Cell(df, m - 1, z))]
  }

  /** Hour h of node z is written as that node's row for hour h + 1. */
  lemma {:induction false} NodeRowAt(df: Frame, z: string, m: nat, h: nat)
    requires WellFormed(df) && z in df.columns && m <= |df.rows| && h < m
    ensures NodeRows(df, z, m)[h] == SeriesRow(z, h, Cell(df, h, z))
    decreases m
  {
    var front := NodeRows(df, z, m - 1);
    var last := [SeriesRow(z, m - 1, Cell(df, m - 1, z))];
    assert NodeRows(df, z, m) == front + last;
    if h < m - 1 {
      NodeRowAt(df, z, m - 1, h);
      assert (front + last)[h] == front[h];
    }
  }

  /** The rows of the first n nodes, node after node. */
  function SeriesRows(df: Frame, nodes: seq<string>, n: nat): seq<string>
    requires Covers(df, nodes) && n <= |nodes|
    decreases n
  {
    if n == 0 then [] else SeriesRows(df, nodes, n - 1) + NodeRows(df, nodes[n - 1], |df.rows|)
  }

  /** A series section: `param:\tNAME:=` and the rows of every node. */
  function Series(name: string, df: Frame, nodes: seq<string>): seq<string>
    requires Covers(df, nodes)
  {
    ["param:\t" + name + ":=\n"] + SeriesRows(df, nodes, |nodes|) + [";\n\n"]
  }

  /** Each node contributes one row per hour. */
  lemma {:induction false} SeriesRowsLength(df: Frame, nodes: seq<string>, n: nat)
    requires Covers(df, nodes) && n <= |nodes|
    ensures |SeriesRows(df, nodes, n)| == n * |df.rows|
    decreases n
  {
    if n > 0 {
      SeriesRowsLength(df, nodes, n - 1);
      assert (n - 1) * |df.rows| + |df.rows| == n * |df.rows|;
    }
  }

  /** Node outer, hour inner: the row at a·L + h is node a's row for the 1-based hour
      h + 1, carrying that node's value at hour h. */
  lemma {:induction false} SeriesRowAt(df: Frame, nodes: seq<string>, n: nat, a: nat, h: nat)
    requires Covers(df, nodes) && n <= |nodes| && a < n && h < |df.rows|
    ensures a * |df.rows| + h < |SeriesRows(df, nodes, n)|
    ensures SeriesRows(df, nodes, n)[a * |df.rows| + h] == SeriesRow(nodes[a], h, Cell(df, h, nodes[a]))
    decreases n
  {
    var front := SeriesRows(df, nodes, n - 1);
    var block := NodeRows(df, nodes[n - 1], |df.rows|);
    assert SeriesRows(df, nodes, n) == front + block;
    SeriesRowsLength(df, nodes, n - 1);
    var i, base := GridCell(a, h, n, |df.rows|);
    assert |front| == base;
    if a < n - 1 {
      SeriesRowAt(df, nodes, n - 1, a, h);
      assert (front + block)[i] == front[i];
    } else {
      NodeRowAt(df, nodes[n - 1], |df.rows|, h);
      assert (front + block)[i] == block[h];
    }
  }

  /** `gen_units`: the derate columns after the first four (none when there are at most
      four). */
  function GenUnits(derate: Frame): (units: seq<string>)
    ensures WellFormed(derate) ==> Covers(derate, units)
    ensures |units| == if |derate.columns| <= 4 then 0 else |derate.columns| - 4
    ensures forall k :: 0 <= k < |units| ==> units[k] == derate.columns[k + 4]
  {
    if |derate.columns| <= 4 then [] else derate.columns[4..]
  }

  /** The reserve rows for the first n hours. */
  function ReserveRows(res: seq<string>, n: nat): (r: seq<string>)
    requires n <= |res|
    ensures |r| == n
    ensures forall h :: 0 <= h < n ==> r[h] == NatToString(h + 1) + "\t" + res[h] + "\n"
    decreases n
  {
    if n == 0 then [] else ReserveRows(res, n - 1) + [NatToString(n) + "\t" + res[n - 1] + "\n"]
  }

  /** The reserve section: one row per hour of the load series. */
  function Reserves(res: seq<string>, hours: nat): seq<string>
    requires hours <= |res|
  {
    ["param\tSimReserves:=\n"] + ReserveRows(res, hours) + [";\n\n"]
  }
}
