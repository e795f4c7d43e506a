/** The generator table as the writer sees it: a frame of named columns whose cells are
    the tokens `str(df_gen.loc[i, c])` prints, the three columns added after loading
    (`gen_cost`, `ini_on`, `ini_mwh`), and the row filters behind the generator sets. */
module Frames {

  datatype Frame = Frame(columns: seq<string>, rows: seq<seq<string>>)

  /** Every row has one cell per column. */
  predicate WellFormed(df: Frame)
  {
    forall k :: 0 <= k < |df.rows| ==> |df.rows[k]| == |df.columns|
  }

  /** Position of the first occurrence of x in xs (`list.index`). */
  function IndexOf(xs: seq<string>, x: string): (k: nat)
    requires x in xs
    ensures k < |xs| && xs[k] == x
    ensures forall j :: 0 <= j < k ==> xs[j] != x
  {
    if xs[0] == x then 0 else 1 + IndexOf(xs[1..], x)
  }

  /** `df.loc[k, c]`. */
  function Cell(df: Frame, k: nat, c: string): string
    requires WellFormed(df) && k < |df.rows| && c in df.columns
  {
    df.rows[k][IndexOf(df.columns, c)]
  }

  /** `df[c] = values`: overwrite column c when the frame has it, append it otherwise. */
  function SetColumn(df: Frame, c: string, values: seq<string>): (r: Frame)
    requires WellFormed(df) && |values| == |df.rows|
    ensures WellFormed(r) && |r.rows| == |df.rows| && c in r.columns
    ensures forall k :: 0 <= k < |df.rows| ==> Cell(r, k, c) == values[k]
    ensures forall d, k :: d in df.columns && d != c && 0 <= k < |df.rows| ==>
              d in r.columns && Cell(r, k, d) == Cell(df, k, d)
    ensures c in df.columns ==> r.columns == df.columns
    ensures c !in df.columns ==> r.columns == df.columns + [c]
  {
    if c in df.columns then
      var j := IndexOf(df.columns, c);
      var r := Frame(df.columns, seq(|df.rows|, k requires 0 <= k < |df.rows| => df.rows[k][j := values[k]]));
      r
    else
      var r := Frame(df.columns + [c], seq(|df.rows|, k requires 0 <= k < |df.rows| => df.rows[k] + [values[k]]));
      assert forall d :: d in df.columns ==> IndexOf(r.columns, d) == IndexOf(df.columns, d) by {
        forall d | d in df.columns ensures IndexOf(r.columns, d) == IndexOf(df.columns, d) {
          var i := IndexOf(df.columns, d);
          var j := IndexOf(r.columns, d);
          assert r.columns[i] == d;
          assert j < |df.columns| ==> df.columns[j] == d;
        }
      }
      assert IndexOf(r.columns, c) == |df.columns| by {
        assert r.columns[|df.columns|] == c;
      }
      r
  }

  /** `df_gen['typ'].map(gen_cost)` printed by `str`: the unit fuel cost of the four
      known fuel types, NaN for any other type. */
  function GenCostToken(typ: string): string
  {
    if typ == "gas" then "3.3"
    else if typ == "slack" then "53.5604"
    else if typ == "geothermal" then "0.0"
    else if typ == "hydrogen" then "6.82"
    else "nan"
  }

  /** The columns every generator record must carry. */
  predicate HasGenColumns(df: Frame)
  {
    WellFormed(df) && "name" in df.columns && "typ" in df.columns && "node" in df.columns
  }

  /** The frame as loaded and completed: gen_cost from the type, and a cold start
      (ini_on = 0, ini_mwh = 0) for every unit. */
  function PrepareGenFrame(df: Frame): (r: Frame)
    requires HasGenColumns(df)
    ensures HasGenColumns(r) && |r.rows| == |df.rows|
    ensures "gen_cost" in r.columns && "ini_on" in r.columns && "ini_mwh" in r.columns
  {
    var d1 := SetColumn(df, "gen_cost", CostColumn(df));
    var d2 := SetColumn(d1, "ini_on", Zeros(|df.rows|));
    SetColumn(d2, "ini_mwh", Zeros(|df.rows|))
  }

  function CostColumn(df: Frame): (r: seq<string>)
    requires HasGenColumns(df)
    ensures |r| == |df.rows|
    ensures forall k :: 0 <= k < |df.rows| ==> r[k] == GenCostToken(Cell(df, k, "typ"))
  {
    seq(|df.rows|, k requires 0 <= k < |df.rows| => GenCostToken(Cell(df, k, "typ")))
  }

  function Zeros(n: nat): (r: seq<string>)
    ensures |r| == n && forall k :: 0 <= k < n ==> r[k] == "0"
  {
    seq(n, k => "0")
  }

  /** Every unit starts cold, carries the cost of its fuel type, and keeps its name,
      type and node. */
  lemma PreparedGenerators(df: Frame, k: nat)
    requires HasGenColumns(df) && k < |df.rows|
    ensures var r := PrepareGenFrame(df);
      && Cell(r, k, "ini_on") == "0" && Cell(r, k, "ini_mwh") == "0"
      && Cell(r, k, "gen_cost") == GenCostToken(Cell(df, k, "typ"))
      && Cell(r, k, "name") == Cell(df, k, "name")
      && Cell(r, k, "typ") == Cell(df, k, "typ")
      && Cell(r, k, "node") == Cell(df, k, "node")
  {
    var d1 := SetColumn(df, "gen_cost", CostColumn(df));
    var d2 := SetColumn(d1, "ini_on", Zeros(|df.rows|));
    assert Cell(d1, k, "gen_cost") == CostColumn(df)[k];
    assert Cell(d2, k, "gen_cost") == CostColumn(df)[k];
  }

  /** A unit whose fuel type is not one of the four gets a NaN cost. */
  lemma UnknownTypeCostsNaN(df: Frame, k: nat)
    requires HasGenColumns(df) && k < |df.rows|
    requires Cell(df, k, "typ") !in {"gas", "slack", "geothermal", "hydrogen"}
    ensures Cell(PrepareGenFrame(df), k, "gen_cost") == "nan"
  {
    PreparedGenerators(df, k);
  }

  /** Indices, among the first n rows, of the rows whose column c holds v, in row order. */
  function MatchingRows(df: Frame, c: string, v: string, n: nat): (ks: seq<nat>)
    requires WellFormed(df) && c in df.columns && n <= |df.rows|
    decreases n
  {
    if n == 0 then []
    else MatchingRows(df, c, v, n - 1) + (if Cell(df, n - 1, c) == v then [n - 1] else [])
  }

  /** The filter keeps exactly the matching rows, each once, in increasing order. */
  lemma {:induction false} MatchingRowsExact(df: Frame, c: string, v: string, n: nat)
    requires WellFormed(df) && c in df.columns && n <= |df.rows|
    ensures forall k: nat :: k in MatchingRows(df, c, v, n) <==> k < n && Cell(df, k, c) == v
    ensures forall s, t :: 0 <= s < t < |MatchingRows(df, c, v, n)| ==>
              MatchingRows(df, c, v, n)[s] < MatchingRows(df, c, v, n)[t]
    decreases n
  {
    if n > 0 {
      MatchingRowsExact(df, c, v, n - 1);
      var front := MatchingRows(df, c, v, n - 1);
      assert forall s :: 0 <= s < |front| ==> front[s] < n - 1 by {
        forall s | 0 <= s < |front| ensures front[s] < n - 1 {
          assert front[s] in front;
        }
      }
    }
  }

  /** Two different values select disjoint sets of rows: no unit is in two fuel sets. */
  lemma MatchingRowsDisjoint(df: Frame, c: string, v: string, w: string, k: nat)
    requires WellFormed(df) && c in df.columns && v != w
    ensures !(k in MatchingRows(df, c, v, |df.rows|) && k in MatchingRows(df, c, w, |df.rows|))
  {
    MatchingRowsExact(df, c, v, |df.rows|);
    MatchingRowsExact(df, c, w, |df.rows|);
  }
}
