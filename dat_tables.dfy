/** The parameter sections of the `.dat` file that are not sets: the scalar parameters
    and the generator parameter table, one row per unit with its name first. */
module DatTables {
  import opened DatText
  import opened OrderedSets
  import opened Frames
  import opened Layout
  import opened DatSets

  /** The scalar parameters. The day count and horizon are integers, written with `%d`;
      the three fractions are written with `%0.3f` and kept here as the tokens printed. */
  datatype Scalars = Scalars(
    simDays: nat,
    horizonHours: nat,
    transLoss: string,
    n1criterion: string,
    spinMargin: string)

  const SimHoursHead := "param SimHours := "
  const SimDaysHead := "param SimDays:= "
  const HorizonHead := "param HorizonHours := "
  const TransLossHead := "param TransLoss := "
  const N1Head := "param n1criterion := "
  const SpinHead := "param spin_margin := "

  /** The scalar section; the number of simulated hours is 24 per simulated day. */
  function ScalarChunks(sc: Scalars): seq<string>
  {
    [ SimHoursHead + NatToString(sc.simDays * 24) + ";", "\n"
    , SimDaysHead + NatToString(sc.simDays) + ";", "\n\n"
    , HorizonHead + NatToString(sc.horizonHours) + ";", "\n\n"
    , TransLossHead + sc.transLoss + ";", "\n\n"
    , N1Head + sc.n1criterion + ";", "\n\n"
    , SpinHead + sc.spinMargin + ";", "\n\n" ]
  }

  /** The value of a statement `head v;`, when the chunk has that form. */
  function ReadScalar(chunk: string, head: string): Option<string>
  {
    if |head| < |chunk| && chunk[..|head|] == head && chunk[|chunk| - 1] == ';'
    then Some(chunk[|head|..|chunk| - 1])
    else None
  }

  /** The reading side of the scalar section: it accepts the section only when the hour
      count is 24 times the day count. */
  function ReadScalars(cs: seq<string>): Option<Scalars>
  {
    if |cs| != 12 then None
    else
      var hours := ReadScalar(cs[0], SimHoursHead);
      var days := ReadScalar(cs[2], SimDaysHead);
      var horizon := ReadScalar(cs[4], HorizonHead);
      var loss := ReadScalar(cs[6], TransLossHead);
      var n1 := ReadScalar(cs[8], N1Head);
      var spin := ReadScalar(cs[10], SpinHead);
      if hours.None? || days.None? || horizon.None? || loss.None? || n1.None? || spin.None? then None
      else
        var h := ReadNat(hours.value);
        var d := ReadNat(days.value);
        var hz := ReadNat(horizon.value);
        if h.None? || d.None? || hz.None? || h.value != 24 * d.value then None
        else Some(Scalars(d.value, hz.value, loss.value, n1.value, spin.value))
  }

  lemma ReadScalarWritten(head: string, v: string)
    ensures ReadScalar(head + v + ";", head) == Some(v)
  {
    var c := head + v + ";";
    assert c[..|head|] == head;
    assert c[|head|..|c| - 1] == v;
  }

  /** Reading the scalar section gives back the parameters it was written from, and the
      hour count written agrees with the day count. */
  lemma ScalarsRoundTrip(sc: Scalars)
    ensures ReadScalars(ScalarChunks(sc)) == Some(sc)
  {
    ReadScalarWritten(SimHoursHead, NatToString(sc.simDays * 24));
    ReadScalarWritten(SimDaysHead, NatToString(sc.simDays));
    ReadScalarWritten(HorizonHead, NatToString(sc.horizonHours));
    ReadScalarWritten(TransLossHead, sc.transLoss);
    ReadScalarWritten(N1Head, sc.n1criterion);
    ReadScalarWritten(SpinHead, sc.spinMargin);
    ReadNatToString(sc.simDays * 24);
    ReadNatToString(sc.simDays);
    ReadNatToString(sc.horizonHours);
  }

  /** The chunk written for column c of row i: the sanitised name in the name column,
      the printed cell elsewhere, then a tab. */
  function GenCell(df: Frame, i: nat, c: string): string
    requires WellFormed(df) && i < |df.rows| && c in df.columns
  {
    (if c == "name" then Sanitize(Cell(df, i, "name")) else Cell(df, i, c)) + "\t"
  }

  /** The chunks of row i for the first n columns. */
  function RowChunks(df: Frame, i: nat, n: nat): (r: seq<string>)
    requires WellFormed(df) && i < |df.rows| && n <= |df.columns|
    ensures |r| == n
    decreases n
  {
    if n == 0 then [] else RowChunks(df, i, n - 1) + [GenCell(df, i, df.columns[n - 1])]
  }

  /** The k-th chunk of a row is the cell of column k. */
  lemma {:induction false} RowChunkAt(df: Frame, i: nat, n: nat, k: nat)
    requires WellFormed(df) && i < |df.rows| && n <= |df.columns| && k < n
    ensures RowChunks(df, i, n)[k] == GenCell(df, i, df.columns[k])
    decreases n
  {
    var front := RowChunks(df, i, n - 1);
    var last := [GenCell(df, i, df.columns[n - 1])];
    assert RowChunks(df, i, n) == front + last;
    if k < n - 1 {
      RowChunkAt(df, i, n - 1, k);
      assert (front + last)[k] == front[k];
    }
  }

  /** The first n rows, each closed by a newline. */
  function GenRows(df: Frame, n: nat): seq<string>
    requires WellFormed(df) && n <= |df.rows|
    decreases n
  {
    if n == 0 then [] else GenRows(df, n - 1) + RowChunks(df, n - 1, |df.columns|) + ["\n"]
  }

  /** The columns named in the header: every column except the name, in order. */
  function NonNameColumns(cols: seq<string>): (r: seq<string>)
    ensures forall x :: x in r <==> x in cols && x != "name"
    decreases |cols|
  {
    if cols == [] then []
    else
      var front := NonNameColumns(cols[..|cols| - 1]);
      assert cols == cols[..|cols| - 1] + [cols[|cols| - 1]];
      front + (if cols[|cols| - 1] != "name" then [cols[|cols| - 1]] else [])
  }

  /** With distinct columns and a name column, the header names one column fewer than
      each row has cells: the `name` cell is written as the row's key, not as a column. */
  lemma {:induction false} NonNameColumnsCount(cols: seq<string>)
    requires Distinct(cols)
    ensures "name" in cols ==> |NonNameColumns(cols)| == |cols| - 1
    ensures "name" !in cols ==> |NonNameColumns(cols)| == |cols|
    decreases |cols|
  {
    if cols != [] {
      var front := cols[..|cols| - 1];
      assert Distinct(front);
      assert cols == front + [cols[|cols| - 1]];
      assert cols[|cols| - 1] == "name" ==> "name" !in front;
      NonNameColumnsCount(front);
    }
  }

  const GenTableHead := "param:\t"
  const GenTableOpen := ":=\n\n"

  /** The generator parameter section. */
  function GenTable(df: Frame): seq<string>
    requires WellFormed(df)
  {
    [GenTableHead] + Suffixed(NonNameColumns(df.columns), "\t") + [GenTableOpen]
    + GenRows(df, |df.rows|) + [";\n\n"]
  }

  /** One more row appends that row's cells and its newline. */
  lemma GenRowsSnoc(df: Frame, i: nat)
    requires WellFormed(df) && i < |df.rows|
    ensures GenRows(df, i + 1) == GenRows(df, i) + (RowChunks(df, i, |df.columns|) + ["\n"])
  {
    AppendAssoc(GenRows(df, i), RowChunks(df, i, |df.columns|), ["\n"]);
  }

  /** Each row takes |columns| + 1 chunks. */
  lemma {:induction false} GenRowsLength(df: Frame, n: nat)
    requires WellFormed(df) && n <= |df.rows|
    ensures |GenRows(df, n)| == n * (|df.columns| + 1)
    decreases n
  {
    if n > 0 {
      var width := |df.columns| + 1;
      GenRowsLength(df, n - 1);
      assert |GenRows(df, n)| == |GenRows(df, n - 1)| + width;
      GridPosition(0, 0, n, width);
    }
  }

  /** Row i starts at i·(C + 1) and is written as its C cells and a newline. */
  lemma {:induction false} GenRowAt(df: Frame, n: nat, i: nat, k: nat)
    requires WellFormed(df) && n <= |df.rows| && i < n && k <= |df.columns|
    ensures i * (|df.columns| + 1) + k < |GenRows(df, n)|
    ensures GenRows(df, n)[i * (|df.columns| + 1) + k] == (RowChunks(df, i, |df.columns|) + ["\n"])[k]
    decreases n
  {
    var front := GenRows(df, n - 1);
    var row := RowChunks(df, n - 1, |df.columns|) + ["\n"];
    assert GenRows(df, n) == front + row;
    GenRowsLength(df, n - 1);
    var j, base := GridCell(i, k, n, |df.columns| + 1);
    assert |front + row| == base + |df.columns| + 1;
    if i < n - 1 {
      GenRowAt(df, n - 1, i, k);
      assert (front + row)[j] == front[j];
    } else {
      assert (front + row)[j] == row[k];
    }
  }

  /** The position of the chunk of column c in row i: rows take |columns| + 1 chunks. */
  function CellPosition(df: Frame, i: nat, c: string): nat
    requires c in df.columns
  {
    i * (|df.columns| + 1) + IndexOf(df.columns, c)
  }

  /** Column c of row i is written at its position in the row-by-row layout. */
  lemma GenCellWritten(r: Frame, i: nat, c: string)
    requires WellFormed(r) && i < |r.rows| && c in r.columns
    ensures CellPosition(r, i, c) < |GenRows(r, |r.rows|)|
    ensures GenRows(r, |r.rows|)[CellPosition(r, i, c)] == GenCell(r, i, c)
  {
    var k := IndexOf(r.columns, c);
    var cells := RowChunks(r, i, |r.columns|);
    GenRowAt(r, |r.rows|, i, k);
    RowChunkAt(r, i, |r.columns|, k);
    assert (cells + ["\n"])[k] == cells[k];
    assert CellPosition(r, i, c) == i * (|r.columns| + 1) + k;
  }

  /** For the prepared generators, every unit's row is written with a cold start (`0` for
      ini_on and ini_mwh), the cost of its fuel type, and its name without spaces. */
  lemma ColdStartWritten(df: Frame, i: nat)
    requires HasGenColumns(df) && i < |df.rows|
    ensures var r := PrepareGenFrame(df);
      && GenCell(r, i, "ini_on") == "0\t"
      && GenCell(r, i, "ini_mwh") == "0\t"
      && GenCell(r, i, "gen_cost") == GenCostToken(Cell(df, i, "typ")) + "\t"
      && GenCell(r, i, "name") == Sanitize(Cell(df, i, "name")) + "\t"
  {
    PreparedGenerators(df, i);
  }
}
