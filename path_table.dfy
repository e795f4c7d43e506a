/** The transmission paths and the dense line table of the `.dat` file: the one-way path
    list is extended with every path reversed, and each ordered pair of nodes is written
    with the capacity and susceptance of the last path that joins them, or `0 0`. */
module PathTable {
  import opened DatText
  import opened Layout

  /** A row of the path table; capacity and susceptance are kept as the tokens `str`
      prints for them. */
  datatype Path = Path(source: string, sink: string, linemva: string, linesus: string)

  /** The row read in the other direction, with the same line data (`df_trans2`). */
  function Reverse(r: Path): Path
  {
    Path(r.sink, r.source, r.linemva, r.linesus)
  }

  function Swapped(t: seq<Path>): seq<Path>
  {
    seq(|t|, k requires 0 <= k < |t| => Reverse(t[k]))
  }

  /** `df_paths`: the input rows followed by the same rows reversed, renumbered from 0. */
  function Paths(t: seq<Path>): seq<Path>
  {
    t + Swapped(t)
  }

  /** The path table is twice as long as the input: the input first, then each input row
      with source and sink exchanged and its line data unchanged. */
  lemma PathsLayout(t: seq<Path>)
    ensures |Paths(t)| == 2 * |t|
    ensures Paths(t)[..|t|] == t
    ensures forall k :: 0 <= k < |t| ==>
              && Paths(t)[|t| + k].source == t[k].sink
              && Paths(t)[|t| + k].sink == t[k].source
              && Paths(t)[|t| + k].linemva == t[k].linemva
              && Paths(t)[|t| + k].linesus == t[k].linesus
  {
  }

  /** Reversing twice gives the input back. */
  lemma SwappedInvolution(t: seq<Path>)
    ensures Swapped(Swapped(t)) == t
  {
  }

  predicate Joins(r: Path, z: string, x: string)
  {
    r.source == z && r.sink == x
  }

  /** o is the position of the last row of ps that runs from z to x, or None when no
      row does. */
  predicate IsLastMatch(ps: seq<Path>, z: string, x: string, o: Option<nat>)
  {
    match o
    case None => forall q :: 0 <= q < |ps| ==> !Joins(ps[q], z, x)
    case Some(p) => p < |ps| && Joins(ps[p], z, x) && forall q :: p < q < |ps| ==> !Joins(ps[q], z, x)
  }

  /** The search of the line-table writer: later matches overwrite earlier ones. */
  function LastMatch(ps: seq<Path>, z: string, x: string): (o: Option<nat>)
    ensures IsLastMatch(ps, z, x, o)
    decreases |ps|
  {
    if ps == [] then None
    else if Joins(ps[|ps| - 1], z, x) then Some(|ps| - 1)
    else LastMatch(ps[..|ps| - 1], z, x)
  }

  /** At most one answer meets the description of the last match. */
  lemma IsLastMatchUnique(ps: seq<Path>, z: string, x: string, o: Option<nat>, o': Option<nat>)
    requires IsLastMatch(ps, z, x, o) && IsLastMatch(ps, z, x, o')
    ensures o == o'
  {
    if o.Some? {
      assert Joins(ps[o.value], z, x);
    }
    if o'.Some? {
      assert Joins(ps[o'.value], z, x);
    }
  }

  /** The last match in a concatenation, from the last matches in its two parts. */
  lemma IsLastMatchAppend(a: seq<Path>, b: seq<Path>, z: string, x: string, oa: Option<nat>, ob: Option<nat>)
    requires IsLastMatch(a, z, x, oa) && IsLastMatch(b, z, x, ob)
    ensures IsLastMatch(a + b, z, x, if ob.Some? then Some(|a| + ob.value) else oa)
  {
    assert forall q :: |a| <= q < |a| + |b| ==> (a + b)[q] == b[q - |a|];
  }

  /** A reversed row runs from z to x exactly when the original runs from x to z. */
  lemma IsLastMatchSwapped(t: seq<Path>, z: string, x: string, o: Option<nat>)
    requires IsLastMatch(t, x, z, o)
    ensures IsLastMatch(Swapped(t), z, x, o)
  {
  }

  /** Searching the reversed rows for z to x is searching the input for x to z. */
  lemma LastMatchSwapped(t: seq<Path>, z: string, x: string)
    ensures LastMatch(Swapped(t), z, x) == LastMatch(t, x, z)
  {
    IsLastMatchSwapped(t, z, x, LastMatch(t, x, z));
    IsLastMatchUnique(Swapped(t), z, x, LastMatch(Swapped(t), z, x), LastMatch(t, x, z));
  }

  /** Searching the path table: a reversed row from x to z wins over a forward row from
      z to x. */
  lemma LastMatchPaths(t: seq<Path>, z: string, x: string)
    ensures LastMatch(Paths(t), z, x)
         == (if LastMatch(t, x, z).Some? then Some(|t| + LastMatch(t, x, z).value) else LastMatch(t, z, x))
  {
    var of, ob := LastMatch(t, z, x), LastMatch(t, x, z);
    IsLastMatchSwapped(t, z, x, ob);
    IsLastMatchAppend(t, Swapped(t), z, x, of, ob);
    IsLastMatchUnique(Paths(t), z, x, LastMatch(Paths(t), z, x), if ob.Some? then Some(|t| + ob.value) else of);
  }

  /** Row v of the input is row v of the path table, and its reversal is row |t| + v. */
  lemma PathsAt(t: seq<Path>, v: nat)
    requires v < |t|
    ensures Paths(t)[v] == t[v] && Paths(t)[|t| + v] == Reverse(t[v])
  {
  }

  /** The line-data cell of a row: `linemva \t linesus \n`. */
  function LineCells(r: Path): string
  {
    r.linemva + "\t" + r.linesus + "\n"
  }

  /** What the line table writes for the pair (z, x). */
  function LineValue(ps: seq<Path>, z: string, x: string): string
  {
    match LastMatch(ps, z, x)
    case None => "0\t0\n"
    case Some(p) => LineCells(ps[p])
  }

  /** The line data of a pair read back from the input rows: the last input row from x to
      z if there is one (it appears reversed in the second half), else the last input row
      from z to x, else `0 0`. */
  lemma LineValueFromInput(t: seq<Path>, z: string, x: string)
    ensures LineValue(Paths(t), z, x)
         == (match LastMatch(t, x, z)
             case Some(v) => LineCells(t[v])
             case None =>
               match LastMatch(t, z, x)
               case Some(u) => LineCells(t[u])
               case None => "0\t0\n")
  {
    LastMatchPaths(t, z, x);
    var ob := LastMatch(t, x, z);
    if ob.Some? {
      PathsAt(t, ob.value);
    } else if LastMatch(t, z, x).Some? {
      PathsAt(t, LastMatch(t, z, x).value);
    }
  }

  /** Symmetric connection: (z, x) has a matching path exactly when (x, z) has one. */
  lemma ConnectionSymmetric(t: seq<Path>, z: string, x: string)
    ensures LastMatch(Paths(t), z, x).Some? <==> LastMatch(Paths(t), x, z).Some?
  {
    LastMatchPaths(t, z, x);
    LastMatchPaths(t, x, z);
  }

  /** A pair with no input row in either direction is written as `0 0`. */
  lemma UnconnectedPairIsZero(t: seq<Path>, z: string, x: string)
    requires forall k :: 0 <= k < |t| ==> !Joins(t[k], z, x) && !Joins(t[k], x, z)
    ensures LineValue(Paths(t), z, x) == "0\t0\n"
  {
    LineValueFromInput(t, z, x);
  }

  /** When the input lists a line in one direction only, both directions are written with
      the same line data. */
  lemma LineValueSymmetric(t: seq<Path>, z: string, x: string)
    requires !(LastMatch(t, z, x).Some? && LastMatch(t, x, z).Some?)
    ensures LineValue(Paths(t), z, x) == LineValue(Paths(t), x, z)
  {
    LineValueFromInput(t, z, x);
    LineValueFromInput(t, x, z);
  }

  /** When the input lists a line in both directions, each direction is written with the
      data of the row listed for the other direction. */
  lemma LineValueBothDirections(t: seq<Path>, z: string, x: string)
    requires LastMatch(t, z, x).Some? && LastMatch(t, x, z).Some?
    ensures LineValue(Paths(t), z, x) == LineCells(t[LastMatch(t, x, z).value])
    ensures LineValue(Paths(t), x, z) == LineCells(t[LastMatch(t, z, x).value])
  {
    LineValueFromInput(t, z, x);
    LineValueFromInput(t, x, z);
  }

  /** The path search as the writer runs it: `match` and `p_match` are overwritten by
      every row from z to x. */
  method FindLastMatch(ps: seq<Path>, z: string, x: string) returns (matched: bool, pMatch: nat)
    ensures matched <==> LastMatch(ps, z, x).Some?
    ensures matched ==> pMatch == LastMatch(ps, z, x).value
  {
    matched := false;
    pMatch := 0;
    for p := 0 to |ps|
      invariant matched <==> LastMatch(ps[..p], z, x).Some?
      invariant matched ==> pMatch == LastMatch(ps[..p], z, x).value
    {
      assert ps[..p + 1][..p] == ps[..p];
      if ps[p].source == z && ps[p].sink == x {
        matched := true;
        pMatch := p;
      }
    }
    assert ps[..|ps|] == ps;
  }

  /** The pair written before its line data. */
  function PairLabel(z: string, x: string): string
  {
    z + "\t" + x + "\t"
  }

  /** The rows for source z and the first n sinks. */
  function SinkRows(ps: seq<Path>, nodes: seq<string>, z: string, n: nat): (r: seq<string>)
    requires n <= |nodes|
    ensures |r| == 2 * n
    decreases n
  {
    if n == 0 then []
    else SinkRows(ps, nodes, z, n - 1) + [PairLabel(z, nodes[n - 1]), LineValue(ps, z, nodes[n - 1])]
  }

  /** Sink b is written as its pair label followed by its line data. */
  lemma {:induction false} SinkRowAt(ps: seq<Path>, nodes: seq<string>, z: string, n: nat, b: nat)
    requires n <= |nodes| && b < n
    ensures SinkRows(ps, nodes, z, n)[2 * b] == PairLabel(z, nodes[b])
    ensures SinkRows(ps, nodes, z, n)[2 * b + 1] == LineValue(ps, z, nodes[b])
    decreases n
  {
    var front := SinkRows(ps, nodes, z, n - 1);
    var pair := [PairLabel(z, nodes[n - 1]), LineValue(ps, z, nodes[n - 1])];
    assert SinkRows(ps, nodes, z, n) == front + pair;
    if b < n - 1 {
      SinkRowAt(ps, nodes, z, n - 1, b);
      assert (front + pair)[2 * b] == front[2 * b] && (front + pair)[2 * b + 1] == front[2 * b + 1];
    } else {
      assert (front + pair)[2 * b] == pair[0] && (front + pair)[2 * b + 1] == pair[1];
    }
  }

  /** The rows for the first n sources, each against every sink. */
  function LineRows(ps: seq<Path>, nodes: seq<string>, n: nat): (r: seq<string>)
    requires n <= |nodes|
    decreases n
  {
    if n == 0 then []
    else LineRows(ps, nodes, n - 1) + SinkRows(ps, nodes, nodes[n - 1], |nodes|)
  }

  const LineHeader := "param:\tlinemva\tlinesus :=\n"

  /** The whole line-table section. */
  function LineTable(ps: seq<Path>, nodes: seq<string>): seq<string>
  {
    [LineHeader] + LineRows(ps, nodes, |nodes|) + [";\n\n"]
  }

  /** The first n sources contribute 2·n·N chunks. */
  lemma {:induction false} LineRowsLength(ps: seq<Path>, nodes: seq<string>, n: nat)
    requires n <= |nodes|
    ensures |LineRows(ps, nodes, n)| == 2 * (n * |nodes|)
    decreases n
  {
    if n > 0 {
      LineRowsLength(ps, nodes, n - 1);
      GridPosition(0, 0, n, |nodes| + 1);
      assert (n - 1) * |nodes| + |nodes| == n * |nodes|;
    }
  }

  /** One row per ordered pair of nodes, source outer and sink inner: the pair with
      positions (a, b) is row a·N + b, and holds the pair and its line data. */
  lemma {:induction false} LineRowAt(ps: seq<Path>, nodes: seq<string>, n: nat, a: nat, b: nat)
    requires n <= |nodes| && a < n && b < |nodes|
    ensures 2 * (a * |nodes| + b) + 1 < |LineRows(ps, nodes, n)|
    ensures LineRows(ps, nodes, n)[2 * (a * |nodes| + b)] == PairLabel(nodes[a], nodes[b])
    ensures LineRows(ps, nodes, n)[2 * (a * |nodes| + b) + 1] == LineValue(ps, nodes[a], nodes[b])
    decreases n
  {
    var N := |nodes|;
    var front := LineRows(ps, nodes, n - 1);
    var block := SinkRows(ps, nodes, nodes[n - 1], N);
    assert LineRows(ps, nodes, n) == front + block;
    LineRowsLength(ps, nodes, n - 1);
    var i, base := GridCell(a, b, n, N);
    assert |front| == 2 * base;
    if a < n - 1 {
      LineRowAt(ps, nodes, n - 1, a, b);
      assert (front + block)[2 * i] == front[2 * i] && (front + block)[2 * i + 1] == front[2 * i + 1];
    } else {
      SinkRowAt(ps, nodes, nodes[n - 1], N, b);
      assert (front + block)[2 * i] == block[2 * b] && (front + block)[2 * i + 1] == block[2 * b + 1];
    }
  }

  /** The line table has |nodes|² rows after its header. */
  lemma LineTableSize(ps: seq<Path>, nodes: seq<string>)
    ensures |LineTable(ps, nodes)| == 2 * (|nodes| * |nodes|) + 2
  {
    LineRowsLength(ps, nodes, |nodes|);
  }
}
