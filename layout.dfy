/** Arithmetic of tables written row after row: the cell (a, b) of a table with rows of
    width N is at position a·N + b. */
module Layout {

  /** The cell (a, b) of a table with n rows of width N lies in the first n - 1 rows
      exactly when a < n - 1, and the first n - 1 rows end where the last row begins. */
  lemma GridPosition(a: nat, b: nat, n: nat, N: nat)
    requires a < n && b < N
    ensures a < n - 1 ==> a * N + b < (n - 1) * N
    ensures (n - 1) * N + N == n * N
  {
    assert n * N == ((n - 1) + 1) * N;
    if a < n - 1 {
      assert (a + 1) * N == a * N + N;
      MulMonotone(a + 1, n - 1, N);
    }
  }

  /** The same facts with the position and the start of the last row named, so that a
      caller reasons about them without multiplying. */
  lemma GridCell(a: nat, b: nat, n: nat, N: nat) returns (i: nat, base: nat)
    requires a < n && b < N
    ensures i == a * N + b && base == (n - 1) * N && base + N == n * N
    ensures a < n - 1 ==> i < base
    ensures a == n - 1 ==> i == base + b
  {
    GridPosition(a, b, n, N);
    i, base := a * N + b, (n - 1) * N;
  }

  lemma MulMonotone(x: nat, y: nat, N: nat)
    requires x <= y
    ensures x * N <= y * N
  {
    assert y * N == x * N + (y - x) * N;
  }

  /** Appending to a buffer in two steps is appending the two pieces together. */
  lemma AppendAssoc<T>(a: seq<T>, b: seq<T>, c: seq<T>)
    ensures a + b + c == a + (b + c)
  {
  }

  /** A section written as its opening chunk, its body and its closing chunk. */
  lemma ClosedSection<T>(f0: seq<T>, open: T, body: seq<T>, close: T)
    ensures f0 + [open] + body + [close] == f0 + ([open] + body + [close])
  {
    AppendAssoc(f0, [open], body);
    AppendAssoc(f0, [open] + body, [close]);
  }
}
