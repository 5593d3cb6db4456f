/** Dense matrices as sequences of rows, generic in the cell type so that the
    numeric track (cells are numbers) and the text track (cells are strings)
    share every construction. `+` on two numeric arrays and `+` on two string
    arrays are both cell-wise, and both are written `Combine(a, b, op)`. */
module Matrices {
  import opened Seqs

  type Matrix<T> = seq<seq<T>>

  /** `m` has `rows` rows of `cols` cells each. */
  ghost predicate IsMatrix<T>(m: Matrix<T>, rows: nat, cols: nat)
  {
    |m| == rows && forall i :: 0 <= i < rows ==> |m[i]| == cols
  }

  /** The current contents of a two-dimensional array, row by row. */
  function Cells<T>(a: array2<T>): (m: Matrix<T>)
    reads a
    ensures IsMatrix(m, a.Length0, a.Length1)
    ensures forall i, j :: 0 <= i < a.Length0 && 0 <= j < a.Length1 ==> m[i][j] == a[i, j]
  {
    seq(a.Length0, i reads a requires 0 <= i < a.Length0 =>
      seq(a.Length1, j reads a requires 0 <= j < a.Length1 => a[i, j]))
  }

  /** A `rows` x `cols` matrix every cell of which is `x`. */
  function Constant<T>(rows: nat, cols: nat, x: T): (m: Matrix<T>)
    ensures IsMatrix(m, rows, cols)
    ensures forall i, j :: 0 <= i < rows && 0 <= j < cols ==> m[i][j] == x
  {
    seq(rows, _ => seq(cols, _ => x))
  }

  /** Cell-wise combination of two matrices of the same shape. */
  function Combine<T>(a: Matrix<T>, b: Matrix<T>, op: (T, T) -> T): (m: Matrix<T>)
    requires |a| == |b| && forall i :: 0 <= i < |a| ==> |a[i]| == |b[i]|
    ensures |m| == |a| && forall i :: 0 <= i < |a| ==> |m[i]| == |a[i]|
    ensures forall i, j :: 0 <= i < |a| && 0 <= j < |a[i]| ==> m[i][j] == op(a[i][j], b[i][j])
  {
    seq(|a|, i requires 0 <= i < |a| => seq(|a[i]|, j requires 0 <= j < |a[i]| => op(a[i][j], b[i][j])))
  }

  /** The matrix without row `k`: the rows before it, then the rows after it. */
  function DeleteRow<T>(m: Matrix<T>, k: nat): (r: Matrix<T>)
    requires k < |m|
    ensures |r| == |m| - 1
    ensures forall i :: 0 <= i < k ==> r[i] == m[i]
    ensures forall i :: k <= i < |m| - 1 ==> r[i] == m[i + 1]
  {
    m[..k] + m[k + 1..]
  }

  /** The transpose of a `rows` x `cols` matrix (well defined also when `rows` is 0). */
  function Transpose<T>(m: Matrix<T>, rows: nat, cols: nat): (t: Matrix<T>)
    requires IsMatrix(m, rows, cols)
    ensures IsMatrix(t, cols, rows)
    ensures forall i, j :: 0 <= i < cols && 0 <= j < rows ==> t[i][j] == m[j][i]
  {
    seq(cols, i requires 0 <= i < cols => seq(rows, j requires 0 <= j < rows => m[j][i]))
  }

  /** An `n` x `n` matrix holding `entries[i]` at (i, i) for each listed index
      `i` and `blank` everywhere else: a blank array after the loop
      `for i in ind: m[i][i] = entries[i]`, one listed index at a time. */
  function Diagonal<T>(n: nat, ind: seq<nat>, entries: seq<T>, blank: T): (m: Matrix<T>)
    requires forall k :: 0 <= k < |ind| ==> ind[k] < n && ind[k] < |entries|
    ensures IsMatrix(m, n, n)
    ensures forall i, j :: 0 <= i < n && 0 <= j < n ==>
              m[i][j] == if i == j && Listed(ind, i) then entries[i] else blank
    decreases |ind|
  {
    if |ind| == 0 then Constant(n, n, blank)
    else
      var m, k := Diagonal(n, ind[..|ind| - 1], entries, blank), ind[|ind| - 1];
      m[k := m[k][k := entries[k]]]
  }

  /** Two matrices of the same shape with the same cells are equal. */
  lemma Extensionality<T>(m: Matrix<T>, n: Matrix<T>, rows: nat, cols: nat)
    requires IsMatrix(m, rows, cols) && IsMatrix(n, rows, cols)
    requires forall i, j :: 0 <= i < rows && 0 <= j < cols ==> m[i][j] == n[i][j]
    ensures m == n
  {
    forall i | 0 <= i < rows
      ensures m[i] == n[i]
    {
      assert forall j :: 0 <= j < cols ==> m[i][j] == n[i][j];
    }
  }

  /** Allocates a `rows` x `cols` array every cell of which is `x`
      (`np.zeros`, or `np.empty` followed by the loop that blanks every cell). */
  method NewMatrix<T>(rows: nat, cols: nat, x: T) returns (a: array2<T>)
    ensures fresh(a) && a.Length0 == rows && a.Length1 == cols
    ensures Cells(a) == Constant(rows, cols, x)
  {
    a := new T[rows, cols]((_, _) => x);
    Extensionality(Cells(a), Constant(rows, cols, x), rows, cols);
  }

  /** A fresh array holding the cells of `m` (`np.block` allocates its result). */
  method ArrayOf<T>(m: Matrix<T>, rows: nat, cols: nat) returns (a: array2<T>)
    requires IsMatrix(m, rows, cols)
    ensures fresh(a) && a.Length0 == rows && a.Length1 == cols
    ensures Cells(a) == m
  {
    a := new T[rows, cols]((i, j) requires 0 <= i < rows && 0 <= j < cols => m[i][j]);
    Extensionality(Cells(a), m, rows, cols);
  }

  /** The loop `for i in ind: a[i][i] = entries[i]` on a square array. */
  method FillDiagonal<T>(a: array2<T>, ind: seq<nat>, entries: seq<T>)
    requires a.Length0 == a.Length1
    requires forall k :: 0 <= k < |ind| ==> ind[k] < a.Length0 && ind[k] < |entries|
    modifies a
    ensures forall i, j :: 0 <= i < a.Length0 && 0 <= j < a.Length1 ==>
              a[i, j] == if i == j && Listed(ind, i) then entries[i] else old(a[i, j])
  {
    var k := 0;
    while k < |ind|
      invariant 0 <= k <= |ind|
      invariant forall i, j :: 0 <= i < a.Length0 && 0 <= j < a.Length1 ==>
                  a[i, j] == if i == j && Listed(ind[..k], i) then entries[i] else old(a[i, j])
    {
      var i := ind[k];
      a[i, i] := entries[i];
      assert ind[..k + 1][..k] == ind[..k];
      k := k + 1;
    }
    assert ind[..k] == ind;
  }
}
