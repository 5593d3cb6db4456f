/** The signed incidence matrix of the circuit graph (Kirchhoff's current
    law), built on the numeric track and on the text track. Both tracks fill
    a "plus" array (pin1 rows) and a "minus" array (pin2 rows), add them cell
    by cell and delete the row of the reference node. */
module Incidence {
  import opened Matrices
  import opened Netlist

  /** The "plus" array: `one` at row pin1 - 1 of column j, `blank` elsewhere. */
  function PlusPart<T>(cs: seq<Component>, n: nat, e: nat, blank: T, one: T): (m: Matrix<T>)
    requires e <= |cs|
    ensures IsMatrix(m, n, e)
    ensures forall r, j :: 0 <= r < n && 0 <= j < e ==> m[r][j] == if cs[j].pin1 - 1 == r then one else blank
  {
    seq(n, r => seq(e, j requires 0 <= j < e => if cs[j].pin1 - 1 == r then one else blank))
  }

  /** The "minus" array: `minusOne` at row pin2 - 1 of column j, `blank` elsewhere. */
  function MinusPart<T>(cs: seq<Component>, n: nat, e: nat, blank: T, minusOne: T): (m: Matrix<T>)
    requires e <= |cs|
    ensures IsMatrix(m, n, e)
    ensures forall r, j :: 0 <= r < n && 0 <= j < e ==> m[r][j] == if cs[j].pin2 - 1 == r then minusOne else blank
  {
    seq(n, r => seq(e, j requires 0 <= j < e => if cs[j].pin2 - 1 == r then minusOne else blank))
  }

  /** The incidence matrix before the reference row is deleted. */
  function FullIncidenceWith<T>(cs: seq<Component>, n: nat, e: nat, blank: T, one: T, minusOne: T, add: (T, T) -> T): (m: Matrix<T>)
    requires e <= |cs|
    ensures IsMatrix(m, n, e)
  {
    Combine(PlusPart(cs, n, e, blank, one), MinusPart(cs, n, e, blank, minusOne), add)
  }

  /** The incidence matrix with row `ref - 1` deleted. */
  function IncidenceWith<T>(cs: seq<Component>, n: nat, e: nat, ref: int, blank: T, one: T, minusOne: T, add: (T, T) -> T): (m: Matrix<T>)
    requires e <= |cs| && 1 <= ref <= n
    ensures IsMatrix(m, n - 1, e)
  {
    DeleteRow(FullIncidenceWith(cs, n, e, blank, one, minusOne, add), ref - 1)
  }

  function AddInt(x: int, y: int): int { x + y }

  function Concat(x: string, y: string): string { x + y }

  /** Numeric track: cells 0, 1, -1 added as numbers. */
  function FullIncidence(cs: seq<Component>, n: nat, e: nat): Matrix<int>
    requires e <= |cs|
  {
    FullIncidenceWith(cs, n, e, 0, 1, -1, AddInt)
  }

  function IncidenceMatrix(cs: seq<Component>, n: nat, e: nat, ref: int): (a: Matrix<int>)
    requires e <= |cs| && 1 <= ref <= n
    ensures IsMatrix(a, n - 1, e)
  {
    IncidenceWith(cs, n, e, ref, 0, 1, -1, AddInt)
  }

  /** Text track: tokens "", "1", "-1" added by concatenation. */
  function IncidenceMatrixStr(cs: seq<Component>, n: nat, e: nat, ref: int): (a: Matrix<string>)
    requires e <= |cs| && 1 <= ref <= n
    ensures IsMatrix(a, n - 1, e)
  {
    IncidenceWith(cs, n, e, ref, "", "1", "-1", Concat)
  }

  /** The row of the full matrix that row `r` of the reduced matrix came from. */
  function SourceRow(r: nat, ref: int): nat
  {
    if r < ref - 1 then r else r + 1
  }

  /** The numeric cell of column `c` at full-matrix row `row`. */
  function NumericCell(c: Component, row: int): int
  {
    (if c.pin1 - 1 == row then 1 else 0) + (if c.pin2 - 1 == row then -1 else 0)
  }

  /** The text cell of column `c` at full-matrix row `row`. */
  function TextCell(c: Component, row: int): string
  {
    (if c.pin1 - 1 == row then "1" else "") + (if c.pin2 - 1 == row then "-1" else "")
  }

  /** The generic builder: `np.zeros`/`np.empty` plus and minus arrays, one
      loop per terminal, cell-wise sum, and deletion of the reference row. */
  method BuildIncidenceWith<T>(cs: seq<Component>, n: nat, e: nat, ref: int,
                               blank: T, one: T, minusOne: T, add: (T, T) -> T)
    returns (a: Matrix<T>)
    requires e <= |cs| && PinsInRange(cs[..e], n) && 1 <= ref <= n
    ensures a == IncidenceWith(cs, n, e, ref, blank, one, minusOne, add)
  {
    var plus := NewMatrix(n, e, blank);
    var minus := NewMatrix(n, e, blank);
    var j := 0;
    while j < e
      invariant 0 <= j <= e
      invariant forall r, c :: 0 <= r < n && 0 <= c < e ==>
                  plus[r, c] == if c < j && cs[c].pin1 - 1 == r then one else blank
      invariant forall r, c :: 0 <= r < n && 0 <= c < e ==> minus[r, c] == blank
    {
      assert cs[..e][j] == cs[j];
      plus[cs[j].pin1 - 1, j] := one;
      j := j + 1;
    }
    j := 0;
    while j < e
      invariant 0 <= j <= e
      invariant forall r, c :: 0 <= r < n && 0 <= c < e ==>
                  minus[r, c] == if c < j && cs[c].pin2 - 1 == r then minusOne else blank
      invariant forall r, c :: 0 <= r < n && 0 <= c < e ==>
                  plus[r, c] == if cs[c].pin1 - 1 == r then one else blank
    {
      assert cs[..e][j] == cs[j];
      minus[cs[j].pin2 - 1, j] := minusOne;
      j := j + 1;
    }
    Extensionality(Cells(plus), PlusPart(cs, n, e, blank, one), n, e);
    Extensionality(Cells(minus), MinusPart(cs, n, e, blank, minusOne), n, e);
    a := DeleteRow(Combine(Cells(plus), Cells(minus), add), ref - 1);
  }

  /** get_incidence_matrix. */
  method BuildIncidence(cs: seq<Component>, n: nat, e: nat, ref: int) returns (a: Matrix<int>)
    requires e <= |cs| && PinsInRange(cs[..e], n) && 1 <= ref <= n
    ensures a == IncidenceMatrix(cs, n, e, ref)
  {
    a := BuildIncidenceWith(cs, n, e, ref, 0, 1, -1, AddInt);
  }

  /** get_incidence_matrix_str. */
  method BuildIncidenceStr(cs: seq<Component>, n: nat, e: nat, ref: int) returns (a: Matrix<string>)
    requires e <= |cs| && PinsInRange(cs[..e], n) && 1 <= ref <= n
    ensures a == IncidenceMatrixStr(cs, n, e, ref)
  {
    a := BuildIncidenceWith(cs, n, e, ref, "", "1", "-1", Concat);
  }

  /** Row r of the reduced matrices is row `SourceRow(r, ref)` of the full
      ones: the reference row is gone, the others keep their order, and each
      cell is the sum of a pin1 part and a pin2 part. */
  lemma IncidenceCells(cs: seq<Component>, n: nat, e: nat, ref: int)
    requires e <= |cs| && 1 <= ref <= n
    ensures IsMatrix(IncidenceMatrix(cs, n, e, ref), n - 1, e)
    ensures IsMatrix(IncidenceMatrixStr(cs, n, e, ref), n - 1, e)
    ensures forall r, j :: 0 <= r < n - 1 && 0 <= j < e ==>
              IncidenceMatrix(cs, n, e, ref)[r][j] == NumericCell(cs[j], SourceRow(r, ref))
    ensures forall r, j :: 0 <= r < n - 1 && 0 <= j < e ==>
              IncidenceMatrixStr(cs, n, e, ref)[r][j] == TextCell(cs[j], SourceRow(r, ref))
  {
    var full := FullIncidence(cs, n, e);
    var fullStr := FullIncidenceWith(cs, n, e, "", "1", "-1", Concat);
    assert forall r, j :: 0 <= r < n && 0 <= j < e ==> full[r][j] == NumericCell(cs[j], r);
    assert forall r, j :: 0 <= r < n && 0 <= j < e ==> fullStr[r][j] == TextCell(cs[j], r);
  }

  /** Sum of the first `k` cells of column j. */
  function ColumnSum(m: Matrix<int>, j: nat, k: nat): int
    requires k <= |m| && forall r :: 0 <= r < k ==> j < |m[r]|
  {
    if k == 0 then 0 else ColumnSum(m, j, k - 1) + m[k - 1][j]
  }

  /** The first `k` cells of a column add up to the count of its +1 row among
      them minus the count of its -1 row among them. */
  lemma {:induction false} ColumnSumPrefix(cs: seq<Component>, n: nat, e: nat, j: nat, k: nat)
    requires j < e <= |cs| && k <= n
    ensures IsMatrix(FullIncidence(cs, n, e), n, e)
    ensures ColumnSum(FullIncidence(cs, n, e), j, k) ==
              (if 0 <= cs[j].pin1 - 1 < k then 1 else 0) - (if 0 <= cs[j].pin2 - 1 < k then 1 else 0)
  {
    var full := FullIncidence(cs, n, e);
    if k > 0 {
      ColumnSumPrefix(cs, n, e, j, k - 1);
      assert full[k - 1][j] == NumericCell(cs[j], k - 1);
    }
  }

  /** Before the reference row is deleted, column j holds +1 at row
      pin1 - 1 and -1 at row pin2 - 1, the two cancel when pin1 = pin2, every
      other cell is 0, and the column sums to 0. */
  lemma IncidenceColumn(cs: seq<Component>, n: nat, e: nat, j: nat)
    requires j < e <= |cs| && PinsInRange(cs[..e], n)
    ensures IsMatrix(FullIncidence(cs, n, e), n, e)
    ensures cs[j].pin1 != cs[j].pin2 ==>
              FullIncidence(cs, n, e)[cs[j].pin1 - 1][j] == 1 && FullIncidence(cs, n, e)[cs[j].pin2 - 1][j] == -1
    ensures forall r :: 0 <= r < n && r != cs[j].pin1 - 1 && r != cs[j].pin2 - 1 ==> FullIncidence(cs, n, e)[r][j] == 0
    ensures cs[j].pin1 == cs[j].pin2 ==> forall r :: 0 <= r < n ==> FullIncidence(cs, n, e)[r][j] == 0
    ensures ColumnSum(FullIncidence(cs, n, e), j, n) == 0
  {
    var full := FullIncidence(cs, n, e);
    assert cs[..e][j] == cs[j];
    assert forall r :: 0 <= r < n ==> full[r][j] == NumericCell(cs[j], r);
    ColumnSumPrefix(cs, n, e, j, n);
  }

  /** Track agreement of the two incidence matrices: a column whose pins
      differ has "", "1", "-1" exactly where the numeric matrix has 0, 1, -1;
      a self-loop column is 0 on the numeric track while its text cell at the
      shared pin is the concatenation "1-1" (an expression worth 0). */
  lemma IncidenceTracksAgree(cs: seq<Component>, n: nat, e: nat, ref: int, r: nat, j: nat)
    requires e <= |cs| && 1 <= ref <= n && r < n - 1 && j < e
    ensures cs[j].pin1 != cs[j].pin2 ==>
              var x := IncidenceMatrix(cs, n, e, ref)[r][j];
              var s := IncidenceMatrixStr(cs, n, e, ref)[r][j];
              (x == 0 && s == "") || (x == 1 && s == "1") || (x == -1 && s == "-1")
    ensures cs[j].pin1 == cs[j].pin2 ==>
              IncidenceMatrix(cs, n, e, ref)[r][j] == 0 &&
              IncidenceMatrixStr(cs, n, e, ref)[r][j] in {"", "1-1"}
  {
    IncidenceCells(cs, n, e, ref);
    var row := SourceRow(r, ref);
    if cs[j].pin1 - 1 == row && cs[j].pin2 - 1 == row {
      assert TextCell(cs[j], row) == "1" + "-1" == "1-1";
    } else if cs[j].pin1 - 1 == row {
      assert TextCell(cs[j], row) == "1" + "";
    } else if cs[j].pin2 - 1 == row {
      assert TextCell(cs[j], row) == "" + "-1";
    } else {
      assert TextCell(cs[j], row) == "" + "";
    }
  }
}
