/** The two zero-row detectors of the assembled system: get_zero_rows on the
    numeric track and get_zero_rows_str on the text track. A row of the
    system is the triple (row of M1, row of M2, entry of b). */
module ZeroRowDetection {
  import opened Seqs
  import opened Matrices

  // ---------------------------------------------------------------------
  // Numeric track.
  // ---------------------------------------------------------------------

  /** Row i of M1 + M2 + b has no non-zero cell, the column b being added to
      every cell of its row (numpy broadcasting of an n x 1 column). */
  ghost predicate SumRowZero(M1: Matrix<int>, M2: Matrix<int>, b: seq<int>, cols: nat, i: nat)
    requires i < |M1| && i < |M2| && i < |b| && |M1[i]| == cols && |M2[i]| == cols
  {
    forall j :: 0 <= j < cols ==> M1[i][j] + M2[i][j] + b[i] == 0
  }

  /** Row i is zero in M1, in M2 and in b. */
  ghost predicate RowAllZero(M1: Matrix<int>, M2: Matrix<int>, b: seq<int>, cols: nat, i: nat)
    requires i < |M1| && i < |M2| && i < |b| && |M1[i]| == cols && |M2[i]| == cols
  {
    (forall j :: 0 <= j < cols ==> M1[i][j] == 0 && M2[i][j] == 0) && b[i] == 0
  }

  ghost predicate Shapes<T>(M1: Matrix<T>, M2: Matrix<T>, b: seq<T>, rows: nat, cols: nat)
  {
    IsMatrix(M1, rows, cols) && IsMatrix(M2, rows, cols) && |b| == rows
  }

  /** get_zero_rows: the ascending indices of the rows in which the sum
      M1 + M2 + b has no non-zero cell. */
  function ZeroRows(M1: Matrix<int>, M2: Matrix<int>, b: seq<int>, rows: nat, cols: nat): (zr: seq<nat>)
    requires Shapes(M1, M2, b, rows, cols)
  {
    Positions(SumMask(M1, M2, b, rows, cols))
  }

  function SumMask(M1: Matrix<int>, M2: Matrix<int>, b: seq<int>, rows: nat, cols: nat): (mask: seq<bool>)
    requires Shapes(M1, M2, b, rows, cols)
    ensures |mask| == rows && forall i :: 0 <= i < rows ==> mask[i] == SumRowZero(M1, M2, b, cols, i)
  {
    seq(rows, i requires 0 <= i < rows && Shapes(M1, M2, b, rows, cols) =>
      forall j :: 0 <= j < cols ==> M1[i][j] + M2[i][j] + b[i] == 0)
  }

  /** What the detector is documented to report: the rows populated with
      zeros in all three arrays. */
  function ZeroRowsExact(M1: Matrix<int>, M2: Matrix<int>, b: seq<int>, rows: nat, cols: nat): (zr: seq<nat>)
    requires Shapes(M1, M2, b, rows, cols)
  {
    Positions(ExactMask(M1, M2, b, rows, cols))
  }

  function ExactMask(M1: Matrix<int>, M2: Matrix<int>, b: seq<int>, rows: nat, cols: nat): (mask: seq<bool>)
    requires Shapes(M1, M2, b, rows, cols)
    ensures |mask| == rows && forall i :: 0 <= i < rows ==> mask[i] == RowAllZero(M1, M2, b, cols, i)
  {
    seq(rows, i requires 0 <= i < rows && Shapes(M1, M2, b, rows, cols) =>
      (forall j :: 0 <= j < cols ==> M1[i][j] == 0 && M2[i][j] == 0) && b[i] == 0)
  }

  /** get_zero_rows reports, in ascending order, exactly the rows whose sum
      vanishes; the exact variant exactly the rows that vanish in all three
      arrays; and every row of the second kind is also of the first. */
  lemma ZeroRowsSpec(M1: Matrix<int>, M2: Matrix<int>, b: seq<int>, rows: nat, cols: nat)
    requires Shapes(M1, M2, b, rows, cols)
    ensures forall i: nat :: i in ZeroRows(M1, M2, b, rows, cols) <==> i < rows && SumRowZero(M1, M2, b, cols, i)
    ensures forall i: nat :: i in ZeroRowsExact(M1, M2, b, rows, cols) <==> i < rows && RowAllZero(M1, M2, b, cols, i)
    ensures StrictlyIncreasing(ZeroRows(M1, M2, b, rows, cols))
    ensures StrictlyIncreasing(ZeroRowsExact(M1, M2, b, rows, cols))
    ensures forall i: nat :: i in ZeroRowsExact(M1, M2, b, rows, cols) ==> i in ZeroRows(M1, M2, b, rows, cols)
  {
    PositionsSpec(SumMask(M1, M2, b, rows, cols));
    PositionsSpec(ExactMask(M1, M2, b, rows, cols));
  }

  /** Because the three arrays are summed before the test, cells of opposite
      sign cancel: a row with a 1 in M1 and -1 in b is reported as a zero
      row although neither array is zero there. */
  lemma SumCancels()
    ensures ZeroRows([[1]], [[0]], [-1], 1, 1) == [0]
    ensures ZeroRowsExact([[1]], [[0]], [-1], 1, 1) == []
  {
    var sum := SumMask([[1]], [[0]], [-1], 1, 1);
    var exact := ExactMask([[1]], [[0]], [-1], 1, 1);
    assert SumRowZero([[1]], [[0]], [-1], 1, 0);
    assert !RowAllZero([[1]], [[0]], [-1], 1, 0);
    assert sum == [true] && exact == [false];
    assert sum[..0] == [] && exact[..0] == [];
  }

  // ---------------------------------------------------------------------
  // Text track.
  // ---------------------------------------------------------------------

  /** `str.lstrip("-")`: drops every leading minus sign. */
  function StripLeading(s: string): (r: string)
    decreases |s|
  {
    if |s| > 0 && s[0] == '-' then StripLeading(s[1..]) else s
  }

  /** `str.rstrip("-")`: drops every trailing minus sign. */
  function StripTrailing(s: string): (r: string)
    decreases |s|
  {
    if |s| > 0 && s[|s| - 1] == '-' then StripTrailing(s[..|s| - 1]) else s
  }

  /** `str.strip("-")`. */
  function StripMinus(s: string): (r: string)
  {
    StripTrailing(StripLeading(s))
  }

  /** A text cell get_zero_rows_str counts as zero: once its minus signs are
      stripped it reads `str(0.0)` or `str(0)`. */
  predicate IsZeroText(s: string)
  {
    var t := StripMinus(s);
    t == "0.0" || t == "0"
  }

  /** Stripping only removes minus signs at the ends: the result never starts
      or ends with one, a string with no minus at either end is unchanged,
      and a string that starts with something else keeps that first
      character. */
  lemma {:induction false} StripSpec(s: string)
    ensures var r := StripMinus(s); |r| == 0 || (r[0] != '-' && r[|r| - 1] != '-')
    ensures |s| > 0 && s[0] != '-' && s[|s| - 1] != '-' ==> StripMinus(s) == s
    ensures |s| > 0 && s[0] != '-' ==> |StripMinus(s)| > 0 && StripMinus(s)[0] == s[0]
    ensures StripMinus("-" + s) == StripMinus(s)
  {
    LeadingSpec(s);
    TrailingSpec(StripLeading(s));
    assert ("-" + s)[1..] == s;
  }

  lemma {:induction false} LeadingSpec(s: string)
    ensures var r := StripLeading(s); |r| == 0 || r[0] != '-'
    ensures |s| > 0 && s[0] != '-' ==> StripLeading(s) == s
    ensures |StripLeading(s)| > 0 ==> StripLeading(s)[|StripLeading(s)| - 1] == s[|s| - 1]
    decreases |s|
  {
    if |s| > 0 && s[0] == '-' {
      LeadingSpec(s[1..]);
    }
  }

  lemma {:induction false} TrailingSpec(s: string)
    ensures var r := StripTrailing(s); |r| == 0 || r[|r| - 1] != '-'
    ensures |s| > 0 && s[|s| - 1] != '-' ==> StripTrailing(s) == s
    ensures |s| > 0 && s[0] != '-' ==> |StripTrailing(s)| > 0 && StripTrailing(s)[0] == s[0]
    ensures |StripTrailing(s)| > 0 ==> StripTrailing(s)[0] == s[0]
    decreases |s|
  {
    if |s| > 0 && s[|s| - 1] == '-' {
      TrailingSpec(s[..|s| - 1]);
    }
  }

  /** The zero test on the spellings the text system is made of: the integer
      forms "0", "1", "-1", the float forms, and a self-loop's "1-1"; and on
      a text that starts with something other than a minus sign or a digit
      zero, with or without a minus sign in front. */
  lemma ZeroTextCases(s: string)
    ensures IsZeroText("0") && IsZeroText("0.0") && IsZeroText("-0.0")
    ensures !IsZeroText("") && !IsZeroText("1") && !IsZeroText("-1") && !IsZeroText("1-1")
    ensures |s| > 0 && s[0] != '-' && s[0] != '0' ==> !IsZeroText(s) && !IsZeroText("-" + s)
  {
    StripSpec("0");
    StripSpec("0.0");
    StripSpec("-0.0");
    StripSpec("0.0");
    StripSpec("1");
    StripSpec("-1");
    StripSpec("1-1");
    assert StripMinus("") == "";
    StripSpec(s);
  }

  /** Row i of the text system is zero in both matrices and in b. */
  ghost predicate RowZeroText(M1s: Matrix<string>, M2s: Matrix<string>, bs: seq<string>, cols: nat, i: nat)
    requires i < |M1s| && i < |M2s| && i < |bs| && |M1s[i]| == cols && |M2s[i]| == cols
  {
    (forall j :: 0 <= j < cols ==> IsZeroText(M1s[i][j]) && IsZeroText(M2s[i][j])) && IsZeroText(bs[i])
  }

  /** The rows get_zero_rows_str reports. */
  function ZeroRowsStrOf(M1s: Matrix<string>, M2s: Matrix<string>, bs: seq<string>, rows: nat, cols: nat): (zr: seq<nat>)
    requires Shapes(M1s, M2s, bs, rows, cols)
  {
    Positions(ZeroTextMask(M1s, M2s, bs, rows, cols))
  }

  function ZeroTextMask(M1s: Matrix<string>, M2s: Matrix<string>, bs: seq<string>, rows: nat, cols: nat): (mask: seq<bool>)
    requires Shapes(M1s, M2s, bs, rows, cols)
    ensures |mask| == rows && forall i :: 0 <= i < rows ==> mask[i] == RowZeroText(M1s, M2s, bs, cols, i)
  {
    seq(rows, i requires 0 <= i < rows && Shapes(M1s, M2s, bs, rows, cols) =>
      (forall j :: 0 <= j < cols ==> IsZeroText(M1s[i][j]) && IsZeroText(M2s[i][j])) && IsZeroText(bs[i]))
  }

  /** get_zero_rows_str reports, in ascending order, exactly the rows whose
      every cell in both matrices, and whose entry of b, read as zero. */
  lemma ZeroRowsStrSpec(M1s: Matrix<string>, M2s: Matrix<string>, bs: seq<string>, rows: nat, cols: nat)
    requires Shapes(M1s, M2s, bs, rows, cols)
    ensures forall i: nat :: i in ZeroRowsStrOf(M1s, M2s, bs, rows, cols) <==> i < rows && RowZeroText(M1s, M2s, bs, cols, i)
    ensures StrictlyIncreasing(ZeroRowsStrOf(M1s, M2s, bs, rows, cols))
  {
    PositionsSpec(ZeroTextMask(M1s, M2s, bs, rows, cols));
  }

  /** get_zero_rows_str: per row, count the columns whose two matrix cells
      read as zero; report the row when every column counted and b reads as
      zero there. */
  method GetZeroRowsStr(M1s: Matrix<string>, M2s: Matrix<string>, bs: seq<string>, rows: nat, cols: nat)
    returns (zr: seq<nat>)
    requires Shapes(M1s, M2s, bs, rows, cols)
    ensures zr == ZeroRowsStrOf(M1s, M2s, bs, rows, cols)
  {
    ghost var mask := ZeroTextMask(M1s, M2s, bs, rows, cols);
    zr := [];
    var i := 0;
    while i < rows
      invariant 0 <= i <= rows
      invariant zr == Positions(mask[..i])
    {
      var counter := CountZeroCells(M1s[i], M2s[i], cols);
      var b := StripMinus(bs[i]);
      assert mask[i] == (counter == cols && IsZeroText(bs[i]));
      if counter == cols && (b == "0.0" || b == "0") {
        zr := zr + [i];
      }
      assert mask[..i + 1] == mask[..i] + [mask[i]];
      PositionsSnoc(mask[..i], mask[i]);
      i := i + 1;
    }
    assert mask[..rows] == mask;
  }

  /** The inner loop of get_zero_rows_str: `zero_counter` over one row; it
      reaches the row length exactly when every pair of cells reads as zero. */
  method CountZeroCells(r1: seq<string>, r2: seq<string>, cols: nat) returns (counter: nat)
    requires |r1| == cols && |r2| == cols
    ensures counter <= cols
    ensures counter == cols <==> forall j :: 0 <= j < cols ==> IsZeroText(r1[j]) && IsZeroText(r2[j])
  {
    ghost var cells := seq(cols, j requires 0 <= j < cols => IsZeroText(r1[j]) && IsZeroText(r2[j]));
    counter := 0;
    var j := 0;
    while j < cols
      invariant 0 <= j <= cols
      invariant counter == CountTrue(cells[..j])
    {
      var m1 := StripMinus(r1[j]);
      var m2 := StripMinus(r2[j]);
      if (m1 == "0.0" || m1 == "0") && (m2 == "0.0" || m2 == "0") {
        counter := counter + 1;
      }
      assert cells[..j + 1][..j] == cells[..j];
      j := j + 1;
    }
    assert cells[..cols] == cells;
    CountTrueAll(cells);
    assert forall k :: 0 <= k < cols ==> cells[k] == (IsZeroText(r1[k]) && IsZeroText(r2[k]));
  }

  // ---------------------------------------------------------------------
  // The two tracks.
  // ---------------------------------------------------------------------

  /** A text cell and a numeric cell agree on being zero. */
  predicate ZeroAgree(s: string, x: int)
  {
    IsZeroText(s) <==> x == 0
  }

  /** When the text system agrees cell by cell with a numeric one on which
      cells are zero, get_zero_rows_str reports exactly the rows that are
      zero in all three numeric arrays. */
  lemma ZeroRowsTracksAgree(M1s: Matrix<string>, M2s: Matrix<string>, bs: seq<string>,
                            M1: Matrix<int>, M2: Matrix<int>, b: seq<int>, rows: nat, cols: nat)
    requires Shapes(M1s, M2s, bs, rows, cols) && Shapes(M1, M2, b, rows, cols)
    requires forall i, j :: 0 <= i < rows && 0 <= j < cols ==>
               ZeroAgree(M1s[i][j], M1[i][j]) && ZeroAgree(M2s[i][j], M2[i][j])
    requires forall i :: 0 <= i < rows ==> ZeroAgree(bs[i], b[i])
    ensures ZeroRowsStrOf(M1s, M2s, bs, rows, cols) == ZeroRowsExact(M1, M2, b, rows, cols)
  {
    var text, exact := ZeroTextMask(M1s, M2s, bs, rows, cols), ExactMask(M1, M2, b, rows, cols);
    forall i | 0 <= i < rows
      ensures text[i] == exact[i]
    {
      assert ZeroAgree(bs[i], b[i]);
    }
    assert text == exact;
  }
}
