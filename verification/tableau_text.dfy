/** The Sparse Tableau system on the text track (get_tableau_matrix_str).
    The blocks are laid out exactly as on the numeric track, with the fillers
    that `np.zeros` and `-np.eye` spell as text ("0.0", "-1.0", "-0.0");
    afterwards every cell written as a float is rewritten in integer form. */
module TableauText {
  import opened Matrices
  import opened SparseTableau

  /** The spellings of zero the cleanup passes replace by "0". */
  predicate IsZeroSpelling(s: string)
  {
    s == "" || s == "0.0" || s == "-0.0"
  }

  /** First rewrite of a cell: an empty or float zero becomes "0". */
  function CanonZero(s: string): string
  {
    if IsZeroSpelling(s) then "0" else s
  }

  /** The full rewrite of a matrix cell: zero first, then "-1.0" to "-1",
      then "1.0" to "1" (three conditional assignments, in that order). */
  function Canon(s: string): string
  {
    var z := CanonZero(s);
    var m := if z == "-1.0" then "-1" else z;
    if m == "1.0" then "1" else m
  }

  /** `Canon` applied to every cell of a text matrix. */
  function CanonMatrix(m: Matrix<string>): (r: Matrix<string>)
    ensures |r| == |m| && forall i :: 0 <= i < |m| ==> |r[i]| == |m[i]|
    ensures forall i, j :: 0 <= i < |m| && 0 <= j < |m[i]| ==> r[i][j] == Canon(m[i][j])
  {
    seq(|m|, i requires 0 <= i < |m| => CanonRow(m[i]))
  }

  function CanonRow(row: seq<string>): (r: seq<string>)
    ensures |r| == |row| && forall j :: 0 <= j < |row| ==> r[j] == Canon(row[j])
  {
    seq(|row|, j requires 0 <= j < |row| => Canon(row[j]))
  }

  /** `CanonZero` applied to every entry of a text column. */
  function CanonZeroColumn(v: seq<string>): (r: seq<string>)
    ensures |r| == |v| && forall i :: 0 <= i < |v| ==> r[i] == CanonZero(v[i])
  {
    seq(|v|, i requires 0 <= i < |v| => CanonZero(v[i]))
  }

  /** A cell spelled as a float or left empty. */
  predicate IsRawSpelling(s: string)
  {
    IsZeroSpelling(s) || s == "-1.0" || s == "1.0"
  }

  /** The zero rewrite leaves no zero spelling, changes nothing else, and
      is idempotent. */
  lemma CanonZeroSpec(s: string)
    ensures !IsZeroSpelling(CanonZero(s))
    ensures !IsZeroSpelling(s) ==> CanonZero(s) == s
    ensures CanonZero(s) == "0" <==> IsZeroSpelling(s) || s == "0"
    ensures CanonZero(CanonZero(s)) == CanonZero(s)
  {
  }

  /** The full rewrite leaves no float spelling, changes nothing else, reads
      zero exactly for the zero spellings, and is idempotent. */
  lemma CanonSpec(s: string)
    ensures !IsRawSpelling(Canon(s))
    ensures !IsRawSpelling(s) ==> Canon(s) == s
    ensures Canon(s) == "0" <==> IsZeroSpelling(s) || s == "0"
    ensures Canon(s) == "-1" <==> s == "-1.0" || s == "-1"
    ensures Canon(s) == "1" <==> s == "1.0" || s == "1"
    ensures Canon(Canon(s)) == Canon(s)
  {
  }

  /** get_tableau_matrix_str as a value: the text blocks of the numeric
      layout, every stiffness and damping cell rewritten by `Canon`; the
      source column assembled from f after its zero rewrite, then zero
      rewritten again. */
  function TableauStrOf(As: Matrix<string>, Rs: Matrix<string>, Gs: Matrix<string>, Ls: Matrix<string>,
                        Cs: Matrix<string>, fs: seq<string>, n: nat, e: nat): (t: Tableau<string>)
    requires Shaped(As, Rs, Gs, Ls, Cs, fs, n, e)
    ensures IsMatrix(t.stiffness, n - 1 + 2 * e, 2 * e + n - 1)
    ensures IsMatrix(t.damping, n - 1 + 2 * e, 2 * e + n - 1)
    ensures |t.source| == n - 1 + 2 * e
  {
    Tableau(CanonMatrix(Stiffness(As, Rs, Gs, n - 1, e, "0.0", "-1.0", "-0.0")),
            CanonMatrix(Damping(Ls, Cs, n - 1, e, "0.0")),
            CanonZeroColumn(SourceColumn(CanonZeroColumn(fs), n - 1, e, "0.0")))
  }

  /** No cell of the text system is an empty or float spelling, and each
      cell is the rewrite of the cell the block layout puts there. The second pass over the source column is
      redundant: one zero rewrite of the laid-out column gives the same. */
  lemma TableauStrSpec(As: Matrix<string>, Rs: Matrix<string>, Gs: Matrix<string>, Ls: Matrix<string>,
                       Cs: Matrix<string>, fs: seq<string>, n: nat, e: nat)
    requires Shaped(As, Rs, Gs, Ls, Cs, fs, n, e)
    ensures var t := TableauStrOf(As, Rs, Gs, Ls, Cs, fs, n, e);
            forall i, j :: 0 <= i < n - 1 + 2 * e && 0 <= j < 2 * e + n - 1 ==>
              && !IsRawSpelling(t.stiffness[i][j]) && !IsRawSpelling(t.damping[i][j])
              && t.stiffness[i][j] == Canon(StiffnessCell(As, Rs, Gs, n - 1, e, "0.0", "-1.0", "-0.0", i, j))
              && t.damping[i][j] == Canon(DampingCell(Ls, Cs, n - 1, e, "0.0", i, j))
    ensures var t := TableauStrOf(As, Rs, Gs, Ls, Cs, fs, n, e);
            && t.source == CanonZeroColumn(SourceColumn(fs, n - 1, e, "0.0"))
            && (forall i :: 0 <= i < |t.source| ==> !IsZeroSpelling(t.source[i]))
  {
    var nn := n - 1;
    var stiff, damp := Stiffness(As, Rs, Gs, nn, e, "0.0", "-1.0", "-0.0"), Damping(Ls, Cs, nn, e, "0.0");
    forall i, j | 0 <= i < nn + 2 * e && 0 <= j < 2 * e + nn
      ensures && !IsRawSpelling(CanonMatrix(stiff)[i][j]) && !IsRawSpelling(CanonMatrix(damp)[i][j])
              && CanonMatrix(stiff)[i][j] == Canon(StiffnessCell(As, Rs, Gs, nn, e, "0.0", "-1.0", "-0.0", i, j))
              && CanonMatrix(damp)[i][j] == Canon(DampingCell(Ls, Cs, nn, e, "0.0", i, j))
    {
      CanonCell(stiff, i, j);
      CanonCell(damp, i, j);
    }
    SourceTwice(fs, nn, e);
  }

  lemma CanonCell(m: Matrix<string>, i: nat, j: nat)
    requires i < |m| && j < |m[i]|
    ensures CanonMatrix(m)[i][j] == Canon(m[i][j]) && !IsRawSpelling(CanonMatrix(m)[i][j])
  {
    CanonSpec(m[i][j]);
  }

  /** Rewriting f before the layout and the column after it is one rewrite
      of the laid-out column, and leaves no zero spelling. */
  lemma SourceTwice(fs: seq<string>, nn: nat, e: nat)
    requires |fs| == e
    ensures var twice := CanonZeroColumn(SourceColumn(CanonZeroColumn(fs), nn, e, "0.0"));
            && twice == CanonZeroColumn(SourceColumn(fs, nn, e, "0.0"))
            && forall i :: 0 <= i < |twice| ==> !IsZeroSpelling(twice[i])
  {
    var twice := CanonZeroColumn(SourceColumn(CanonZeroColumn(fs), nn, e, "0.0"));
    var once := CanonZeroColumn(SourceColumn(fs, nn, e, "0.0"));
    forall i | 0 <= i < nn + 2 * e
      ensures twice[i] == once[i] && !IsZeroSpelling(twice[i])
    {
      if i >= nn + e {
        CanonZeroSpec(fs[i - nn - e]);
      }
      CanonZeroSpec(SourceColumn(fs, nn, e, "0.0")[i]);
    }
  }

  /** The double loop that rewrites every cell of a text array in place. */
  method CanonicalizeCells(a: array2<string>)
    modifies a
    ensures Cells(a) == CanonMatrix(old(Cells(a)))
  {
    ghost var before := Cells(a);
    var i := 0;
    while i < a.Length0
      invariant 0 <= i <= a.Length0
      invariant forall r, c :: 0 <= r < a.Length0 && 0 <= c < a.Length1 ==>
                  a[r, c] == if r < i then Canon(before[r][c]) else before[r][c]
    {
      var j := 0;
      while j < a.Length1
        invariant 0 <= j <= a.Length1
        invariant forall r, c :: 0 <= r < a.Length0 && 0 <= c < a.Length1 ==>
                    a[r, c] == if r < i || (r == i && c < j) then Canon(before[r][c]) else before[r][c]
      {
        if a[i, j] == "" || a[i, j] == "-0.0" || a[i, j] == "0.0" {
          a[i, j] := "0";
        }
        if a[i, j] == "-1.0" {
          a[i, j] := "-1";
        }
        if a[i, j] == "1.0" {
          a[i, j] := "1";
        }
        j := j + 1;
      }
      i := i + 1;
    }
    Extensionality(Cells(a), CanonMatrix(before), a.Length0, a.Length1);
  }

  /** The loop over f that rewrites its zero spellings in place. */
  method CanonZeroInPlace(v: array<string>)
    modifies v
    ensures v[..] == CanonZeroColumn(old(v[..]))
  {
    ghost var before := v[..];
    var k := 0;
    while k < v.Length
      invariant 0 <= k <= v.Length
      invariant forall i :: 0 <= i < v.Length ==> v[i] == if i < k then CanonZero(before[i]) else before[i]
    {
      if v[k] == "" || v[k] == "0.0" || v[k] == "-0.0" {
        v[k] := "0";
      }
      k := k + 1;
    }
    assert v[..] == CanonZeroColumn(before);
  }

  /** The cleanup loop over the assembled source column. */
  method CanonZeroEntries(b: seq<string>) returns (r: seq<string>)
    ensures |r| == |b|
    ensures forall i :: 0 <= i < |b| ==> !IsZeroSpelling(r[i]) && (r[i] == b[i] || (IsZeroSpelling(b[i]) && r[i] == "0"))
    ensures r == CanonZeroColumn(b)
  {
    r := b;
    var k := 0;
    while k < |r|
      invariant 0 <= k <= |r| && |r| == |b|
      invariant forall i :: 0 <= i < |b| ==> r[i] == if i < k then CanonZero(b[i]) else b[i]
    {
      if r[k] == "" || r[k] == "0.0" || r[k] == "-0.0" {
        r := r[k := "0"];
      }
      k := k + 1;
    }
  }

  /** get_tableau_matrix_str. The caller's f is rewritten in place (its zero
      spellings become "0") before it is laid out into the source column. */
  method BuildTableauStr(As: Matrix<string>, Rs: Matrix<string>, Gs: Matrix<string>, Ls: Matrix<string>,
                         Cs: Matrix<string>, fvec: array<string>, n: nat, e: nat) returns (t: Tableau<string>)
    requires Shaped(As, Rs, Gs, Ls, Cs, fvec[..], n, e)
    modifies fvec
    ensures fvec[..] == CanonZeroColumn(old(fvec[..]))
    ensures t == TableauStrOf(As, Rs, Gs, Ls, Cs, old(fvec[..]), n, e)
  {
    var nn := n - 1;
    var m1 := ArrayOf(Stiffness(As, Rs, Gs, nn, e, "0.0", "-1.0", "-0.0"), nn + 2 * e, 2 * e + nn);
    CanonicalizeCells(m1);
    var stiffness := Cells(m1);

    CanonZeroInPlace(fvec);
    var b := SourceColumn(fvec[..], nn, e, "0.0");
    b := CanonZeroEntries(b);
    var m2 := ArrayOf(Damping(Ls, Cs, nn, e, "0.0"), nn + 2 * e, 2 * e + nn);
    CanonicalizeCells(m2);
    t := Tableau(stiffness, Cells(m2), b);
  }
}
