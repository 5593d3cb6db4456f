/** The text pipeline of generate_elmer_circuits for one circuit, end to
    end: tableau, unknown names with their component voltage rows, zero
    rows, and the row exchanges of elmer_format_matrix. Its purpose is that
    Elmer finds the row of every `v_component(n)` unknown empty; for a
    circuit whose pins are exactly the nodes 1..n, with no self-loop and no
    non-Elmer component named like a coil voltage, that is what it
    achieves, whatever the component values. */
module ElmerPipeline {
  import opened Seqs
  import opened Matrices
  import opened Netlist
  import opened Partition
  import opened Incidence
  import opened BranchLaws
  import opened SparseTableau
  import opened TableauText
  import opened ZeroRowDetection
  import opened TrackAgreement
  import opened UnknownNames
  import opened ElmerFormat

  // ---------------------------------------------------------------------
  // The cells of a circuit's numeric system.
  // ---------------------------------------------------------------------

  /** The cells of a numeric system of a circuit of n nodes (nn = n - 1
      current-law rows, then e = |cs| voltage-law rows, then e branch-law
      rows) that decide which rows are zero: the incidence of the node with
      each branch in a current-law row, -1 under v_k in the voltage-law row
      of branch k, and in the branch-law row of component k its resistance
      and conductance coefficients under i_k and v_k, its inductance and
      capacitance at the same places of the damping matrix, zero elsewhere,
      and its source entry in the source column. */
  ghost predicate CircuitCells(t: Tableau<int>, cs: seq<Component>, n: nat, ref: int)
  {
    && 1 <= n
    && Shapes(t.stiffness, t.damping, t.source, n - 1 + 2 * |cs|, 2 * |cs| + n - 1)
    && CurrentCells(t, cs, n, ref) && VoltageCells(t, cs, n) && BranchCells(t, cs, n) && SourceCells(t, cs, n)
  }

  ghost predicate CurrentCells(t: Tableau<int>, cs: seq<Component>, n: nat, ref: int)
    requires 1 <= n && Shapes(t.stiffness, t.damping, t.source, n - 1 + 2 * |cs|, 2 * |cs| + n - 1)
  {
    forall i, j :: 0 <= i < n - 1 && 0 <= j < |cs| ==> t.stiffness[i][j] == NumericCell(cs[j], SourceRow(i, ref))
  }

  ghost predicate VoltageCells(t: Tableau<int>, cs: seq<Component>, n: nat)
    requires 1 <= n && Shapes(t.stiffness, t.damping, t.source, n - 1 + 2 * |cs|, 2 * |cs| + n - 1)
  {
    forall i :: n - 1 <= i < n - 1 + |cs| ==> t.stiffness[i][i - (n - 1) + |cs|] == -1
  }

  ghost predicate BranchCells(t: Tableau<int>, cs: seq<Component>, n: nat)
    requires 1 <= n && Shapes(t.stiffness, t.damping, t.source, n - 1 + 2 * |cs|, 2 * |cs| + n - 1)
  {
    var nn, e := n - 1, |cs|;
    forall i, j :: nn + e <= i < nn + 2 * e && 0 <= j < 2 * e + nn ==>
      && t.stiffness[i][j] == (if j == i - nn - e then ResistanceCoef(cs[i - nn - e])
                               else if j == i - nn then ConductanceCoef(cs[i - nn - e]) else 0)
      && t.damping[i][j] == (if j == i - nn - e then InductanceCoef(cs[i - nn - e])
                             else if j == i - nn then CapacitanceCoef(cs[i - nn - e]) else 0)
  }

  ghost predicate SourceCells(t: Tableau<int>, cs: seq<Component>, n: nat)
    requires 1 <= n && |t.source| == n - 1 + 2 * |cs|
  {
    forall k :: 0 <= k < |cs| ==> t.source[n - 1 + |cs| + k] == SourceCoef(cs[k])
  }

  /** get_tableau_matrix puts the incidence block in the current-law rows. */
  lemma CurrentBlockCells(A: Matrix<int>, R: Matrix<int>, G: Matrix<int>, L: Matrix<int>, C: Matrix<int>, f: seq<int>,
                          cs: seq<Component>, n: nat, ref: int)
    requires Shaped(A, R, G, L, C, f, n, |cs|)
    requires forall i, j :: 0 <= i < n - 1 && 0 <= j < |cs| ==> A[i][j] == NumericCell(cs[j], SourceRow(i, ref))
    ensures CurrentCells(TableauMatrix(A, R, G, L, C, f, n, |cs|), cs, n, ref)
  {
    var t, nn, e := TableauMatrix(A, R, G, L, C, f, n, |cs|), n - 1, |cs|;
    forall i, j | 0 <= i < nn && 0 <= j < e
      ensures t.stiffness[i][j] == NumericCell(cs[j], SourceRow(i, ref))
    {
      assert t.stiffness[i][j] == StiffnessCell(A, R, G, nn, e, 0, -1, 0, i, j);
    }
  }

  /** get_tableau_matrix puts -1 under v_k in the voltage-law row of branch k. */
  lemma VoltageBlockCells(A: Matrix<int>, R: Matrix<int>, G: Matrix<int>, L: Matrix<int>, C: Matrix<int>, f: seq<int>,
                          cs: seq<Component>, n: nat)
    requires Shaped(A, R, G, L, C, f, n, |cs|)
    ensures VoltageCells(TableauMatrix(A, R, G, L, C, f, n, |cs|), cs, n)
  {
    var t, nn, e := TableauMatrix(A, R, G, L, C, f, n, |cs|), n - 1, |cs|;
    forall i | nn <= i < nn + e
      ensures t.stiffness[i][i - nn + e] == -1
    {
      assert t.stiffness[i][i - nn + e] == StiffnessCell(A, R, G, nn, e, 0, -1, 0, i, i - nn + e);
    }
  }

  /** get_tableau_matrix, given R, G, L and C that hold each component's
      coefficients on their diagonals, puts them in the branch-law rows. */
  lemma BranchBlockCells(A: Matrix<int>, R: Matrix<int>, G: Matrix<int>, L: Matrix<int>, C: Matrix<int>, f: seq<int>,
                         cs: seq<Component>, n: nat)
    requires Shaped(A, R, G, L, C, f, n, |cs|)
    requires forall i, j :: 0 <= i < |cs| && 0 <= j < |cs| ==> R[i][j] == if i == j then ResistanceCoef(cs[i]) else 0
    requires forall i, j :: 0 <= i < |cs| && 0 <= j < |cs| ==> G[i][j] == if i == j then ConductanceCoef(cs[i]) else 0
    requires forall i, j :: 0 <= i < |cs| && 0 <= j < |cs| ==>
               L[i][j] == (if i == j then InductanceCoef(cs[i]) else 0) && C[i][j] == (if i == j then CapacitanceCoef(cs[i]) else 0)
    ensures BranchCells(TableauMatrix(A, R, G, L, C, f, n, |cs|), cs, n)
  {
    var t, nn, e := TableauMatrix(A, R, G, L, C, f, n, |cs|), n - 1, |cs|;
    forall i, j | nn + e <= i < nn + 2 * e && 0 <= j < 2 * e + nn
      ensures t.stiffness[i][j] == (if j == i - nn - e then ResistanceCoef(cs[i - nn - e])
                                    else if j == i - nn then ConductanceCoef(cs[i - nn - e]) else 0)
      ensures t.damping[i][j] == (if j == i - nn - e then InductanceCoef(cs[i - nn - e])
                                  else if j == i - nn then CapacitanceCoef(cs[i - nn - e]) else 0)
    {
      assert t.stiffness[i][j] == StiffnessCell(A, R, G, nn, e, 0, -1, 0, i, j);
      assert t.damping[i][j] == DampingCell(L, C, nn, e, 0, i, j);
    }
  }

  /** get_tableau_matrix puts f below the zeros of the source column. */
  lemma SourceBlockCells(A: Matrix<int>, R: Matrix<int>, G: Matrix<int>, L: Matrix<int>, C: Matrix<int>, f: seq<int>,
                         cs: seq<Component>, n: nat)
    requires Shaped(A, R, G, L, C, f, n, |cs|)
    requires forall k :: 0 <= k < |cs| ==> f[k] == SourceCoef(cs[k])
    ensures SourceCells(TableauMatrix(A, R, G, L, C, f, n, |cs|), cs, n)
  {
    var b := SourceColumn(f, n - 1, |cs|, 0);
    assert TableauMatrix(A, R, G, L, C, f, n, |cs|).source == b;
  }

  /** The numeric system get_tableau_matrix builds for a circuit has the
      cells of CircuitCells. */
  lemma CircuitCellsHold(cs: seq<Component>, n: nat, ref: int)
    requires 1 <= ref <= n
    ensures CircuitCells(CircuitTableau(cs, n, ref), cs, n, ref)
  {
    AllIndicesValid(cs);
    IncidenceCells(cs, n, |cs|, ref);
    ResistanceByKind(cs);
    ConductanceByKind(cs);
    StorageByKind(cs);
    SourceVectorsByKind(cs);
    var e := |cs|;
    var indr, indv, indi := IndicesOf(cs, Resistors), IndicesOf(cs, VoltageSources), IndicesOf(cs, CurrentSources);
    var indInd, indcap := IndicesOf(cs, Inductors), IndicesOf(cs, Capacitors);
    var A, R, G := IncidenceMatrix(cs, n, e, ref), ResistanceMatrix(cs, e, indr, indi, indcap), ConductanceMatrix(e, indr, indv, indInd);
    var L, C, f := InductanceMatrix(cs, e, indInd), CapacitanceMatrix(cs, e, indcap), SourceVector(cs, e, indi, indv);
    CurrentBlockCells(A, R, G, L, C, f, cs, n, ref);
    VoltageBlockCells(A, R, G, L, C, f, cs, n);
    BranchBlockCells(A, R, G, L, C, f, cs, n);
    SourceBlockCells(A, R, G, L, C, f, cs, n);
  }

  // ---------------------------------------------------------------------
  // Which rows are zero.
  // ---------------------------------------------------------------------

  /** The circuits the pipeline is written for: node count get_num_nodes
      (every pin in 1..n, n distinct pins), the reference one of the nodes,
      and no self-loop. Names and values are free. */
  ghost predicate Admissible(cs: seq<Component>, n: nat, ref: int)
  {
    1 <= ref <= n && PinsInRange(cs, n) && |Pins(cs)| == n && NoSelfLoops(cs)
  }

  /** A current-law row is never zero: its node is a pin of some branch, and
      without self-loops that branch's incidence there is 1 or -1. */
  lemma CurrentRowNonZero(t: Tableau<int>, cs: seq<Component>, n: nat, ref: int, i: nat)
    requires Admissible(cs, n, ref) && CircuitCells(t, cs, n, ref) && i < n - 1
    ensures exists j :: 0 <= j < |cs| && t.stiffness[i][j] != 0
  {
    var row := SourceRow(i, ref);
    PinsCoverNodes(cs, n);
    assert 1 <= row + 1 <= n;
    PinsMember(cs, row + 1);
    var j :| 0 <= j < |cs| && (cs[j].pin1 == row + 1 || cs[j].pin2 == row + 1);
    assert t.stiffness[i][j] == NumericCell(cs[j], row);
  }

  /** Row i of a circuit's numeric system is zero in all three arrays
      exactly when it is the branch-law row of an Elmer component. */
  lemma ExactZeroRow(t: Tableau<int>, cs: seq<Component>, n: nat, ref: int, i: nat)
    requires Admissible(cs, n, ref) && CircuitCells(t, cs, n, ref) && i < n - 1 + 2 * |cs|
    ensures RowAllZero(t.stiffness, t.damping, t.source, 2 * |cs| + n - 1, i) <==>
              n - 1 + |cs| <= i && cs[i - (n - 1 + |cs|)].kind.ElmerComponent?
  {
    var nn, e := n - 1, |cs|;
    if i < nn {
      CurrentRowNonZero(t, cs, n, ref, i);
    } else if i < nn + e {
      assert t.stiffness[i][i - nn + e] == -1;
    } else {
      var k := i - nn - e;
      var c := cs[k];
      if c.kind.Resistor? || c.kind.VoltageSource? || c.kind.Inductor? {
        assert t.stiffness[i][e + k] == ConductanceCoef(c) != 0;
      } else if c.kind.CurrentSource? || c.kind.Capacitor? {
        assert t.stiffness[i][k] == ResistanceCoef(c) != 0;
      }
    }
  }

  /** A mask that is false on its first `off` entries and then tells, per
      component of cs, whether it is an Elmer component. */
  ghost predicate ElmerMask(mask: seq<bool>, cs: seq<Component>, off: nat)
  {
    && |mask| == off + |cs|
    && (forall i :: 0 <= i < off ==> !mask[i])
    && (forall i :: off <= i < |mask| ==> mask[i] == IsA(cs[i - off], ElmerComponents))
  }

  /** Such a mask is a run of `off` false entries followed by the Elmer
      mask of cs. */
  lemma MaskSplits(mask: seq<bool>, cs: seq<Component>, off: nat)
    requires ElmerMask(mask, cs, off)
    ensures mask == mask[..off] + Mask(cs, ElmerComponents)
    ensures forall k :: 0 <= k < off ==> !mask[..off][k]
  {
    var before, elmer := mask[..off], Mask(cs, ElmerComponents);
    forall i | 0 <= i < |mask|
      ensures mask[i] == (before + elmer)[i]
    {
      if off <= i {
        assert mask[i] == elmer[i - off];
      }
    }
  }

  /** The positions of such a mask are the indices of the Elmer components
      moved by `off`. */
  lemma MaskPositions(mask: seq<bool>, cs: seq<Component>, off: nat)
    ensures ElmerMask(mask, cs, off) ==> Positions(mask) == Shift(IndicesOf(cs, ElmerComponents), off)
  {
    if ElmerMask(mask, cs, off) {
      MaskSplits(mask, cs, off);
      PositionsAppend(mask[..off], Mask(cs, ElmerComponents));
      PositionsNone(mask[..off]);
    }
  }

  /** The zero-row mask of a circuit's numeric system: false on the
      current-law and voltage-law rows, and on the branch-law row of
      component k whether it is an Elmer component. */
  lemma ZeroMask(t: Tableau<int>, cs: seq<Component>, n: nat, ref: int)
    requires Admissible(cs, n, ref) && CircuitCells(t, cs, n, ref)
    ensures ElmerMask(ExactMask(t.stiffness, t.damping, t.source, n - 1 + 2 * |cs|, 2 * |cs| + n - 1), cs, n - 1 + |cs|)
  {
    var nn, e := n - 1, |cs|;
    var mask := ExactMask(t.stiffness, t.damping, t.source, nn + 2 * e, 2 * e + nn);
    forall i | 0 <= i < nn + e
      ensures !mask[i]
    {
      ExactZeroRow(t, cs, n, ref, i);
    }
    forall i | nn + e <= i < |mask|
      ensures mask[i] == IsA(cs[i - (nn + e)], ElmerComponents)
    {
      ExactZeroRow(t, cs, n, ref, i);
    }
  }

  /** The rows of a circuit's numeric system that are zero in all three
      arrays are exactly the branch-law rows of the Elmer components, in
      order. */
  lemma CellZeroRows(t: Tableau<int>, cs: seq<Component>, n: nat, ref: int)
    requires Admissible(cs, n, ref) && CircuitCells(t, cs, n, ref)
    ensures ZeroRowsExact(t.stiffness, t.damping, t.source, n - 1 + 2 * |cs|, 2 * |cs| + n - 1) ==
              Shift(IndicesOf(cs, ElmerComponents), n - 1 + |cs|)
  {
    var mask := ExactMask(t.stiffness, t.damping, t.source, n - 1 + 2 * |cs|, 2 * |cs| + n - 1);
    ZeroMask(t, cs, n, ref);
    MaskPositions(mask, cs, n - 1 + |cs|);
  }

  // ---------------------------------------------------------------------
  // Which rows of the text system read as zero.
  // ---------------------------------------------------------------------

  /** The cells of a circuit's text system (after the integer-form rewrite)
      that decide which rows read as zero: the rewritten incidence text of
      the node with each branch in a current-law row, "-1" under v_k in the
      voltage-law row of branch k, and in the branch-law row of component k
      its rewritten coefficient texts under i_k and v_k, in the stiffness
      and the damping matrix, "0" elsewhere, and its rewritten source text
      in the source column. */
  ghost predicate CircuitCellsStr(ts: Tableau<string>, cs: seq<Component>, n: nat, ref: int)
  {
    && 1 <= n
    && Shapes(ts.stiffness, ts.damping, ts.source, n - 1 + 2 * |cs|, 2 * |cs| + n - 1)
    && CurrentCellsStr(ts, cs, n, ref) && VoltageCellsStr(ts, cs, n) && BranchCellsStr(ts, cs, n)
    && SourceCellsStr(ts, cs, n)
  }

  ghost predicate CurrentCellsStr(ts: Tableau<string>, cs: seq<Component>, n: nat, ref: int)
    requires 1 <= n && Shapes(ts.stiffness, ts.damping, ts.source, n - 1 + 2 * |cs|, 2 * |cs| + n - 1)
  {
    forall i, j :: 0 <= i < n - 1 && 0 <= j < |cs| ==> ts.stiffness[i][j] == Canon(TextCell(cs[j], SourceRow(i, ref)))
  }

  ghost predicate VoltageCellsStr(ts: Tableau<string>, cs: seq<Component>, n: nat)
    requires 1 <= n && Shapes(ts.stiffness, ts.damping, ts.source, n - 1 + 2 * |cs|, 2 * |cs| + n - 1)
  {
    forall i :: n - 1 <= i < n - 1 + |cs| ==> ts.stiffness[i][i - (n - 1) + |cs|] == "-1"
  }

  ghost predicate BranchCellsStr(ts: Tableau<string>, cs: seq<Component>, n: nat)
    requires 1 <= n && Shapes(ts.stiffness, ts.damping, ts.source, n - 1 + 2 * |cs|, 2 * |cs| + n - 1)
  {
    var nn, e := n - 1, |cs|;
    forall i, j :: nn + e <= i < nn + 2 * e && 0 <= j < 2 * e + nn ==>
      && ts.stiffness[i][j] == (if j == i - nn - e then Canon(ResistanceText(cs[i - nn - e]))
                                else if j == i - nn then Canon(ConductanceText(cs[i - nn - e])) else "0")
      && ts.damping[i][j] == (if j == i - nn - e then Canon(InductanceText(cs[i - nn - e]))
                              else if j == i - nn then Canon(CapacitanceText(cs[i - nn - e])) else "0")
  }

  ghost predicate SourceCellsStr(ts: Tableau<string>, cs: seq<Component>, n: nat)
    requires 1 <= n && |ts.source| == n - 1 + 2 * |cs|
  {
    forall k :: 0 <= k < |cs| ==> ts.source[n - 1 + |cs| + k] == CanonZero(SourceText(cs[k]))
  }

  /** get_tableau_matrix_str puts the rewritten incidence text in the
      current-law rows and "-1" under v_k in the voltage-law row of branch k. */
  lemma UpperBlockCellsStr(As: Matrix<string>, Rs: Matrix<string>, Gs: Matrix<string>, Ls: Matrix<string>,
                           Cs: Matrix<string>, fs: seq<string>, cs: seq<Component>, n: nat, ref: int)
    requires Shaped(As, Rs, Gs, Ls, Cs, fs, n, |cs|)
    requires forall i, j :: 0 <= i < n - 1 && 0 <= j < |cs| ==> As[i][j] == TextCell(cs[j], SourceRow(i, ref))
    ensures CurrentCellsStr(TableauStrOf(As, Rs, Gs, Ls, Cs, fs, n, |cs|), cs, n, ref)
    ensures VoltageCellsStr(TableauStrOf(As, Rs, Gs, Ls, Cs, fs, n, |cs|), cs, n)
  {
    var nn, e := n - 1, |cs|;
    forall i, j | 0 <= i < nn && 0 <= j < e
      ensures TableauStrOf(As, Rs, Gs, Ls, Cs, fs, n, e).stiffness[i][j] == Canon(TextCell(cs[j], SourceRow(i, ref)))
    {
      StiffnessCellLaidOut(As, Rs, Gs, Ls, Cs, fs, n, e, i, j);
    }
    forall i | nn <= i < nn + e
      ensures TableauStrOf(As, Rs, Gs, Ls, Cs, fs, n, e).stiffness[i][i - nn + e] == "-1"
    {
      StiffnessCellLaidOut(As, Rs, Gs, Ls, Cs, fs, n, e, i, i - nn + e);
      assert Canon("-1.0") == "-1";
    }
  }

  /** get_tableau_matrix_str, given text blocks that hold each component's
      coefficient texts on their diagonals, puts them, rewritten, in the
      branch-law rows. */
  lemma BranchBlockCellsStr(As: Matrix<string>, Rs: Matrix<string>, Gs: Matrix<string>, Ls: Matrix<string>,
                            Cs: Matrix<string>, fs: seq<string>, cs: seq<Component>, n: nat)
    requires Shaped(As, Rs, Gs, Ls, Cs, fs, n, |cs|)
    requires forall i, j :: 0 <= i < |cs| && 0 <= j < |cs| ==> Rs[i][j] == if i == j then ResistanceText(cs[i]) else ""
    requires forall i, j :: 0 <= i < |cs| && 0 <= j < |cs| ==> Gs[i][j] == if i == j then ConductanceText(cs[i]) else ""
    requires forall i, j :: 0 <= i < |cs| && 0 <= j < |cs| ==>
               Ls[i][j] == (if i == j then InductanceText(cs[i]) else "") && Cs[i][j] == (if i == j then CapacitanceText(cs[i]) else "")
    ensures BranchCellsStr(TableauStrOf(As, Rs, Gs, Ls, Cs, fs, n, |cs|), cs, n)
  {
    BranchStiffnessStr(As, Rs, Gs, Ls, Cs, fs, cs, n);
    BranchDampingStr(As, Rs, Gs, Ls, Cs, fs, cs, n);
  }

  /** The stiffness half: the rewritten R text under i_k, the rewritten G
      text under v_k, "0" elsewhere. */
  lemma BranchStiffnessStr(As: Matrix<string>, Rs: Matrix<string>, Gs: Matrix<string>, Ls: Matrix<string>,
                           Cs: Matrix<string>, fs: seq<string>, cs: seq<Component>, n: nat)
    requires Shaped(As, Rs, Gs, Ls, Cs, fs, n, |cs|)
    requires forall i, j :: 0 <= i < |cs| && 0 <= j < |cs| ==> Rs[i][j] == if i == j then ResistanceText(cs[i]) else ""
    requires forall i, j :: 0 <= i < |cs| && 0 <= j < |cs| ==> Gs[i][j] == if i == j then ConductanceText(cs[i]) else ""
    ensures var ts, nn, e := TableauStrOf(As, Rs, Gs, Ls, Cs, fs, n, |cs|), n - 1, |cs|;
            forall i, j :: nn + e <= i < nn + 2 * e && 0 <= j < 2 * e + nn ==>
              ts.stiffness[i][j] == (if j == i - nn - e then Canon(ResistanceText(cs[i - nn - e]))
                                     else if j == i - nn then Canon(ConductanceText(cs[i - nn - e])) else "0")
  {
    var nn, e := n - 1, |cs|;
    forall i, j | nn + e <= i < nn + 2 * e && 0 <= j < 2 * e + nn
      ensures TableauStrOf(As, Rs, Gs, Ls, Cs, fs, n, e).stiffness[i][j] ==
                (if j == i - nn - e then Canon(ResistanceText(cs[i - nn - e]))
                 else if j == i - nn then Canon(ConductanceText(cs[i - nn - e])) else "0")
    {
      BranchStiffnessCell(As, Rs, Gs, Ls, Cs, fs, cs, n, i, j);
    }
  }

  /** One cell of that stiffness half. */
  lemma BranchStiffnessCell(As: Matrix<string>, Rs: Matrix<string>, Gs: Matrix<string>, Ls: Matrix<string>,
                            Cs: Matrix<string>, fs: seq<string>, cs: seq<Component>, n: nat, i: nat, j: nat)
    requires Shaped(As, Rs, Gs, Ls, Cs, fs, n, |cs|)
    requires forall i, j :: 0 <= i < |cs| && 0 <= j < |cs| ==> Rs[i][j] == if i == j then ResistanceText(cs[i]) else ""
    requires forall i, j :: 0 <= i < |cs| && 0 <= j < |cs| ==> Gs[i][j] == if i == j then ConductanceText(cs[i]) else ""
    requires n - 1 + |cs| <= i < n - 1 + 2 * |cs| && j < 2 * |cs| + n - 1
    ensures TableauStrOf(As, Rs, Gs, Ls, Cs, fs, n, |cs|).stiffness[i][j] ==
              (if j == i - (n - 1) - |cs| then Canon(ResistanceText(cs[i - (n - 1) - |cs|]))
               else if j == i - (n - 1) then Canon(ConductanceText(cs[i - (n - 1) - |cs|])) else "0")
  {
    var nn, e := n - 1, |cs|;
    var k := i - nn - e;
    StiffnessCellLaidOut(As, Rs, Gs, Ls, Cs, fs, n, e, i, j);
    var block := if j < e then Rs[k][j] else if j < 2 * e then Gs[k][j - e] else "0.0";
    assert j < e ==> Rs[k][j] == if k == j then ResistanceText(cs[k]) else "";
    assert e <= j < 2 * e ==> Gs[k][j - e] == if k == j - e then ConductanceText(cs[k]) else "";
    BranchCellStr(Stiffness(As, Rs, Gs, nn, e, "0.0", "-1.0", "-0.0")[i][j], block,
                  ResistanceText(cs[k]), ConductanceText(cs[k]), k, e, j);
  }

  /** The damping half: the rewritten L text under i_k, the rewritten C text
      under v_k, "0" elsewhere. */
  lemma BranchDampingStr(As: Matrix<string>, Rs: Matrix<string>, Gs: Matrix<string>, Ls: Matrix<string>,
                         Cs: Matrix<string>, fs: seq<string>, cs: seq<Component>, n: nat)
    requires Shaped(As, Rs, Gs, Ls, Cs, fs, n, |cs|)
    requires forall i, j :: 0 <= i < |cs| && 0 <= j < |cs| ==>
               Ls[i][j] == (if i == j then InductanceText(cs[i]) else "") && Cs[i][j] == (if i == j then CapacitanceText(cs[i]) else "")
    ensures var ts, nn, e := TableauStrOf(As, Rs, Gs, Ls, Cs, fs, n, |cs|), n - 1, |cs|;
            forall i, j :: nn + e <= i < nn + 2 * e && 0 <= j < 2 * e + nn ==>
              ts.damping[i][j] == (if j == i - nn - e then Canon(InductanceText(cs[i - nn - e]))
                                   else if j == i - nn then Canon(CapacitanceText(cs[i - nn - e])) else "0")
  {
    var nn, e := n - 1, |cs|;
    forall i, j | nn + e <= i < nn + 2 * e && 0 <= j < 2 * e + nn
      ensures TableauStrOf(As, Rs, Gs, Ls, Cs, fs, n, e).damping[i][j] ==
                (if j == i - nn - e then Canon(InductanceText(cs[i - nn - e]))
                 else if j == i - nn then Canon(CapacitanceText(cs[i - nn - e])) else "0")
    {
      BranchDampingCell(As, Rs, Gs, Ls, Cs, fs, cs, n, i, j);
    }
  }

  /** One cell of that damping half. */
  lemma BranchDampingCell(As: Matrix<string>, Rs: Matrix<string>, Gs: Matrix<string>, Ls: Matrix<string>,
                          Cs: Matrix<string>, fs: seq<string>, cs: seq<Component>, n: nat, i: nat, j: nat)
    requires Shaped(As, Rs, Gs, Ls, Cs, fs, n, |cs|)
    requires forall i, j :: 0 <= i < |cs| && 0 <= j < |cs| ==>
               Ls[i][j] == (if i == j then InductanceText(cs[i]) else "") && Cs[i][j] == (if i == j then CapacitanceText(cs[i]) else "")
    requires n - 1 + |cs| <= i < n - 1 + 2 * |cs| && j < 2 * |cs| + n - 1
    ensures TableauStrOf(As, Rs, Gs, Ls, Cs, fs, n, |cs|).damping[i][j] ==
              (if j == i - (n - 1) - |cs| then Canon(InductanceText(cs[i - (n - 1) - |cs|]))
               else if j == i - (n - 1) then Canon(CapacitanceText(cs[i - (n - 1) - |cs|])) else "0")
  {
    var nn, e := n - 1, |cs|;
    var k := i - nn - e;
    DampingCellLaidOut(As, Rs, Gs, Ls, Cs, fs, n, e, i, j);
    var block := if j < e then Ls[k][j] else if j < 2 * e then Cs[k][j - e] else "0.0";
    assert j < e ==> Ls[k][j] == if k == j then InductanceText(cs[k]) else "";
    assert e <= j < 2 * e ==> Cs[k][j - e] == if k == j - e then CapacitanceText(cs[k]) else "";
    BranchCellStr(Damping(Ls, Cs, nn, e, "0.0")[i][j], block,
                  InductanceText(cs[k]), CapacitanceText(cs[k]), k, e, j);
  }

  /** A stiffness cell of the text system is the rewrite of the cell the
      layout puts there. */
  lemma StiffnessCellLaidOut(As: Matrix<string>, Rs: Matrix<string>, Gs: Matrix<string>, Ls: Matrix<string>,
                             Cs: Matrix<string>, fs: seq<string>, n: nat, e: nat, i: nat, j: nat)
    requires Shaped(As, Rs, Gs, Ls, Cs, fs, n, e) && i < n - 1 + 2 * e && j < 2 * e + n - 1
    ensures TableauStrOf(As, Rs, Gs, Ls, Cs, fs, n, e).stiffness[i][j] == Canon(Stiffness(As, Rs, Gs, n - 1, e, "0.0", "-1.0", "-0.0")[i][j])
    ensures Stiffness(As, Rs, Gs, n - 1, e, "0.0", "-1.0", "-0.0")[i][j] == StiffnessCell(As, Rs, Gs, n - 1, e, "0.0", "-1.0", "-0.0", i, j)
  {
  }

  /** A damping cell of the text system is the rewrite of the cell the
      layout puts there. */
  lemma DampingCellLaidOut(As: Matrix<string>, Rs: Matrix<string>, Gs: Matrix<string>, Ls: Matrix<string>,
                           Cs: Matrix<string>, fs: seq<string>, n: nat, e: nat, i: nat, j: nat)
    requires Shaped(As, Rs, Gs, Ls, Cs, fs, n, e) && i < n - 1 + 2 * e && j < 2 * e + n - 1
    ensures TableauStrOf(As, Rs, Gs, Ls, Cs, fs, n, e).damping[i][j] == Canon(Damping(Ls, Cs, n - 1, e, "0.0")[i][j])
    ensures Damping(Ls, Cs, n - 1, e, "0.0")[i][j] == DampingCell(Ls, Cs, n - 1, e, "0.0", i, j)
  {
  }

  /** A branch-law cell laid out from a diagonal block pair: the rewrite of
      the first block's text under i_k, of the second's under v_k, "0"
      elsewhere. */
  lemma BranchCellStr(cell: string, block: string, first: string, second: string, k: nat, e: nat, j: nat)
    requires cell == block && k < e
    requires j < e ==> block == if j == k then first else ""
    requires e <= j < 2 * e ==> block == if j - e == k then second else ""
    requires 2 * e <= j ==> block == "0.0"
    ensures Canon(cell) == if j == k then Canon(first) else if j == e + k then Canon(second) else "0"
  {
    assert Canon("") == "0" && Canon("0.0") == "0";
  }

  /** get_tableau_matrix_str puts the rewritten source texts below the
      source column's zeros. */
  lemma SourceBlockCellsStr(As: Matrix<string>, Rs: Matrix<string>, Gs: Matrix<string>, Ls: Matrix<string>,
                            Cs: Matrix<string>, fs: seq<string>, cs: seq<Component>, n: nat)
    requires Shaped(As, Rs, Gs, Ls, Cs, fs, n, |cs|)
    requires forall k :: 0 <= k < |cs| ==> fs[k] == SourceText(cs[k])
    ensures SourceCellsStr(TableauStrOf(As, Rs, Gs, Ls, Cs, fs, n, |cs|), cs, n)
  {
    var ts, nn, e := TableauStrOf(As, Rs, Gs, Ls, Cs, fs, n, |cs|), n - 1, |cs|;
    forall k | 0 <= k < e
      ensures ts.source[nn + e + k] == CanonZero(SourceText(cs[k]))
    {
      SourceCellLaidOut(fs, nn, e, k);
    }
  }

  /** Entry nn + e + k of the text source column is f[k], rewritten. */
  lemma SourceCellLaidOut(fs: seq<string>, nn: nat, e: nat, k: nat)
    requires |fs| == e && k < e
    ensures CanonZeroColumn(SourceColumn(CanonZeroColumn(fs), nn, e, "0.0"))[nn + e + k] == CanonZero(fs[k])
  {
    CanonZeroSpec(fs[k]);
  }

  /** The text system get_tableau_matrix_str builds for a circuit has the
      cells of CircuitCellsStr. */
  lemma CircuitCellsStrHold(cs: seq<Component>, n: nat, ref: int)
    requires 1 <= ref <= n
    ensures CircuitCellsStr(CircuitTableauStr(cs, n, ref), cs, n, ref)
  {
    AllIndicesValid(cs);
    IncidenceCells(cs, n, |cs|, ref);
    ResistanceByKind(cs);
    ConductanceByKind(cs);
    StorageByKind(cs);
    SourceVectorsByKind(cs);
    var e := |cs|;
    var indr, indv, indi := IndicesOf(cs, Resistors), IndicesOf(cs, VoltageSources), IndicesOf(cs, CurrentSources);
    var indInd, indcap := IndicesOf(cs, Inductors), IndicesOf(cs, Capacitors);
    var As, Rs, Gs := IncidenceMatrixStr(cs, n, e, ref), ResistanceMatrixStr(cs, e, indr, indi, indcap),
                      ConductanceMatrixStr(e, indr, indv, indInd);
    var Ls, Cs, fs := InductanceMatrixStr(cs, e, indInd), CapacitanceMatrixStr(cs, e, indcap),
                      SourceVectorStr(cs, e, indi, indv);
    UpperBlockCellsStr(As, Rs, Gs, Ls, Cs, fs, cs, n, ref);
    BranchBlockCellsStr(As, Rs, Gs, Ls, Cs, fs, cs, n);
    SourceBlockCellsStr(As, Rs, Gs, Ls, Cs, fs, cs, n);
  }

  /** Without a self-loop, the rewritten incidence text of a branch at one
      of its pins is "1" or "-1", which does not read as zero. */
  lemma PinTextNonZero(c: Component, row: int)
    requires c.pin1 != c.pin2 && (c.pin1 == row + 1 || c.pin2 == row + 1)
    ensures !IsZeroText(Canon(TextCell(c, row)))
  {
    ZeroTextCases("");
    if c.pin1 == row + 1 {
      assert "1" + "" == "1";
      assert TextCell(c, row) == "1";
      assert Canon("1") == "1";
    } else {
      assert "" + "-1" == "-1";
      assert TextCell(c, row) == "-1";
      assert Canon("-1") == "-1";
    }
  }

  /** A current-law row of the text system never reads as zero: its node is
      a pin of some branch, and without self-loops that branch's incidence
      text there is "1" or "-1". */
  lemma CurrentRowNonZeroStr(ts: Tableau<string>, cs: seq<Component>, n: nat, ref: int, i: nat)
    requires Admissible(cs, n, ref) && CircuitCellsStr(ts, cs, n, ref) && i < n - 1
    ensures exists j :: 0 <= j < |cs| && !IsZeroText(ts.stiffness[i][j])
  {
    var row := SourceRow(i, ref);
    PinsCoverNodes(cs, n);
    assert 1 <= row + 1 <= n;
    PinsMember(cs, row + 1);
    var j :| 0 <= j < |cs| && (cs[j].pin1 == row + 1 || cs[j].pin2 == row + 1);
    PinTextNonZero(cs[j], row);
    assert ts.stiffness[i][j] == Canon(TextCell(cs[j], row));
  }

  /** So a current-law row of the text system is never a zero row. */
  lemma CurrentRowZeroStr(ts: Tableau<string>, cs: seq<Component>, n: nat, ref: int, i: nat)
    requires Admissible(cs, n, ref) && CircuitCellsStr(ts, cs, n, ref) && i < n - 1
    ensures !RowZeroText(ts.stiffness, ts.damping, ts.source, 2 * |cs| + n - 1, i)
  {
    CurrentRowNonZeroStr(ts, cs, n, ref, i);
    var j :| 0 <= j < |cs| && !IsZeroText(ts.stiffness[i][j]);
    RowNotZeroAt(ts, n - 1 + 2 * |cs|, 2 * |cs| + n - 1, i, j);
  }

  /** The rewritten coefficient texts of a component other than an Elmer
      coil put "1" or "-1" in its branch-law row: under v_k for a resistor,
      a voltage source or an inductor, under i_k for a current source or a
      capacitor. */
  lemma BranchTextNonZero(c: Component)
    ensures (c.kind.Resistor? || c.kind.VoltageSource? || c.kind.Inductor?) ==> !IsZeroText(Canon(ConductanceText(c)))
    ensures (c.kind.CurrentSource? || c.kind.Capacitor?) ==> !IsZeroText(Canon(ResistanceText(c)))
  {
    ZeroTextCases("");
    assert Canon("1") == "1" && Canon("-1") == "-1";
  }

  /** The coefficient texts of an Elmer coil are all empty: each rewrites
      to "0". */
  lemma ElmerTextsZero(c: Component)
    requires c.kind.ElmerComponent?
    ensures Canon(ResistanceText(c)) == "0" && Canon(ConductanceText(c)) == "0"
    ensures Canon(InductanceText(c)) == "0" && Canon(CapacitanceText(c)) == "0"
    ensures CanonZero(SourceText(c)) == "0"
  {
  }

  /** A row with one stiffness cell that does not read as zero is not a
      zero row. */
  lemma RowNotZeroAt(ts: Tableau<string>, rows: nat, cols: nat, i: nat, j: nat)
    requires Shapes(ts.stiffness, ts.damping, ts.source, rows, cols) && i < rows && j < cols
    requires !IsZeroText(ts.stiffness[i][j])
    ensures !RowZeroText(ts.stiffness, ts.damping, ts.source, cols, i)
  {
  }

  /** A row that is "0" throughout, in all three arrays, is a zero row. */
  lemma RowZeroAt(ts: Tableau<string>, rows: nat, cols: nat, i: nat)
    requires Shapes(ts.stiffness, ts.damping, ts.source, rows, cols) && i < rows
    requires forall j :: 0 <= j < cols ==> ts.stiffness[i][j] == "0" && ts.damping[i][j] == "0"
    requires ts.source[i] == "0"
    ensures RowZeroText(ts.stiffness, ts.damping, ts.source, cols, i)
  {
    ZeroTextCases("");
  }

  /** A voltage-law row of the text system is never a zero row: it holds
      "-1" under its branch voltage. */
  lemma VoltageRowNonZeroStr(ts: Tableau<string>, cs: seq<Component>, n: nat, i: nat)
    requires 1 <= n && Shapes(ts.stiffness, ts.damping, ts.source, n - 1 + 2 * |cs|, 2 * |cs| + n - 1)
    requires VoltageCellsStr(ts, cs, n) && n - 1 <= i < n - 1 + |cs|
    ensures !RowZeroText(ts.stiffness, ts.damping, ts.source, 2 * |cs| + n - 1, i)
  {
    var j := i - (n - 1) + |cs|;
    assert ts.stiffness[i][j] == "-1";
    ZeroTextCases("");
    RowNotZeroAt(ts, n - 1 + 2 * |cs|, 2 * |cs| + n - 1, i, j);
  }

  /** One cell of the branch-law row of component k, in both matrices. */
  lemma BranchCellAt(ts: Tableau<string>, cs: seq<Component>, n: nat, k: nat, j: nat)
    requires 1 <= n && Shapes(ts.stiffness, ts.damping, ts.source, n - 1 + 2 * |cs|, 2 * |cs| + n - 1)
    requires BranchCellsStr(ts, cs, n) && k < |cs| && j < 2 * |cs| + n - 1
    ensures ts.stiffness[n - 1 + |cs| + k][j] ==
              if j == k then Canon(ResistanceText(cs[k])) else if j == |cs| + k then Canon(ConductanceText(cs[k])) else "0"
    ensures ts.damping[n - 1 + |cs| + k][j] ==
              if j == k then Canon(InductanceText(cs[k])) else if j == |cs| + k then Canon(CapacitanceText(cs[k])) else "0"
  {
  }

  /** The branch-law row of an Elmer component is "0" throughout. */
  lemma ElmerRowZeroStr(ts: Tableau<string>, cs: seq<Component>, n: nat, k: nat)
    requires 1 <= n && Shapes(ts.stiffness, ts.damping, ts.source, n - 1 + 2 * |cs|, 2 * |cs| + n - 1)
    requires BranchCellsStr(ts, cs, n) && SourceCellsStr(ts, cs, n) && k < |cs| && cs[k].kind.ElmerComponent?
    ensures RowZeroText(ts.stiffness, ts.damping, ts.source, 2 * |cs| + n - 1, n - 1 + |cs| + k)
  {
    var rows, cols, i := n - 1 + 2 * |cs|, 2 * |cs| + n - 1, n - 1 + |cs| + k;
    ElmerTextsZero(cs[k]);
    forall j | 0 <= j < cols
      ensures ts.stiffness[i][j] == "0" && ts.damping[i][j] == "0"
    {
      BranchCellAt(ts, cs, n, k, j);
    }
    RowZeroAt(ts, rows, cols, i);
  }

  /** The branch-law row of any other component holds a cell that does not
      read as zero. */
  lemma OtherRowNonZeroStr(ts: Tableau<string>, cs: seq<Component>, n: nat, k: nat)
    requires 1 <= n && Shapes(ts.stiffness, ts.damping, ts.source, n - 1 + 2 * |cs|, 2 * |cs| + n - 1)
    requires BranchCellsStr(ts, cs, n) && k < |cs| && !cs[k].kind.ElmerComponent?
    ensures !RowZeroText(ts.stiffness, ts.damping, ts.source, 2 * |cs| + n - 1, n - 1 + |cs| + k)
  {
    var rows, cols, i, c := n - 1 + 2 * |cs|, 2 * |cs| + n - 1, n - 1 + |cs| + k, cs[k];
    BranchTextNonZero(c);
    if c.kind.Resistor? || c.kind.VoltageSource? || c.kind.Inductor? {
      BranchCellAt(ts, cs, n, k, |cs| + k);
      RowNotZeroAt(ts, rows, cols, i, |cs| + k);
    } else {
      BranchCellAt(ts, cs, n, k, k);
      RowNotZeroAt(ts, rows, cols, i, k);
    }
  }

  /** Row i of a circuit's text system reads as zero in all three arrays
      exactly when it is the branch-law row of an Elmer component, whatever
      the names and values of the components. */
  lemma TextZeroRow(ts: Tableau<string>, cs: seq<Component>, n: nat, ref: int, i: nat)
    requires Admissible(cs, n, ref) && CircuitCellsStr(ts, cs, n, ref) && i < n - 1 + 2 * |cs|
    ensures RowZeroText(ts.stiffness, ts.damping, ts.source, 2 * |cs| + n - 1, i) <==>
              n - 1 + |cs| <= i && cs[i - (n - 1 + |cs|)].kind.ElmerComponent?
  {
    if i < n - 1 {
      CurrentRowZeroStr(ts, cs, n, ref, i);
    } else if i < n - 1 + |cs| {
      VoltageRowNonZeroStr(ts, cs, n, i);
    } else {
      var k := i - (n - 1 + |cs|);
      if cs[k].kind.ElmerComponent? {
        ElmerRowZeroStr(ts, cs, n, k);
      } else {
        OtherRowNonZeroStr(ts, cs, n, k);
      }
    }
  }

  /** Which rows of a text system of nn + 2e rows read as zero: exactly the
      branch-law rows of the Elmer components. */
  ghost predicate ZeroExactlyAtElmer(ts: Tableau<string>, cs: seq<Component>, n: nat, cols: nat)
    requires 1 <= n && Shapes(ts.stiffness, ts.damping, ts.source, n - 1 + 2 * |cs|, cols)
  {
    forall i :: 0 <= i < n - 1 + 2 * |cs| ==>
      (RowZeroText(ts.stiffness, ts.damping, ts.source, cols, i) <==>
         n - 1 + |cs| <= i && cs[i - (n - 1 + |cs|)].kind.ElmerComponent?)
  }

  /** Row by row, a circuit's text system reads as zero exactly at the
      branch-law rows of its Elmer components. */
  lemma TextZeroRowsAll(ts: Tableau<string>, cs: seq<Component>, n: nat, ref: int, cols: nat)
    requires Admissible(cs, n, ref) && CircuitCellsStr(ts, cs, n, ref) && cols == 2 * |cs| + n - 1
    ensures ZeroExactlyAtElmer(ts, cs, n, cols)
  {
    forall i | 0 <= i < n - 1 + 2 * |cs|
      ensures RowZeroText(ts.stiffness, ts.damping, ts.source, cols, i) <==>
                n - 1 + |cs| <= i && cs[i - (n - 1 + |cs|)].kind.ElmerComponent?
    {
      TextZeroRow(ts, cs, n, ref, i);
    }
  }

  /** The same statement with the column count given by name. */
  lemma ZeroExactlyAtCols(ts: Tableau<string>, cs: seq<Component>, n: nat, cols: nat)
    requires 1 <= n && cols == 2 * |cs| + n - 1 && Shapes(ts.stiffness, ts.damping, ts.source, n - 1 + 2 * |cs|, cols)
    requires ZeroExactlyAtElmer(ts, cs, n, cols)
    ensures ZeroExactlyAtElmer(ts, cs, n, 2 * |cs| + n - 1)
  {
  }

  /** The text system an admissible circuit lays out reads as zero exactly
      at the branch-law rows of its Elmer components. */
  lemma CircuitZeroExact(cs: seq<Component>, n: nat, ref: int)
    requires Admissible(cs, n, ref)
    ensures Shapes(CircuitTableauStr(cs, n, ref).stiffness, CircuitTableauStr(cs, n, ref).damping,
                   CircuitTableauStr(cs, n, ref).source, n - 1 + 2 * |cs|, 2 * |cs| + n - 1)
    ensures ZeroExactlyAtElmer(CircuitTableauStr(cs, n, ref), cs, n, 2 * |cs| + n - 1)
  {
    var cols := 2 * |cs| + n - 1;
    CircuitCellsStrHold(cs, n, ref);
    TextZeroRowsAll(CircuitTableauStr(cs, n, ref), cs, n, ref, cols);
    ZeroExactlyAtCols(CircuitTableauStr(cs, n, ref), cs, n, cols);
  }

  /** One entry of the zero mask of a text system that reads as zero
      exactly at the Elmer branch-law rows. */
  lemma ZeroMaskAt(ts: Tableau<string>, cs: seq<Component>, n: nat, i: nat)
    requires 1 <= n && Shapes(ts.stiffness, ts.damping, ts.source, n - 1 + 2 * |cs|, 2 * |cs| + n - 1)
    requires ZeroExactlyAtElmer(ts, cs, n, 2 * |cs| + n - 1) && i < n - 1 + 2 * |cs|
    ensures ZeroTextMask(ts.stiffness, ts.damping, ts.source, n - 1 + 2 * |cs|, 2 * |cs| + n - 1)[i] <==>
              n - 1 + |cs| <= i && cs[i - (n - 1 + |cs|)].kind.ElmerComponent?
  {
  }

  /** The zero mask of a text system that reads as zero exactly at the
      Elmer branch-law rows is the Elmer mask of the components, after the
      nn + e current-law and voltage-law rows. */
  lemma ZeroMaskIsElmer(ts: Tableau<string>, cs: seq<Component>, n: nat)
    requires 1 <= n && Shapes(ts.stiffness, ts.damping, ts.source, n - 1 + 2 * |cs|, 2 * |cs| + n - 1)
    requires ZeroExactlyAtElmer(ts, cs, n, 2 * |cs| + n - 1)
    ensures ElmerMask(ZeroTextMask(ts.stiffness, ts.damping, ts.source, n - 1 + 2 * |cs|, 2 * |cs| + n - 1), cs, n - 1 + |cs|)
  {
    var nn, e := n - 1, |cs|;
    var mask := ZeroTextMask(ts.stiffness, ts.damping, ts.source, nn + 2 * e, 2 * e + nn);
    forall i | 0 <= i < nn + e
      ensures !mask[i]
    {
      ZeroMaskAt(ts, cs, n, i);
    }
    forall i | nn + e <= i < |mask|
      ensures mask[i] == IsA(cs[i - (nn + e)], ElmerComponents)
    {
      ZeroMaskAt(ts, cs, n, i);
    }
  }

  /** A text system whose zero mask is that Elmer mask has the Elmer
      branch-law rows as its zero rows, in order. */
  lemma TextZeroRows(ts: Tableau<string>, cs: seq<Component>, n: nat)
    requires 1 <= n && Shapes(ts.stiffness, ts.damping, ts.source, n - 1 + 2 * |cs|, 2 * |cs| + n - 1)
    requires ElmerMask(ZeroTextMask(ts.stiffness, ts.damping, ts.source, n - 1 + 2 * |cs|, 2 * |cs| + n - 1), cs, n - 1 + |cs|)
    ensures ZeroRowsStrOf(ts.stiffness, ts.damping, ts.source, n - 1 + 2 * |cs|, 2 * |cs| + n - 1) ==
              Shift(IndicesOf(cs, ElmerComponents), n - 1 + |cs|)
  {
    var mask := ZeroTextMask(ts.stiffness, ts.damping, ts.source, n - 1 + 2 * |cs|, 2 * |cs| + n - 1);
    MaskPositions(mask, cs, n - 1 + |cs|);
    assert ZeroRowsStrOf(ts.stiffness, ts.damping, ts.source, n - 1 + 2 * |cs|, 2 * |cs| + n - 1) == Positions(mask);
  }

  // ---------------------------------------------------------------------
  // The text system and elmer_format_matrix.
  // ---------------------------------------------------------------------

  /** A text system that agrees cell by cell with a numeric one has the
      same zero rows. */
  lemma AgreeingZeroRows(ts: Tableau<string>, t: Tableau<int>, rows: nat, cols: nat, zs: seq<nat>)
    requires Agreeing(ts, t, rows, cols)
    requires ZeroRowsExact(t.stiffness, t.damping, t.source, rows, cols) == zs
    ensures ZeroRowsStrOf(ts.stiffness, ts.damping, ts.source, rows, cols) == zs
  {
    ZeroRowsTracksAgree(ts.stiffness, ts.damping, ts.source, t.stiffness, t.damping, t.source, rows, cols);
  }

  /** No component name is mistaken for a coil by the name scan. */
  ghost predicate PlainNames(cs: seq<Component>)
  {
    forall j :: 0 <= j < |cs| ==> PlainName(cs[j])
  }

  /** The zero rows of any text system lie within it, in ascending order. */
  lemma ZeroListBelow(ts: Tableau<string>, rows: nat, cols: nat)
    requires Shapes(ts.stiffness, ts.damping, ts.source, rows, cols)
    ensures Below(ZeroRowsStrOf(ts.stiffness, ts.damping, ts.source, rows, cols), rows)
  {
    var zs := ZeroRowsStrOf(ts.stiffness, ts.damping, ts.source, rows, cols);
    ZeroRowsStrSpec(ts.stiffness, ts.damping, ts.source, rows, cols);
    forall k | 0 <= k < |zs|
      ensures zs[k] < rows
    {
      assert zs[k] in zs;
    }
  }

  /** Every row vs lists lies within `out` and reads as zero there in all
      three arrays. */
  ghost predicate RowsReadZero(out: Tableau<string>, vs: seq<nat>, cols: nat)
  {
    forall t :: 0 <= t < |vs| ==>
      && vs[t] < |out.stiffness| && vs[t] < |out.damping| && vs[t] < |out.source|
      && |out.stiffness[vs[t]]| == cols && |out.damping[vs[t]]| == cols
      && RowZeroText(out.stiffness, out.damping, out.source, cols, vs[t])
  }

  /** Every row get_zero_rows_str reports reads as zero in all three arrays. */
  lemma ZeroListReadsZero(ts: Tableau<string>, rows: nat, cols: nat)
    requires Shapes(ts.stiffness, ts.damping, ts.source, rows, cols)
    ensures RowsReadZero(ts, ZeroRowsStrOf(ts.stiffness, ts.damping, ts.source, rows, cols), cols)
  {
    var zs := ZeroRowsStrOf(ts.stiffness, ts.damping, ts.source, rows, cols);
    ZeroRowsStrSpec(ts.stiffness, ts.damping, ts.source, rows, cols);
    forall k | 0 <= k < |zs|
      ensures zs[k] < rows && RowZeroText(ts.stiffness, ts.damping, ts.source, cols, zs[k])
    {
      assert zs[k] in zs;
    }
  }

  /** The voltage rows the name scan reports lie within the system,
      whatever the component names. */
  lemma VoltageListBelow(cs: seq<Component>, ref: int, circuit: int, rows: nat)
    requires 2 * |cs| <= rows
    ensures Below(VCompRowsAsWritten(UnknownNamesOf(cs, ref, circuit)), rows)
  {
    ScanBelowAnyNames(cs, ref, circuit);
  }

  /** The call of elmer_format_matrix on a text system, with the voltage
      rows of create_unknown_name and the zero rows of get_zero_rows_str. */
  function ElmerSystemOf(ts: Tableau<string>, cs: seq<Component>, ref: int, circuit: int, rows: nat, cols: nat): (r: Tableau<string>)
    requires Shapes(ts.stiffness, ts.damping, ts.source, rows, cols) && 2 * |cs| <= rows
    ensures |r.stiffness| == rows && |r.damping| == rows && |r.source| == rows
  {
    ZeroListBelow(ts, rows, cols);
    VoltageListBelow(cs, ref, circuit, rows);
    ElmerFormatOf(ts, VCompRowsAsWritten(UnknownNamesOf(cs, ref, circuit)), ZeroRowsStrOf(ts.stiffness, ts.damping, ts.source, rows, cols))
  }

  /** The text system of the circuit after elmer_format_matrix. */
  function ElmerSystem(cs: seq<Component>, n: nat, ref: int, circuit: int): (r: Tableau<string>)
    requires 1 <= ref <= n
    ensures |r.stiffness| == n - 1 + 2 * |cs| && |r.damping| == n - 1 + 2 * |cs| && |r.source| == n - 1 + 2 * |cs|
  {
    ElmerSystemOf(CircuitTableauStr(cs, n, ref), cs, ref, circuit, n - 1 + 2 * |cs|, 2 * |cs| + n - 1)
  }

  /** A row that reads as zero still reads as zero once moved. */
  lemma RowMoved(ts: Tableau<string>, out: Tableau<string>, cols: nat, from: nat, to: nat)
    requires from < |ts.stiffness| && from < |ts.damping| && from < |ts.source|
    requires |ts.stiffness[from]| == cols && |ts.damping[from]| == cols
    requires to < |out.stiffness| && to < |out.damping| && to < |out.source|
    requires out.stiffness[to] == ts.stiffness[from] && out.damping[to] == ts.damping[from] && out.source[to] == ts.source[from]
    requires RowZeroText(ts.stiffness, ts.damping, ts.source, cols, from)
    ensures RowZeroText(out.stiffness, out.damping, out.source, cols, to)
  {
  }

  /** When the zero rows and the voltage rows are aligned and equally many,
      elmer_format_matrix leaves every voltage row reading as zero in all
      three arrays. */
  lemma ClearedRows(ts: Tableau<string>, zs: seq<nat>, vs: seq<nat>, cols: nat)
    requires |ts.stiffness| == |ts.source| && |ts.damping| == |ts.source|
    requires Below(zs, |ts.source|) && Below(vs, |ts.source|) && Aligned(zs, vs) && |zs| == |vs|
    requires RowsReadZero(ts, zs, cols)
    ensures RowsReadZero(ElmerFormatOf(ts, vs, zs), vs, cols)
  {
    var out := ElmerFormatOf(ts, vs, zs);
    forall t | 0 <= t < |vs|
      ensures vs[t] < |out.stiffness| && vs[t] < |out.damping| && vs[t] < |out.source|
      ensures |out.stiffness[vs[t]]| == cols && |out.damping[vs[t]]| == cols
      ensures RowZeroText(out.stiffness, out.damping, out.source, cols, vs[t])
    {
      VoltageRowReceivesZeroRow(ts.stiffness, zs, vs, t);
      VoltageRowReceivesZeroRow(ts.damping, zs, vs, t);
      VoltageRowReceivesZeroRow(ts.source, zs, vs, t);
      RowMoved(ts, out, cols, zs[t], vs[t]);
    }
  }

  /** For a text system whose zero rows are the branch-law rows of the
      Elmer components, and names the scan reads correctly, the zero rows
      and the component voltage rows are equally many and aligned: the t-th
      voltage row is that of the t-th Elmer component, |cs| + nn rows above
      its zero row. */
  lemma ListsAligned(ts: Tableau<string>, cs: seq<Component>, n: nat, ref: int, circuit: int)
    requires 1 <= n && PlainNames(cs)
    requires Shapes(ts.stiffness, ts.damping, ts.source, n - 1 + 2 * |cs|, 2 * |cs| + n - 1)
    requires ZeroRowsStrOf(ts.stiffness, ts.damping, ts.source, n - 1 + 2 * |cs|, 2 * |cs| + n - 1) ==
               Shift(IndicesOf(cs, ElmerComponents), n - 1 + |cs|)
    ensures var zs := ZeroRowsStrOf(ts.stiffness, ts.damping, ts.source, n - 1 + 2 * |cs|, 2 * |cs| + n - 1);
            var vs := VCompRowsAsWritten(UnknownNamesOf(cs, ref, circuit));
            Aligned(zs, vs) && |zs| == |IndicesOf(cs, ElmerComponents)| && |vs| == |IndicesOf(cs, ElmerComponents)|
  {
    var nn, e := n - 1, |cs|;
    var vs := VCompRowsAsWritten(UnknownNamesOf(cs, ref, circuit));
    var elmer := IndicesOf(cs, ElmerComponents);
    VCompRowsAgree(cs, ref, circuit);
    IndicesOfSpec(cs, ElmerComponents);
    ShiftMembers(elmer, e);
    ShiftMembers(elmer, nn + e);
    assert vs == Shift(elmer, e);
  }

  /** A text system of a circuit with plain names whose zero rows are the
      branch-law rows of its Elmer components: there are as many zero rows
      as component voltage rows, and after elmer_format_matrix every
      component voltage row the name scan reports reads as zero in all
      three arrays. */
  lemma SystemRowsCleared(ts: Tableau<string>, cs: seq<Component>, n: nat, ref: int, circuit: int)
    requires 1 <= n && PlainNames(cs)
    requires Shapes(ts.stiffness, ts.damping, ts.source, n - 1 + 2 * |cs|, 2 * |cs| + n - 1)
    requires ZeroRowsStrOf(ts.stiffness, ts.damping, ts.source, n - 1 + 2 * |cs|, 2 * |cs| + n - 1) ==
               Shift(IndicesOf(cs, ElmerComponents), n - 1 + |cs|)
    ensures |VCompRowsAsWritten(UnknownNamesOf(cs, ref, circuit))| == |IndicesOf(cs, ElmerComponents)|
    ensures RowsReadZero(ElmerSystemOf(ts, cs, ref, circuit, n - 1 + 2 * |cs|, 2 * |cs| + n - 1),
                         VCompRowsAsWritten(UnknownNamesOf(cs, ref, circuit)), 2 * |cs| + n - 1)
  {
    var rows, cols := n - 1 + 2 * |cs|, 2 * |cs| + n - 1;
    var vs := VCompRowsAsWritten(UnknownNamesOf(cs, ref, circuit));
    var zs := ZeroRowsStrOf(ts.stiffness, ts.damping, ts.source, rows, cols);
    ListsAligned(ts, cs, n, ref, circuit);
    ZeroListBelow(ts, rows, cols);
    VoltageListBelow(cs, ref, circuit, rows);
    ZeroListReadsZero(ts, rows, cols);
    ClearedRows(ts, zs, vs, cols);
    assert ElmerSystemOf(ts, cs, ref, circuit, rows, cols) == ElmerFormatOf(ts, vs, zs);
  }

  /** For an admissible circuit with plain names, any numeric system with
      the circuit's cells and any text system that agrees with it: after
      elmer_format_matrix every component voltage row the name scan
      reports reads as zero in all three arrays of the text system. */
  lemma AgreeingSystemCleared(ts: Tableau<string>, t: Tableau<int>, cs: seq<Component>, n: nat, ref: int, circuit: int)
    requires Admissible(cs, n, ref) && PlainNames(cs)
    ensures CircuitCells(t, cs, n, ref) && Agreeing(ts, t, n - 1 + 2 * |cs|, 2 * |cs| + n - 1) ==>
              RowsReadZero(ElmerSystemOf(ts, cs, ref, circuit, n - 1 + 2 * |cs|, 2 * |cs| + n - 1),
                           VCompRowsAsWritten(UnknownNamesOf(cs, ref, circuit)), 2 * |cs| + n - 1)
  {
    if CircuitCells(t, cs, n, ref) && Agreeing(ts, t, n - 1 + 2 * |cs|, 2 * |cs| + n - 1) {
      CellZeroRows(t, cs, n, ref);
      AgreeingZeroRows(ts, t, n - 1 + 2 * |cs|, 2 * |cs| + n - 1, Shift(IndicesOf(cs, ElmerComponents), n - 1 + |cs|));
      SystemRowsCleared(ts, cs, n, ref, circuit);
    }
  }

  /** The design goal of elmer_format_matrix, met: for an admissible circuit
      whose names are plain, whatever its component values, there are as
      many zero rows as component voltage rows, and after the exchanges
      every component voltage row the name scan reports reads as zero in
      all three arrays. */
  lemma VoltageRowsCleared(cs: seq<Component>, n: nat, ref: int, circuit: int)
    requires Admissible(cs, n, ref) && PlainNames(cs)
    ensures |VCompRowsAsWritten(UnknownNamesOf(cs, ref, circuit))| == |IndicesOf(cs, ElmerComponents)|
    ensures RowsReadZero(ElmerSystem(cs, n, ref, circuit), VCompRowsAsWritten(UnknownNamesOf(cs, ref, circuit)), 2 * |cs| + n - 1)
  {
    CircuitZeroExact(cs, n, ref);
    ZeroMaskIsElmer(CircuitTableauStr(cs, n, ref), cs, n);
    TextZeroRows(CircuitTableauStr(cs, n, ref), cs, n);
    SystemRowsCleared(CircuitTableauStr(cs, n, ref), cs, n, ref, circuit);
  }
}
