/** The two assembly pipelines of one circuit, numeric and text, and how
    they agree: after the integer-form rewrite, a text cell reads "0" exactly
    where the numeric cell is 0, and starts with "-" exactly where the
    numeric cell is negative. */
module TrackAgreement {
  import opened Matrices
  import opened Netlist
  import opened Partition
  import opened Incidence
  import opened BranchLaws
  import opened SparseTableau
  import opened TableauText
  import opened ZeroRowDetection

  /** The numeric system of a circuit of n nodes: index lists, incidence
      matrix without the reference row, R, G, L, C, the source vector, and
      their tableau. */
  function CircuitTableau(cs: seq<Component>, n: nat, ref: int): (t: Tableau<int>)
    requires 1 <= ref <= n
    ensures IsMatrix(t.stiffness, n - 1 + 2 * |cs|, 2 * |cs| + n - 1)
    ensures IsMatrix(t.damping, n - 1 + 2 * |cs|, 2 * |cs| + n - 1)
    ensures |t.source| == n - 1 + 2 * |cs|
  {
    AllIndicesValid(cs);
    IncidenceCells(cs, n, |cs|, ref);
    var e := |cs|;
    var indr, indv, indi := IndicesOf(cs, Resistors), IndicesOf(cs, VoltageSources), IndicesOf(cs, CurrentSources);
    var indInd, indcap := IndicesOf(cs, Inductors), IndicesOf(cs, Capacitors);
    TableauMatrix(IncidenceMatrix(cs, n, e, ref), ResistanceMatrix(cs, e, indr, indi, indcap),
                  ConductanceMatrix(e, indr, indv, indInd), InductanceMatrix(cs, e, indInd),
                  CapacitanceMatrix(cs, e, indcap), SourceVector(cs, e, indi, indv), n, e)
  }

  /** The text system of the same circuit. */
  function CircuitTableauStr(cs: seq<Component>, n: nat, ref: int): (t: Tableau<string>)
    requires 1 <= ref <= n
    ensures IsMatrix(t.stiffness, n - 1 + 2 * |cs|, 2 * |cs| + n - 1)
    ensures IsMatrix(t.damping, n - 1 + 2 * |cs|, 2 * |cs| + n - 1)
    ensures |t.source| == n - 1 + 2 * |cs|
  {
    AllIndicesValid(cs);
    IncidenceCells(cs, n, |cs|, ref);
    var e := |cs|;
    var indr, indv, indi := IndicesOf(cs, Resistors), IndicesOf(cs, VoltageSources), IndicesOf(cs, CurrentSources);
    var indInd, indcap := IndicesOf(cs, Inductors), IndicesOf(cs, Capacitors);
    var As, Rs, Gs := IncidenceMatrixStr(cs, n, e, ref), ResistanceMatrixStr(cs, e, indr, indi, indcap),
                      ConductanceMatrixStr(e, indr, indv, indInd);
    var Ls, Cs, fs := InductanceMatrixStr(cs, e, indInd), CapacitanceMatrixStr(cs, e, indcap),
                      SourceVectorStr(cs, e, indi, indv);
    TableauStrOf(As, Rs, Gs, Ls, Cs, fs, n, e)
  }

  /** A rewritten text cell agrees with a number: it reads "0", and passes
      the zero test of get_zero_rows_str, exactly where the number is 0. */
  predicate CanonAgree(s: string, x: int)
  {
    (s == "0" <==> x == 0) && (StartsWithMinus(s) <==> x < 0) && ZeroAgree(s, x)
  }

  /** Two matrices of the same shape whose cells agree once the text cell is
      rewritten. */
  ghost predicate Related(ms: Matrix<string>, m: Matrix<int>, rows: nat, cols: nat)
  {
    IsMatrix(ms, rows, cols) && IsMatrix(m, rows, cols) &&
    forall i, j :: 0 <= i < rows && 0 <= j < cols ==> CanonAgree(Canon(ms[i][j]), m[i][j])
  }

  /** A circuit both tracks can spell alike: no component connects a node to
      itself, and every component other than an Elmer coil has a name that
      starts with a letter and a positive value. */
  ghost predicate WellFormedCircuit(cs: seq<Component>)
  {
    NoSelfLoops(cs) && forall j :: 0 <= j < |cs| ==> cs[j].kind.ElmerComponent? || (WellNamed(cs[j]) && cs[j].value > 0)
  }

  /** The np.block fillers agree: "0.0" and "-0.0" with 0, "-1.0" with -1. */
  lemma FillersAgree()
    ensures CanonAgree(Canon("0.0"), 0) && CanonAgree(Canon("-0.0"), 0) && CanonAgree(Canon("-1.0"), -1)
  {
    assert Canon("0.0") == "0" && Canon("-0.0") == "0" && Canon("-1.0") == "-1";
    ZeroTextCases("");
  }

  /** The stiffness layouts of two related sets of blocks are related. */
  lemma StiffnessAgree(As: Matrix<string>, Rs: Matrix<string>, Gs: Matrix<string>,
                       A: Matrix<int>, R: Matrix<int>, G: Matrix<int>, nn: nat, e: nat)
    requires Related(As, A, nn, e) && Related(Rs, R, e, e) && Related(Gs, G, e, e)
    ensures Related(Stiffness(As, Rs, Gs, nn, e, "0.0", "-1.0", "-0.0"), Stiffness(A, R, G, nn, e, 0, -1, 0), nn + 2 * e, 2 * e + nn)
  {
    FillersAgree();
    var ms := Stiffness(As, Rs, Gs, nn, e, "0.0", "-1.0", "-0.0");
    var m := Stiffness(A, R, G, nn, e, 0, -1, 0);
    forall i, j | 0 <= i < nn + 2 * e && 0 <= j < 2 * e + nn
      ensures CanonAgree(Canon(ms[i][j]), m[i][j])
    {
      assert ms[i][j] == StiffnessCell(As, Rs, Gs, nn, e, "0.0", "-1.0", "-0.0", i, j);
      assert m[i][j] == StiffnessCell(A, R, G, nn, e, 0, -1, 0, i, j);
      if nn <= i < nn + e && 2 * e <= j {
        assert CanonAgree(Canon(As[j - 2 * e][i - nn]), A[j - 2 * e][i - nn]);
      }
    }
  }

  /** The damping layouts of two related sets of blocks are related. */
  lemma DampingAgree(Ls: Matrix<string>, Cs: Matrix<string>, L: Matrix<int>, C: Matrix<int>, nn: nat, e: nat)
    requires Related(Ls, L, e, e) && Related(Cs, C, e, e)
    ensures Related(Damping(Ls, Cs, nn, e, "0.0"), Damping(L, C, nn, e, 0), nn + 2 * e, 2 * e + nn)
  {
    FillersAgree();
    var ms := Damping(Ls, Cs, nn, e, "0.0");
    var m := Damping(L, C, nn, e, 0);
    forall i, j | 0 <= i < nn + 2 * e && 0 <= j < 2 * e + nn
      ensures CanonAgree(Canon(ms[i][j]), m[i][j])
    {
      assert ms[i][j] == DampingCell(Ls, Cs, nn, e, "0.0", i, j);
      assert m[i][j] == DampingCell(L, C, nn, e, 0, i, j);
    }
  }

  /** The source columns of two agreeing source vectors agree. */
  lemma SourceAgree(fs: seq<string>, f: seq<int>, nn: nat, e: nat)
    requires |fs| == e && |f| == e
    requires forall k :: 0 <= k < e ==> CanonAgree(CanonZero(fs[k]), f[k])
    ensures var bs := CanonZeroColumn(SourceColumn(fs, nn, e, "0.0"));
            var b := SourceColumn(f, nn, e, 0);
            forall i :: 0 <= i < nn + 2 * e ==> CanonAgree(bs[i], b[i])
  {
    var bs := CanonZeroColumn(SourceColumn(fs, nn, e, "0.0"));
    var b := SourceColumn(f, nn, e, 0);
    forall i | 0 <= i < nn + 2 * e
      ensures CanonAgree(bs[i], b[i])
    {
      if i < nn + e {
        assert CanonZero("0.0") == "0";
      } else {
        assert CanonAgree(CanonZero(fs[i - nn - e]), f[i - nn - e]);
      }
    }
  }

  /** A name that starts with a letter is left alone by the rewrite, also
      behind a minus sign. */
  lemma NamesKept(c: Component)
    requires WellNamed(c)
    ensures Canon(c.name) == c.name && CanonZero(c.name) == c.name
    ensures Canon("-" + c.name) == "-" + c.name && CanonZero("-" + c.name) == "-" + c.name
    ensures c.name != "0" && "-" + c.name != "0"
  {
    assert c.name[0] != '0' && c.name[0] != '-' && c.name[0] != '1';
    assert ("-" + c.name)[1] == c.name[0];
  }

  /** Per component, each text coefficient agrees with its numeric twin. */
  lemma ComponentAgree(c: Component)
    requires c.kind.ElmerComponent? || (WellNamed(c) && c.value > 0)
    ensures CanonAgree(Canon(ResistanceText(c)), ResistanceCoef(c))
    ensures CanonAgree(Canon(ConductanceText(c)), ConductanceCoef(c))
    ensures CanonAgree(Canon(InductanceText(c)), InductanceCoef(c))
    ensures CanonAgree(Canon(CapacitanceText(c)), CapacitanceCoef(c))
    ensures CanonAgree(CanonZero(SourceText(c)), SourceCoef(c))
  {
    assert Canon("") == "0" && CanonZero("") == "0" && Canon("1") == "1" && Canon("-1") == "-1";
    ZeroTextCases(c.name);
    if !c.kind.ElmerComponent? {
      NamesKept(c);
      CoefTextAgree(c);
    }
  }

  /** Without self-loops the two incidence matrices are related. */
  lemma IncidenceAgree(cs: seq<Component>, n: nat, ref: int)
    requires 1 <= ref <= n && WellFormedCircuit(cs)
    ensures Related(IncidenceMatrixStr(cs, n, |cs|, ref), IncidenceMatrix(cs, n, |cs|, ref), n - 1, |cs|)
  {
    IncidenceCells(cs, n, |cs|, ref);
    assert Canon("") == "0" && Canon("1") == "1" && Canon("-1") == "-1";
    ZeroTextCases("");
    forall r, j | 0 <= r < n - 1 && 0 <= j < |cs|
      ensures CanonAgree(Canon(IncidenceMatrixStr(cs, n, |cs|, ref)[r][j]), IncidenceMatrix(cs, n, |cs|, ref)[r][j])
    {
      IncidenceTracksAgree(cs, n, |cs|, ref, r, j);
    }
  }

  /** R and G of the two tracks are related. */
  lemma ResistiveAgree(cs: seq<Component>)
    requires WellFormedCircuit(cs)
    ensures IndicesValid3(cs)
    ensures Related(ResistanceMatrixStr(cs, |cs|, IndicesOf(cs, Resistors), IndicesOf(cs, CurrentSources), IndicesOf(cs, Capacitors)),
                    ResistanceMatrix(cs, |cs|, IndicesOf(cs, Resistors), IndicesOf(cs, CurrentSources), IndicesOf(cs, Capacitors)),
                    |cs|, |cs|)
    ensures Related(ConductanceMatrixStr(|cs|, IndicesOf(cs, Resistors), IndicesOf(cs, VoltageSources), IndicesOf(cs, Inductors)),
                    ConductanceMatrix(|cs|, IndicesOf(cs, Resistors), IndicesOf(cs, VoltageSources), IndicesOf(cs, Inductors)),
                    |cs|, |cs|)
  {
    ResistanceAgree(cs);
    ConductanceAgree(cs);
  }

  lemma ResistanceAgree(cs: seq<Component>)
    requires WellFormedCircuit(cs)
    ensures IndicesValid3(cs)
    ensures Related(ResistanceMatrixStr(cs, |cs|, IndicesOf(cs, Resistors), IndicesOf(cs, CurrentSources), IndicesOf(cs, Capacitors)),
                    ResistanceMatrix(cs, |cs|, IndicesOf(cs, Resistors), IndicesOf(cs, CurrentSources), IndicesOf(cs, Capacitors)),
                    |cs|, |cs|)
  {
    ResistanceByKind(cs);
    FillersAgree();
    assert Canon("") == "0";
    forall i | 0 <= i < |cs|
      ensures CanonAgree(Canon(ResistanceText(cs[i])), ResistanceCoef(cs[i]))
    {
      ComponentAgree(cs[i]);
    }
  }

  lemma ConductanceAgree(cs: seq<Component>)
    requires WellFormedCircuit(cs)
    ensures IndicesValid3(cs)
    ensures Related(ConductanceMatrixStr(|cs|, IndicesOf(cs, Resistors), IndicesOf(cs, VoltageSources), IndicesOf(cs, Inductors)),
                    ConductanceMatrix(|cs|, IndicesOf(cs, Resistors), IndicesOf(cs, VoltageSources), IndicesOf(cs, Inductors)),
                    |cs|, |cs|)
  {
    ConductanceByKind(cs);
    FillersAgree();
    assert Canon("") == "0";
    forall i | 0 <= i < |cs|
      ensures CanonAgree(Canon(ConductanceText(cs[i])), ConductanceCoef(cs[i]))
    {
      ComponentAgree(cs[i]);
    }
  }

  /** L and C of the two tracks are related. */
  lemma StorageAgree(cs: seq<Component>)
    requires WellFormedCircuit(cs)
    ensures IndicesValid3(cs)
    ensures Related(InductanceMatrixStr(cs, |cs|, IndicesOf(cs, Inductors)), InductanceMatrix(cs, |cs|, IndicesOf(cs, Inductors)), |cs|, |cs|)
    ensures Related(CapacitanceMatrixStr(cs, |cs|, IndicesOf(cs, Capacitors)), CapacitanceMatrix(cs, |cs|, IndicesOf(cs, Capacitors)), |cs|, |cs|)
  {
    StorageByKind(cs);
    assert Canon("") == "0";
    forall i | 0 <= i < |cs|
      ensures CanonAgree(Canon(InductanceText(cs[i])), InductanceCoef(cs[i]))
      ensures CanonAgree(Canon(CapacitanceText(cs[i])), CapacitanceCoef(cs[i]))
    {
      ComponentAgree(cs[i]);
    }
  }

  /** Two source vectors of length e that agree entry by entry once the
      text one has had its zero rewrite. */
  ghost predicate SourcesMatch(fs: seq<string>, f: seq<int>, e: nat)
  {
    |fs| == e && |f| == e && forall k :: 0 <= k < e ==> CanonAgree(CanonZero(fs[k]), f[k])
  }

  /** The source vectors of the two tracks agree entry by entry. */
  lemma SourcesAgree(cs: seq<Component>)
    requires WellFormedCircuit(cs)
    ensures IndicesValid3(cs)
    ensures SourcesMatch(SourceVectorStr(cs, |cs|, IndicesOf(cs, CurrentSources), IndicesOf(cs, VoltageSources)),
                         SourceVector(cs, |cs|, IndicesOf(cs, CurrentSources), IndicesOf(cs, VoltageSources)), |cs|)
  {
    SourceVectorsByKind(cs);
    forall i | 0 <= i < |cs|
      ensures CanonAgree(CanonZero(SourceText(cs[i])), SourceCoef(cs[i]))
    {
      ComponentAgree(cs[i]);
    }
  }

  /** A text system that spells a numeric one: both have the given shape,
      and cell by cell, in all three arrays, the text agrees with the
      number. */
  ghost predicate Agreeing(ts: Tableau<string>, t: Tableau<int>, rows: nat, cols: nat)
  {
    && Shapes(ts.stiffness, ts.damping, ts.source, rows, cols)
    && Shapes(t.stiffness, t.damping, t.source, rows, cols)
    && (forall i, j :: 0 <= i < rows && 0 <= j < cols ==>
          CanonAgree(ts.stiffness[i][j], t.stiffness[i][j]) && CanonAgree(ts.damping[i][j], t.damping[i][j]))
    && (forall i :: 0 <= i < rows ==> CanonAgree(ts.source[i], t.source[i]))
  }

  /** Each text block agrees with its numeric twin. */
  ghost predicate BlocksMatch(As: Matrix<string>, Rs: Matrix<string>, Gs: Matrix<string>, Ls: Matrix<string>,
                              Cs: Matrix<string>, fs: seq<string>, A: Matrix<int>, R: Matrix<int>, G: Matrix<int>,
                              L: Matrix<int>, C: Matrix<int>, f: seq<int>, n: nat, e: nat)
    requires n >= 1
  {
    && Related(As, A, n - 1, e) && Related(Rs, R, e, e) && Related(Gs, G, e, e)
    && Related(Ls, L, e, e) && Related(Cs, C, e, e) && SourcesMatch(fs, f, e)
  }

  /** Related blocks of the shapes get_tableau_matrix expects give
      agreeing systems. */
  lemma TableauAgree(As: Matrix<string>, Rs: Matrix<string>, Gs: Matrix<string>, Ls: Matrix<string>, Cs: Matrix<string>,
                     fs: seq<string>, A: Matrix<int>, R: Matrix<int>, G: Matrix<int>, L: Matrix<int>, C: Matrix<int>,
                     f: seq<int>, n: nat, e: nat)
    ensures Shaped(As, Rs, Gs, Ls, Cs, fs, n, e) && Shaped(A, R, G, L, C, f, n, e)
            && BlocksMatch(As, Rs, Gs, Ls, Cs, fs, A, R, G, L, C, f, n, e)
            ==> Agreeing(TableauStrOf(As, Rs, Gs, Ls, Cs, fs, n, e), TableauMatrix(A, R, G, L, C, f, n, e),
                         n - 1 + 2 * e, 2 * e + n - 1)
  {
    if Shaped(As, Rs, Gs, Ls, Cs, fs, n, e) && Shaped(A, R, G, L, C, f, n, e)
       && BlocksMatch(As, Rs, Gs, Ls, Cs, fs, A, R, G, L, C, f, n, e)
    {
      StiffnessAgree(As, Rs, Gs, A, R, G, n - 1, e);
      DampingAgree(Ls, Cs, L, C, n - 1, e);
      SourceAgree(fs, f, n - 1, e);
      TableauStrSpec(As, Rs, Gs, Ls, Cs, fs, n, e);
    }
  }

  /** The blocks of a well-formed circuit have the shapes
      get_tableau_matrix expects, and each text block agrees with its
      numeric twin. */
  lemma BlocksRelated(cs: seq<Component>, n: nat, ref: int)
    requires 1 <= ref <= n && WellFormedCircuit(cs)
    ensures IndicesValid3(cs)
    ensures var e := |cs|;
            var indr, indv, indi := IndicesOf(cs, Resistors), IndicesOf(cs, VoltageSources), IndicesOf(cs, CurrentSources);
            var indInd, indcap := IndicesOf(cs, Inductors), IndicesOf(cs, Capacitors);
            var As, Rs, Gs := IncidenceMatrixStr(cs, n, e, ref), ResistanceMatrixStr(cs, e, indr, indi, indcap),
                              ConductanceMatrixStr(e, indr, indv, indInd);
            var Ls, Cs, fs := InductanceMatrixStr(cs, e, indInd), CapacitanceMatrixStr(cs, e, indcap),
                              SourceVectorStr(cs, e, indi, indv);
            var A, R, G := IncidenceMatrix(cs, n, e, ref), ResistanceMatrix(cs, e, indr, indi, indcap),
                           ConductanceMatrix(e, indr, indv, indInd);
            var L, C, f := InductanceMatrix(cs, e, indInd), CapacitanceMatrix(cs, e, indcap),
                           SourceVector(cs, e, indi, indv);
            && Shaped(As, Rs, Gs, Ls, Cs, fs, n, e) && Shaped(A, R, G, L, C, f, n, e)
            && BlocksMatch(As, Rs, Gs, Ls, Cs, fs, A, R, G, L, C, f, n, e)
  {
    IncidenceAgree(cs, n, ref);
    ResistiveAgree(cs);
    StorageAgree(cs);
    SourcesAgree(cs);
  }

  /** For a well-formed circuit the text system is a faithful spelling of the
      numeric one: cell by cell, in all three arrays, the text reads "0"
      exactly where the number is 0 and carries a leading minus exactly where
      the number is negative. */
  lemma TracksAgree(cs: seq<Component>, n: nat, ref: int)
    requires 1 <= ref <= n && WellFormedCircuit(cs)
    ensures Agreeing(CircuitTableauStr(cs, n, ref), CircuitTableau(cs, n, ref), n - 1 + 2 * |cs|, 2 * |cs| + n - 1)
  {
    BlocksRelated(cs, n, ref);
    var e := |cs|;
    var indr, indv, indi := IndicesOf(cs, Resistors), IndicesOf(cs, VoltageSources), IndicesOf(cs, CurrentSources);
    var indInd, indcap := IndicesOf(cs, Inductors), IndicesOf(cs, Capacitors);
    TableauAgree(IncidenceMatrixStr(cs, n, e, ref), ResistanceMatrixStr(cs, e, indr, indi, indcap),
                 ConductanceMatrixStr(e, indr, indv, indInd), InductanceMatrixStr(cs, e, indInd),
                 CapacitanceMatrixStr(cs, e, indcap), SourceVectorStr(cs, e, indi, indv),
                 IncidenceMatrix(cs, n, e, ref), ResistanceMatrix(cs, e, indr, indi, indcap),
                 ConductanceMatrix(e, indr, indv, indInd), InductanceMatrix(cs, e, indInd),
                 CapacitanceMatrix(cs, e, indcap), SourceVector(cs, e, indi, indv), n, e);
  }
}
