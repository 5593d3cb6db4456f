/** The branch-law (constitutive) matrices R, G, L, C and the source vector,
    each built on the numeric track and on the text track. Every builder takes
    the index lists of get_indices, fills one blank diagonal array per list in
    a loop, and adds the arrays cell by cell (numbers add, strings
    concatenate). */
module BranchLaws {
  import opened Seqs
  import opened Matrices
  import opened Netlist
  import opened Partition
  import opened Incidence

  // ---------------------------------------------------------------------
  // Reference definitions: the coefficient each component contributes.
  // ---------------------------------------------------------------------

  /** Diagonal entry of R: the value of a resistor, 1 for a current source
      or a capacitor, 0 otherwise. */
  function ResistanceCoef(c: Component): int
  {
    match c.kind
    case Resistor => c.value
    case CurrentSource => 1
    case Capacitor => 1
    case _ => 0
  }

  /** Diagonal entry of G: -1 for a resistor, 1 for a voltage source or an
      inductor, 0 otherwise. */
  function ConductanceCoef(c: Component): int
  {
    match c.kind
    case Resistor => -1
    case VoltageSource => 1
    case Inductor => 1
    case _ => 0
  }

  /** Diagonal entry of L: minus the value of an inductor. */
  function InductanceCoef(c: Component): int
  {
    if c.kind.Inductor? then -c.value else 0
  }

  /** Diagonal entry of C: minus the value of a capacitor. */
  function CapacitanceCoef(c: Component): int
  {
    if c.kind.Capacitor? then -c.value else 0
  }

  /** Source entry: +value for a current source, -value for a voltage source. */
  function SourceCoef(c: Component): int
  {
    match c.kind
    case CurrentSource => c.value
    case VoltageSource => -c.value
    case _ => 0
  }

  function ResistanceText(c: Component): string
  {
    match c.kind
    case Resistor => c.name
    case CurrentSource => "1"
    case Capacitor => "1"
    case _ => ""
  }

  function ConductanceText(c: Component): string
  {
    match c.kind
    case Resistor => "-1"
    case VoltageSource => "1"
    case Inductor => "1"
    case _ => ""
  }

  function InductanceText(c: Component): string
  {
    if c.kind.Inductor? then "-" + c.name else ""
  }

  function CapacitanceText(c: Component): string
  {
    if c.kind.Capacitor? then "-" + c.name else ""
  }

  function SourceText(c: Component): string
  {
    match c.kind
    case CurrentSource => c.name
    case VoltageSource => "-" + c.name
    case _ => ""
  }

  predicate StartsWithMinus(s: string)
  {
    |s| > 0 && s[0] == '-'
  }

  predicate IsLetter(ch: char)
  {
    'a' <= ch <= 'z' || 'A' <= ch <= 'Z' || ch == '_'
  }

  /** A name usable as a solver parameter: it starts with a letter or `_`. */
  predicate WellNamed(c: Component)
  {
    |c.name| > 0 && IsLetter(c.name[0])
  }

  /** A text cell agrees with a numeric cell when it is empty exactly where
      the number is 0 and starts with "-" exactly where the number is negative. */
  predicate Agree(s: string, x: int)
  {
    (s == "" <==> x == 0) && (StartsWithMinus(s) <==> x < 0)
  }

  /** Per component, the two tracks agree on which entries are present; when
      the value is positive they also agree on the sign. */
  lemma CoefTextAgree(c: Component)
    requires WellNamed(c) && c.value != 0
    ensures (ResistanceText(c) == "") <==> (ResistanceCoef(c) == 0)
    ensures (ConductanceText(c) == "") <==> (ConductanceCoef(c) == 0)
    ensures (InductanceText(c) == "") <==> (InductanceCoef(c) == 0)
    ensures (CapacitanceText(c) == "") <==> (CapacitanceCoef(c) == 0)
    ensures (SourceText(c) == "") <==> (SourceCoef(c) == 0)
    ensures c.value > 0 ==>
              Agree(ResistanceText(c), ResistanceCoef(c)) && Agree(ConductanceText(c), ConductanceCoef(c)) &&
              Agree(InductanceText(c), InductanceCoef(c)) && Agree(CapacitanceText(c), CapacitanceCoef(c)) &&
              Agree(SourceText(c), SourceCoef(c))
  {
    assert c.name[0] != '-';
  }

  // ---------------------------------------------------------------------
  // The builders, in terms of the index lists they are given.
  // ---------------------------------------------------------------------

  /** Every listed index addresses a component and a row of an e x e array. */
  ghost predicate ValidIndices(ind: seq<nat>, e: nat, cs: seq<Component>)
  {
    forall k :: 0 <= k < |ind| ==> ind[k] < e && ind[k] < |cs|
  }

  function Repeat<T>(e: nat, x: T): (s: seq<T>)
    ensures |s| == e && forall i :: 0 <= i < e ==> s[i] == x
  {
    seq(e, _ => x)
  }

  function Values(cs: seq<Component>): (s: seq<int>)
    ensures |s| == |cs| && forall i :: 0 <= i < |cs| ==> s[i] == cs[i].value
  {
    seq(|cs|, i requires 0 <= i < |cs| => cs[i].value)
  }

  function NegatedValues(cs: seq<Component>): (s: seq<int>)
    ensures |s| == |cs| && forall i :: 0 <= i < |cs| ==> s[i] == -cs[i].value
  {
    seq(|cs|, i requires 0 <= i < |cs| => -cs[i].value)
  }

  function Names(cs: seq<Component>): (s: seq<string>)
    ensures |s| == |cs| && forall i :: 0 <= i < |cs| ==> s[i] == cs[i].name
  {
    seq(|cs|, i requires 0 <= i < |cs| => cs[i].name)
  }

  function NegatedNames(cs: seq<Component>): (s: seq<string>)
    ensures |s| == |cs| && forall i :: 0 <= i < |cs| ==> s[i] == "-" + cs[i].name
  {
    seq(|cs|, i requires 0 <= i < |cs| => "-" + cs[i].name)
  }

  /** R = R_r + R_i + R_cap on the numeric track. */
  function ResistanceMatrix(cs: seq<Component>, e: nat, indr: seq<nat>, indi: seq<nat>, indcap: seq<nat>): (m: Matrix<int>)
    requires ValidIndices(indr, e, cs) && ValidIndices(indi, e, cs) && ValidIndices(indcap, e, cs)
    ensures IsMatrix(m, e, e)
    ensures forall i, j :: 0 <= i < e && 0 <= j < e ==>
              m[i][j] == if i != j then 0
                         else (if Listed(indr, i) then cs[i].value else 0) + (if Listed(indi, i) then 1 else 0) + (if Listed(indcap, i) then 1 else 0)
  {
    Combine(Combine(Diagonal(e, indr, Values(cs), 0), Diagonal(e, indi, Repeat(e, 1), 0), AddInt),
            Diagonal(e, indcap, Repeat(e, 1), 0), AddInt)
  }

  /** R on the text track: names, "1" and "1" concatenated in that order. */
  function ResistanceMatrixStr(cs: seq<Component>, e: nat, indr: seq<nat>, indi: seq<nat>, indcap: seq<nat>): (m: Matrix<string>)
    requires ValidIndices(indr, e, cs) && ValidIndices(indi, e, cs) && ValidIndices(indcap, e, cs)
    ensures IsMatrix(m, e, e)
    ensures forall i, j :: 0 <= i < e && 0 <= j < e ==>
              m[i][j] == if i != j then ""
                         else (if Listed(indr, i) then cs[i].name else "") + (if Listed(indi, i) then "1" else "") + (if Listed(indcap, i) then "1" else "")
  {
    Combine(Combine(Diagonal(e, indr, Names(cs), ""), Diagonal(e, indi, Repeat(e, "1"), ""), Concat),
            Diagonal(e, indcap, Repeat(e, "1"), ""), Concat)
  }

  /** G = G_r + G_v + G_ind on the numeric track. */
  function ConductanceMatrix(e: nat, indr: seq<nat>, indv: seq<nat>, indInd: seq<nat>): (m: Matrix<int>)
    requires forall k :: 0 <= k < |indr| ==> indr[k] < e
    requires forall k :: 0 <= k < |indv| ==> indv[k] < e
    requires forall k :: 0 <= k < |indInd| ==> indInd[k] < e
    ensures IsMatrix(m, e, e)
    ensures forall i, j :: 0 <= i < e && 0 <= j < e ==>
              m[i][j] == if i != j then 0
                         else (if Listed(indr, i) then -1 else 0) + (if Listed(indv, i) then 1 else 0) + (if Listed(indInd, i) then 1 else 0)
  {
    Combine(Combine(Diagonal(e, indr, Repeat(e, -1), 0), Diagonal(e, indv, Repeat(e, 1), 0), AddInt),
            Diagonal(e, indInd, Repeat(e, 1), 0), AddInt)
  }

  function ConductanceMatrixStr(e: nat, indr: seq<nat>, indv: seq<nat>, indInd: seq<nat>): (m: Matrix<string>)
    requires forall k :: 0 <= k < |indr| ==> indr[k] < e
    requires forall k :: 0 <= k < |indv| ==> indv[k] < e
    requires forall k :: 0 <= k < |indInd| ==> indInd[k] < e
    ensures IsMatrix(m, e, e)
    ensures forall i, j :: 0 <= i < e && 0 <= j < e ==>
              m[i][j] == if i != j then ""
                         else (if Listed(indr, i) then "-1" else "") + (if Listed(indv, i) then "1" else "") + (if Listed(indInd, i) then "1" else "")
  {
    Combine(Combine(Diagonal(e, indr, Repeat(e, "-1"), ""), Diagonal(e, indv, Repeat(e, "1"), ""), Concat),
            Diagonal(e, indInd, Repeat(e, "1"), ""), Concat)
  }

  /** L: minus the inductor values on the diagonal. */
  function InductanceMatrix(cs: seq<Component>, e: nat, indInd: seq<nat>): (m: Matrix<int>)
    requires ValidIndices(indInd, e, cs)
    ensures IsMatrix(m, e, e)
    ensures forall i, j :: 0 <= i < e && 0 <= j < e ==>
              m[i][j] == if i == j && Listed(indInd, i) then -cs[i].value else 0
  {
    Diagonal(e, indInd, NegatedValues(cs), 0)
  }

  function InductanceMatrixStr(cs: seq<Component>, e: nat, indInd: seq<nat>): (m: Matrix<string>)
    requires ValidIndices(indInd, e, cs)
    ensures IsMatrix(m, e, e)
    ensures forall i, j :: 0 <= i < e && 0 <= j < e ==>
              m[i][j] == if i == j && Listed(indInd, i) then "-" + cs[i].name else ""
  {
    Diagonal(e, indInd, NegatedNames(cs), "")
  }

  /** C: minus the capacitor values on the diagonal. */
  function CapacitanceMatrix(cs: seq<Component>, e: nat, indcap: seq<nat>): (m: Matrix<int>)
    requires ValidIndices(indcap, e, cs)
    ensures IsMatrix(m, e, e)
    ensures forall i, j :: 0 <= i < e && 0 <= j < e ==>
              m[i][j] == if i == j && Listed(indcap, i) then -cs[i].value else 0
  {
    Diagonal(e, indcap, NegatedValues(cs), 0)
  }

  function CapacitanceMatrixStr(cs: seq<Component>, e: nat, indcap: seq<nat>): (m: Matrix<string>)
    requires ValidIndices(indcap, e, cs)
    ensures IsMatrix(m, e, e)
    ensures forall i, j :: 0 <= i < e && 0 <= j < e ==>
              m[i][j] == if i == j && Listed(indcap, i) then "-" + cs[i].name else ""
  {
    Diagonal(e, indcap, NegatedNames(cs), "")
  }

  /** A length-e vector holding `entries[i]` at each listed index, `blank` elsewhere. */
  function Entries<T>(e: nat, ind: seq<nat>, entries: seq<T>, blank: T): (v: seq<T>)
    requires forall k :: 0 <= k < |ind| ==> ind[k] < e && ind[k] < |entries|
    ensures |v| == e && forall i :: 0 <= i < e ==> v[i] == if Listed(ind, i) then entries[i] else blank
  {
    seq(e, i requires 0 <= i < e => if Listed(ind, i) then entries[i] else blank)
  }

  /** The real-valued source vector rhs = rhs_v + rhs_i. */
  function SourceVector(cs: seq<Component>, e: nat, indi: seq<nat>, indv: seq<nat>): (v: seq<int>)
    requires ValidIndices(indi, e, cs) && ValidIndices(indv, e, cs)
    ensures |v| == e
    ensures forall i :: 0 <= i < e ==> v[i] == (if Listed(indv, i) then -cs[i].value else 0) + (if Listed(indi, i) then cs[i].value else 0)
  {
    var rv := Entries(e, indv, NegatedValues(cs), 0);
    var ri := Entries(e, indi, Values(cs), 0);
    seq(e, i requires 0 <= i < e => rv[i] + ri[i])
  }

  /** The text source vector rhs_v_str + rhs_i_str. */
  function SourceVectorStr(cs: seq<Component>, e: nat, indi: seq<nat>, indv: seq<nat>): (v: seq<string>)
    requires ValidIndices(indi, e, cs) && ValidIndices(indv, e, cs)
    ensures |v| == e
    ensures forall i :: 0 <= i < e ==> v[i] == (if Listed(indv, i) then "-" + cs[i].name else "") + (if Listed(indi, i) then cs[i].name else "")
  {
    var rv := Entries(e, indv, NegatedNames(cs), "");
    var ri := Entries(e, indi, Names(cs), "");
    seq(e, i requires 0 <= i < e => rv[i] + ri[i])
  }

  // ---------------------------------------------------------------------
  // The builder methods: blank arrays filled by loops, then added.
  // ---------------------------------------------------------------------

  /** A blank e x e array after the loop over one index list. */
  method FilledDiagonal<T>(e: nat, ind: seq<nat>, entries: seq<T>, blank: T) returns (m: Matrix<T>)
    requires forall k :: 0 <= k < |ind| ==> ind[k] < e && ind[k] < |entries|
    ensures m == Diagonal(e, ind, entries, blank)
  {
    var a := NewMatrix(e, e, blank);
    FillDiagonal(a, ind, entries);
    Extensionality(Cells(a), Diagonal(e, ind, entries, blank), e, e);
    m := Cells(a);
  }

  /** A blank length-e column after the loop over one index list. */
  method FilledEntries<T>(e: nat, ind: seq<nat>, entries: seq<T>, blank: T) returns (v: seq<T>)
    requires forall k :: 0 <= k < |ind| ==> ind[k] < e && ind[k] < |entries|
    ensures v == Entries(e, ind, entries, blank)
  {
    var a := new T[e](_ => blank);
    var k := 0;
    while k < |ind|
      invariant 0 <= k <= |ind|
      invariant forall i :: 0 <= i < e ==> a[i] == if Listed(ind[..k], i) then entries[i] else blank
    {
      a[ind[k]] := entries[ind[k]];
      assert ind[..k + 1][..k] == ind[..k];
      k := k + 1;
    }
    assert ind[..k] == ind;
    v := a[..];
  }

  /** get_resistance_matrix. */
  method BuildResistance(cs: seq<Component>, e: nat, indr: seq<nat>, indi: seq<nat>, indcap: seq<nat>) returns (m: Matrix<int>)
    requires ValidIndices(indr, e, cs) && ValidIndices(indi, e, cs) && ValidIndices(indcap, e, cs)
    ensures m == ResistanceMatrix(cs, e, indr, indi, indcap)
  {
    var r := FilledDiagonal(e, indr, Values(cs), 0);
    var i := FilledDiagonal(e, indi, Repeat(e, 1), 0);
    var cap := FilledDiagonal(e, indcap, Repeat(e, 1), 0);
    m := Combine(Combine(r, i, AddInt), cap, AddInt);
  }

  /** get_resistance_matrix_str. */
  method BuildResistanceStr(cs: seq<Component>, e: nat, indr: seq<nat>, indi: seq<nat>, indcap: seq<nat>) returns (m: Matrix<string>)
    requires ValidIndices(indr, e, cs) && ValidIndices(indi, e, cs) && ValidIndices(indcap, e, cs)
    ensures m == ResistanceMatrixStr(cs, e, indr, indi, indcap)
  {
    var r := FilledDiagonal(e, indr, Names(cs), "");
    var i := FilledDiagonal(e, indi, Repeat(e, "1"), "");
    var cap := FilledDiagonal(e, indcap, Repeat(e, "1"), "");
    m := Combine(Combine(r, i, Concat), cap, Concat);
  }

  /** get_conductance_matrix. */
  method BuildConductance(e: nat, indr: seq<nat>, indv: seq<nat>, indInd: seq<nat>) returns (m: Matrix<int>)
    requires forall k :: 0 <= k < |indr| ==> indr[k] < e
    requires forall k :: 0 <= k < |indv| ==> indv[k] < e
    requires forall k :: 0 <= k < |indInd| ==> indInd[k] < e
    ensures m == ConductanceMatrix(e, indr, indv, indInd)
  {
    var r := FilledDiagonal(e, indr, Repeat(e, -1), 0);
    var v := FilledDiagonal(e, indv, Repeat(e, 1), 0);
    var ind := FilledDiagonal(e, indInd, Repeat(e, 1), 0);
    m := Combine(Combine(r, v, AddInt), ind, AddInt);
  }

  /** get_conductance_matrix_str. */
  method BuildConductanceStr(e: nat, indr: seq<nat>, indv: seq<nat>, indInd: seq<nat>) returns (m: Matrix<string>)
    requires forall k :: 0 <= k < |indr| ==> indr[k] < e
    requires forall k :: 0 <= k < |indv| ==> indv[k] < e
    requires forall k :: 0 <= k < |indInd| ==> indInd[k] < e
    ensures m == ConductanceMatrixStr(e, indr, indv, indInd)
  {
    var r := FilledDiagonal(e, indr, Repeat(e, "-1"), "");
    var v := FilledDiagonal(e, indv, Repeat(e, "1"), "");
    var ind := FilledDiagonal(e, indInd, Repeat(e, "1"), "");
    m := Combine(Combine(r, v, Concat), ind, Concat);
  }

  /** get_inductance_matrix. */
  method BuildInductance(cs: seq<Component>, e: nat, indInd: seq<nat>) returns (m: Matrix<int>)
    requires ValidIndices(indInd, e, cs)
    ensures m == InductanceMatrix(cs, e, indInd)
  {
    m := FilledDiagonal(e, indInd, NegatedValues(cs), 0);
  }

  /** get_inductance_matrix_str. */
  method BuildInductanceStr(cs: seq<Component>, e: nat, indInd: seq<nat>) returns (m: Matrix<string>)
    requires ValidIndices(indInd, e, cs)
    ensures m == InductanceMatrixStr(cs, e, indInd)
  {
    m := FilledDiagonal(e, indInd, NegatedNames(cs), "");
  }

  /** get_capacitance_matrix. */
  method BuildCapacitance(cs: seq<Component>, e: nat, indcap: seq<nat>) returns (m: Matrix<int>)
    requires ValidIndices(indcap, e, cs)
    ensures m == CapacitanceMatrix(cs, e, indcap)
  {
    m := FilledDiagonal(e, indcap, NegatedValues(cs), 0);
  }

  /** get_capacitance_matrix_str. */
  method BuildCapacitanceStr(cs: seq<Component>, e: nat, indcap: seq<nat>) returns (m: Matrix<string>)
    requires ValidIndices(indcap, e, cs)
    ensures m == CapacitanceMatrixStr(cs, e, indcap)
  {
    m := FilledDiagonal(e, indcap, NegatedNames(cs), "");
  }

  /** get_rhs, real-valued sources. */
  method BuildSource(cs: seq<Component>, e: nat, indi: seq<nat>, indv: seq<nat>) returns (v: seq<int>)
    requires ValidIndices(indi, e, cs) && ValidIndices(indv, e, cs)
    ensures v == SourceVector(cs, e, indi, indv)
  {
    var ri := FilledEntries(e, indi, Values(cs), 0);
    var rv := FilledEntries(e, indv, NegatedValues(cs), 0);
    v := seq(e, i requires 0 <= i < e => rv[i] + ri[i]);
  }

  /** get_rhs_str. */
  method BuildSourceStr(cs: seq<Component>, e: nat, indi: seq<nat>, indv: seq<nat>) returns (v: seq<string>)
    requires ValidIndices(indi, e, cs) && ValidIndices(indv, e, cs)
    ensures v == SourceVectorStr(cs, e, indi, indv)
  {
    var ri := FilledEntries(e, indi, Names(cs), "");
    var rv := FilledEntries(e, indv, NegatedNames(cs), "");
    v := seq(e, i requires 0 <= i < e => rv[i] + ri[i]);
  }

  // ---------------------------------------------------------------------
  // With the index lists of get_indices, each builder is the diagonal of
  // the per-component reference coefficients.
  // ---------------------------------------------------------------------

  /** The index lists of get_indices are valid for every builder. */
  lemma IndicesValid(cs: seq<Component>, t: Class)
    ensures ValidIndices(IndicesOf(cs, t), |cs|, cs)
  {
    IndicesOfSpec(cs, t);
  }

  /** R is |cs| x |cs|, zero off the diagonal, and its diagonal entry i is
      the coefficient of component i; likewise on the text track. */
  lemma ResistanceByKind(cs: seq<Component>)
    ensures IndicesValid3(cs)
    ensures var R := ResistanceMatrix(cs, |cs|, IndicesOf(cs, Resistors), IndicesOf(cs, CurrentSources), IndicesOf(cs, Capacitors));
            forall i, j :: 0 <= i < |cs| && 0 <= j < |cs| ==> R[i][j] == if i == j then ResistanceCoef(cs[i]) else 0
    ensures var R := ResistanceMatrixStr(cs, |cs|, IndicesOf(cs, Resistors), IndicesOf(cs, CurrentSources), IndicesOf(cs, Capacitors));
            forall i, j :: 0 <= i < |cs| && 0 <= j < |cs| ==> R[i][j] == if i == j then ResistanceText(cs[i]) else ""
  {
    AllIndicesValid(cs);
    var R := ResistanceMatrix(cs, |cs|, IndicesOf(cs, Resistors), IndicesOf(cs, CurrentSources), IndicesOf(cs, Capacitors));
    var Rs := ResistanceMatrixStr(cs, |cs|, IndicesOf(cs, Resistors), IndicesOf(cs, CurrentSources), IndicesOf(cs, Capacitors));
    forall i, j | 0 <= i < |cs| && 0 <= j < |cs|
      ensures R[i][j] == if i == j then ResistanceCoef(cs[i]) else 0
      ensures Rs[i][j] == if i == j then ResistanceText(cs[i]) else ""
    {
      if i == j {
        Membership(cs, i);
      }
    }
  }

  /** G likewise holds the conductance coefficients on its diagonal. */
  lemma ConductanceByKind(cs: seq<Component>)
    ensures IndicesValid3(cs)
    ensures var G := ConductanceMatrix(|cs|, IndicesOf(cs, Resistors), IndicesOf(cs, VoltageSources), IndicesOf(cs, Inductors));
            forall i, j :: 0 <= i < |cs| && 0 <= j < |cs| ==> G[i][j] == if i == j then ConductanceCoef(cs[i]) else 0
    ensures var G := ConductanceMatrixStr(|cs|, IndicesOf(cs, Resistors), IndicesOf(cs, VoltageSources), IndicesOf(cs, Inductors));
            forall i, j :: 0 <= i < |cs| && 0 <= j < |cs| ==> G[i][j] == if i == j then ConductanceText(cs[i]) else ""
  {
    AllIndicesValid(cs);
    var G := ConductanceMatrix(|cs|, IndicesOf(cs, Resistors), IndicesOf(cs, VoltageSources), IndicesOf(cs, Inductors));
    var Gs := ConductanceMatrixStr(|cs|, IndicesOf(cs, Resistors), IndicesOf(cs, VoltageSources), IndicesOf(cs, Inductors));
    forall i, j | 0 <= i < |cs| && 0 <= j < |cs|
      ensures G[i][j] == if i == j then ConductanceCoef(cs[i]) else 0
    {
      if i == j {
        Membership(cs, i);
      }
    }
    forall i, j | 0 <= i < |cs| && 0 <= j < |cs|
      ensures Gs[i][j] == if i == j then ConductanceText(cs[i]) else ""
    {
      if i == j {
        Membership(cs, i);
      }
    }
  }

  /** L and C hold minus the inductances and capacitances on their diagonals. */
  lemma StorageByKind(cs: seq<Component>)
    ensures IndicesValid3(cs)
    ensures var L := InductanceMatrix(cs, |cs|, IndicesOf(cs, Inductors));
            var Ls := InductanceMatrixStr(cs, |cs|, IndicesOf(cs, Inductors));
            forall i, j :: 0 <= i < |cs| && 0 <= j < |cs| ==>
              L[i][j] == (if i == j then InductanceCoef(cs[i]) else 0) &&
              Ls[i][j] == (if i == j then InductanceText(cs[i]) else "")
    ensures var C := CapacitanceMatrix(cs, |cs|, IndicesOf(cs, Capacitors));
            var Cs := CapacitanceMatrixStr(cs, |cs|, IndicesOf(cs, Capacitors));
            forall i, j :: 0 <= i < |cs| && 0 <= j < |cs| ==>
              C[i][j] == (if i == j then CapacitanceCoef(cs[i]) else 0) &&
              Cs[i][j] == (if i == j then CapacitanceText(cs[i]) else "")
  {
    AllIndicesValid(cs);
    var L := InductanceMatrix(cs, |cs|, IndicesOf(cs, Inductors));
    var Ls := InductanceMatrixStr(cs, |cs|, IndicesOf(cs, Inductors));
    var C := CapacitanceMatrix(cs, |cs|, IndicesOf(cs, Capacitors));
    var Cs := CapacitanceMatrixStr(cs, |cs|, IndicesOf(cs, Capacitors));
    forall i, j | 0 <= i < |cs| && 0 <= j < |cs|
      ensures L[i][j] == (if i == j then InductanceCoef(cs[i]) else 0)
      ensures Ls[i][j] == (if i == j then InductanceText(cs[i]) else "")
      ensures C[i][j] == (if i == j then CapacitanceCoef(cs[i]) else 0)
      ensures Cs[i][j] == (if i == j then CapacitanceText(cs[i]) else "")
    {
      if i == j {
        Membership(cs, i);
      }
    }
  }

  /** The source vectors hold the reference source entries. */
  lemma SourceVectorsByKind(cs: seq<Component>)
    ensures IndicesValid3(cs)
    ensures var e := |cs|;
            var f := SourceVector(cs, e, IndicesOf(cs, CurrentSources), IndicesOf(cs, VoltageSources));
            var fs := SourceVectorStr(cs, e, IndicesOf(cs, CurrentSources), IndicesOf(cs, VoltageSources));
            forall i :: 0 <= i < e ==> f[i] == SourceCoef(cs[i]) && fs[i] == SourceText(cs[i])
  {
    AllIndicesValid(cs);
    var f := SourceVector(cs, |cs|, IndicesOf(cs, CurrentSources), IndicesOf(cs, VoltageSources));
    var fs := SourceVectorStr(cs, |cs|, IndicesOf(cs, CurrentSources), IndicesOf(cs, VoltageSources));
    forall i | 0 <= i < |cs|
      ensures f[i] == SourceCoef(cs[i]) && fs[i] == SourceText(cs[i])
    {
      Membership(cs, i);
    }
  }

  /** All six index lists are valid for the builders. */
  ghost predicate IndicesValid3(cs: seq<Component>)
  {
    forall t :: ValidIndices(IndicesOf(cs, t), |cs|, cs)
  }

  lemma AllIndicesValid(cs: seq<Component>)
    ensures IndicesValid3(cs)
  {
    forall t: Class
      ensures ValidIndices(IndicesOf(cs, t), |cs|, cs)
    {
      IndicesOfSpec(cs, t);
    }
  }

  /** Component i is in exactly the index list of its own class. */
  lemma Membership(cs: seq<Component>, i: nat)
    requires i < |cs|
    ensures Listed(IndicesOf(cs, Resistors), i) <==> cs[i].kind.Resistor?
    ensures Listed(IndicesOf(cs, VoltageSources), i) <==> cs[i].kind.VoltageSource?
    ensures Listed(IndicesOf(cs, CurrentSources), i) <==> cs[i].kind.CurrentSource?
    ensures Listed(IndicesOf(cs, Inductors), i) <==> cs[i].kind.Inductor?
    ensures Listed(IndicesOf(cs, Capacitors), i) <==> cs[i].kind.Capacitor?
  {
    IndicesOfSpec(cs, Resistors);
    ListedIsIn(IndicesOf(cs, Resistors), i);
    IndicesOfSpec(cs, VoltageSources);
    ListedIsIn(IndicesOf(cs, VoltageSources), i);
    IndicesOfSpec(cs, CurrentSources);
    ListedIsIn(IndicesOf(cs, CurrentSources), i);
    IndicesOfSpec(cs, Inductors);
    ListedIsIn(IndicesOf(cs, Inductors), i);
    IndicesOfSpec(cs, Capacitors);
    ListedIsIn(IndicesOf(cs, Capacitors), i);
  }
}
