/** The Sparse Tableau system assembled from the incidence matrix A (nodes
    other than the reference node x edges) and the branch-law blocks:

        stiffness  [ A  0   0  ]      damping  [ 0  0  0 ]      source [ 0 ]
                   [ 0  -I  Aᵀ ]               [ 0  0  0 ]             [ 0 ]
                   [ R  G   0  ]               [ L  C  0 ]             [ f ]

    over the unknowns (branch currents, branch voltages, node potentials).
    The layout is generic in the cell type; each track supplies its own
    spelling of the fillers that `np.zeros` and `-np.eye` produce. */
module SparseTableau {
  import opened Matrices

  /** The three arrays handed to the solver: stiffness, damping and source. */
  datatype Tableau<T> = Tableau(stiffness: Matrix<T>, damping: Matrix<T>, source: seq<T>)

  /** Cell (i, j) of the stiffness matrix, block by block: the KCL rows, the
      KVL rows and the resistive branch-law rows. */
  function StiffnessCell<T>(A: Matrix<T>, R: Matrix<T>, G: Matrix<T>, nn: nat, e: nat,
                            zero: T, minusOne: T, negZero: T, i: nat, j: nat): T
    requires IsMatrix(A, nn, e) && IsMatrix(R, e, e) && IsMatrix(G, e, e)
    requires i < nn + 2 * e && j < 2 * e + nn
  {
    if i < nn then
      (if j < e then A[i][j] else zero)
    else if i < nn + e then
      (if j < e then zero else if j < 2 * e then (if j - e == i - nn then minusOne else negZero) else A[j - 2 * e][i - nn])
    else
      (if j < e then R[i - nn - e][j] else if j < 2 * e then G[i - nn - e][j - e] else zero)
  }

  /** Cell (i, j) of the damping matrix: zero except for the L and C blocks
      in the branch-law rows. */
  function DampingCell<T>(L: Matrix<T>, C: Matrix<T>, nn: nat, e: nat, zero: T, i: nat, j: nat): T
    requires IsMatrix(L, e, e) && IsMatrix(C, e, e)
    requires i < nn + 2 * e && j < 2 * e + nn
  {
    if i < nn + e then zero
    else if j < e then L[i - nn - e][j]
    else if j < 2 * e then C[i - nn - e][j - e]
    else zero
  }

  /** The stiffness matrix that `np.block` assembles from the blocks
      [A 0 0; 0 -I Aᵀ; R G 0]. */
  function Stiffness<T>(A: Matrix<T>, R: Matrix<T>, G: Matrix<T>, nn: nat, e: nat, zero: T, minusOne: T, negZero: T): (m: Matrix<T>)
    requires IsMatrix(A, nn, e) && IsMatrix(R, e, e) && IsMatrix(G, e, e)
    ensures IsMatrix(m, nn + 2 * e, 2 * e + nn)
    ensures forall i, j :: 0 <= i < nn + 2 * e && 0 <= j < 2 * e + nn ==>
              m[i][j] == StiffnessCell(A, R, G, nn, e, zero, minusOne, negZero, i, j)
  {
    seq(nn + 2 * e, i requires 0 <= i < nn + 2 * e =>
      seq(2 * e + nn, j requires 0 <= j < 2 * e + nn => StiffnessCell(A, R, G, nn, e, zero, minusOne, negZero, i, j)))
  }

  /** The damping matrix that `np.block` assembles from an all-zero block over
      the KCL and KVL rows and [L C 0] below it. */
  function Damping<T>(L: Matrix<T>, C: Matrix<T>, nn: nat, e: nat, zero: T): (m: Matrix<T>)
    requires IsMatrix(L, e, e) && IsMatrix(C, e, e)
    ensures IsMatrix(m, nn + 2 * e, 2 * e + nn)
    ensures forall i, j :: 0 <= i < nn + 2 * e && 0 <= j < 2 * e + nn ==>
              m[i][j] == DampingCell(L, C, nn, e, zero, i, j)
  {
    seq(nn + 2 * e, i requires 0 <= i < nn + 2 * e =>
      seq(2 * e + nn, j requires 0 <= j < 2 * e + nn => DampingCell(L, C, nn, e, zero, i, j)))
  }

  /** The source column: zeros over the KCL and KVL rows, then f. */
  function SourceColumn<T>(f: seq<T>, nn: nat, e: nat, zero: T): (b: seq<T>)
    requires |f| == e
    ensures |b| == nn + 2 * e
    ensures forall i :: 0 <= i < nn + e ==> b[i] == zero
    ensures forall k :: 0 <= k < e ==> b[nn + e + k] == f[k]
  {
    seq(nn + e, _ => zero) + f
  }

  /** The shapes get_tableau_matrix expects for a circuit of n nodes and e edges. */
  ghost predicate Shaped<T>(A: Matrix<T>, R: Matrix<T>, G: Matrix<T>, L: Matrix<T>, C: Matrix<T>, f: seq<T>, n: nat, e: nat)
  {
    n >= 1 && IsMatrix(A, n - 1, e) && IsMatrix(R, e, e) && IsMatrix(G, e, e) &&
    IsMatrix(L, e, e) && IsMatrix(C, e, e) && |f| == e
  }

  /** get_tableau_matrix: the numeric Sparse Tableau system. The fillers of
      `np.zeros` and `-np.eye` are the numbers 0, -1 and 0. */
  function TableauMatrix(A: Matrix<int>, R: Matrix<int>, G: Matrix<int>, L: Matrix<int>, C: Matrix<int>,
                         f: seq<int>, n: nat, e: nat): (t: Tableau<int>)
    requires Shaped(A, R, G, L, C, f, n, e)
    ensures IsMatrix(t.stiffness, n - 1 + 2 * e, 2 * e + n - 1)
    ensures IsMatrix(t.damping, n - 1 + 2 * e, 2 * e + n - 1)
    ensures |t.source| == n - 1 + 2 * e
  {
    Tableau(Stiffness(A, R, G, n - 1, e, 0, -1, 0), Damping(L, C, n - 1, e, 0), SourceColumn(f, n - 1, e, 0))
  }

  // ---------------------------------------------------------------------
  // What the numeric system means: products with the unknown vector.
  // ---------------------------------------------------------------------

  /** The dot product of a row with a vector. The first term and the rest
      are split off in `DotStep`, so that the solver unfolds one product at a
      time only where a proof asks for it. */
  function Dot(a: seq<int>, x: seq<int>): int
    requires |a| == |x|
    decreases |a|, 1
  {
    if a == [] then 0 else DotStep(a, x)
  }

  function DotStep(a: seq<int>, x: seq<int>): int
    requires |a| == |x| > 0
    decreases |a|, 0
  {
    a[0] * x[0] + Dot(a[1..], x[1..])
  }

  /** Dot of a non-empty row: its first product plus the dot product of the rest. */
  lemma DotCons(a: seq<int>, x: seq<int>)
    requires |a| == |x| > 0
    ensures Dot(a, x) == a[0] * x[0] + Dot(a[1..], x[1..])
  {
    assert Dot(a, x) == DotStep(a, x);
  }

  lemma {:induction false} DotAppend(a: seq<int>, b: seq<int>, x: seq<int>, y: seq<int>)
    requires |a| == |x| && |b| == |y|
    ensures Dot(a + b, x + y) == Dot(a, x) + Dot(b, y)
  {
    if a != [] {
      assert (a + b)[1..] == a[1..] + b;
      assert (x + y)[1..] == x[1..] + y;
      DotAppend(a[1..], b, x[1..], y);
      DotCons(a + b, x + y);
      DotCons(a, x);
    } else {
      assert a + b == b && x + y == y;
    }
  }

  lemma DotAppend3(a: seq<int>, b: seq<int>, c: seq<int>, x: seq<int>, y: seq<int>, z: seq<int>)
    requires |a| == |x| && |b| == |y| && |c| == |z|
    ensures Dot(a + b + c, x + y + z) == Dot(a, x) + Dot(b, y) + Dot(c, z)
  {
    DotAppend(a, b, x, y);
    DotAppend(a + b, c, x + y, z);
  }

  lemma {:induction false} DotZero(a: seq<int>, x: seq<int>)
    requires |a| == |x| && forall k :: 0 <= k < |a| ==> a[k] == 0
    ensures Dot(a, x) == 0
  {
    if a != [] {
      DotZero(a[1..], x[1..]);
      DotCons(a, x);
    }
  }

  /** A row of -I picks out minus one entry. */
  lemma {:induction false} DotNegUnit(a: seq<int>, x: seq<int>, k: nat)
    requires |a| == |x| && k < |a|
    requires forall j :: 0 <= j < |a| ==> a[j] == if j == k then -1 else 0
    ensures Dot(a, x) == -x[k]
  {
    DotCons(a, x);
    if k == 0 {
      DotZero(a[1..], x[1..]);
    } else {
      DotNegUnit(a[1..], x[1..], k - 1);
    }
  }

  /** Kirchhoff's current law: A times the branch currents vanishes. */
  ghost predicate CurrentLaw(A: Matrix<int>, nn: nat, e: nat, cur: seq<int>)
    requires IsMatrix(A, nn, e) && |cur| == e
  {
    forall k :: 0 <= k < nn ==> Dot(A[k], cur) == 0
  }

  /** Kirchhoff's voltage law: the branch voltages are Aᵀ times the node potentials. */
  ghost predicate VoltageLaw(A: Matrix<int>, nn: nat, e: nat, volt: seq<int>, pot: seq<int>)
    requires IsMatrix(A, nn, e) && |volt| == e && |pot| == nn
  {
    forall k :: 0 <= k < e ==> volt[k] == Dot(Transpose(A, nn, e)[k], pot)
  }

  /** The branch laws: R i + G v + L di/dt + C dv/dt = f, edge by edge. */
  ghost predicate BranchLaw(R: Matrix<int>, G: Matrix<int>, L: Matrix<int>, C: Matrix<int>, f: seq<int>, e: nat,
                            cur: seq<int>, volt: seq<int>, dcur: seq<int>, dvolt: seq<int>)
    requires IsMatrix(R, e, e) && IsMatrix(G, e, e) && IsMatrix(L, e, e) && IsMatrix(C, e, e)
    requires |f| == e && |cur| == e && |volt| == e && |dcur| == e && |dvolt| == e
  {
    forall k :: 0 <= k < e ==> Dot(R[k], cur) + Dot(G[k], volt) + Dot(L[k], dcur) + Dot(C[k], dvolt) == f[k]
  }

  /** x and its time derivative dx satisfy stiffness x + damping dx = source. */
  ghost predicate Solves(t: Tableau<int>, x: seq<int>, dx: seq<int>)
    requires |t.stiffness| == |t.damping| == |t.source|
    requires forall i :: 0 <= i < |t.stiffness| ==> |t.stiffness[i]| == |x| && |t.damping[i]| == |dx|
  {
    forall i :: 0 <= i < |t.source| ==> Dot(t.stiffness[i], x) + Dot(t.damping[i], dx) == t.source[i]
  }

  /** A KCL row of the stiffness matrix applied to (i, v, u) gives (A i)_k. */
  lemma StiffnessKclRow(A: Matrix<int>, R: Matrix<int>, G: Matrix<int>, nn: nat, e: nat,
                        cur: seq<int>, volt: seq<int>, pot: seq<int>, k: nat)
    requires IsMatrix(A, nn, e) && IsMatrix(R, e, e) && IsMatrix(G, e, e)
    requires |cur| == e && |volt| == e && |pot| == nn && k < nn
    ensures Dot(Stiffness(A, R, G, nn, e, 0, -1, 0)[k], cur + volt + pot) == Dot(A[k], cur)
  {
    var row := Stiffness(A, R, G, nn, e, 0, -1, 0)[k];
    assert row == A[k] + row[e..2 * e] + row[2 * e..];
    DotAppend3(A[k], row[e..2 * e], row[2 * e..], cur, volt, pot);
    DotZero(row[e..2 * e], volt);
    DotZero(row[2 * e..], pot);
  }

  /** The three blocks of KVL row k: zeros, minus the unit row k, and
      column k of A. */
  lemma KvlRowBlocks(A: Matrix<int>, R: Matrix<int>, G: Matrix<int>, nn: nat, e: nat, k: nat)
    requires IsMatrix(A, nn, e) && IsMatrix(R, e, e) && IsMatrix(G, e, e) && k < e
    ensures var row := Stiffness(A, R, G, nn, e, 0, -1, 0)[nn + k];
            && (forall j :: 0 <= j < e ==> row[..e][j] == 0)
            && (forall j :: 0 <= j < e ==> row[e..2 * e][j] == if j == k then -1 else 0)
            && row[2 * e..] == Transpose(A, nn, e)[k]
  {
    var row := Stiffness(A, R, G, nn, e, 0, -1, 0)[nn + k];
    forall j | 0 <= j < e
      ensures row[..e][j] == 0
      ensures row[e..2 * e][j] == if j == k then -1 else 0
    {
      assert row[j] == StiffnessCell(A, R, G, nn, e, 0, -1, 0, nn + k, j);
      assert row[e + j] == StiffnessCell(A, R, G, nn, e, 0, -1, 0, nn + k, e + j);
    }
    var col := Transpose(A, nn, e)[k];
    forall j | 0 <= j < nn
      ensures row[2 * e..][j] == col[j]
    {
      assert row[2 * e + j] == StiffnessCell(A, R, G, nn, e, 0, -1, 0, nn + k, 2 * e + j);
    }
  }

  /** A KVL row gives (Aᵀ u)_k - v_k. */
  lemma StiffnessKvlRow(A: Matrix<int>, R: Matrix<int>, G: Matrix<int>, nn: nat, e: nat,
                        cur: seq<int>, volt: seq<int>, pot: seq<int>, k: nat)
    requires IsMatrix(A, nn, e) && IsMatrix(R, e, e) && IsMatrix(G, e, e)
    requires |cur| == e && |volt| == e && |pot| == nn && k < e
    ensures Dot(Stiffness(A, R, G, nn, e, 0, -1, 0)[nn + k], cur + volt + pot) == Dot(Transpose(A, nn, e)[k], pot) - volt[k]
  {
    var row := Stiffness(A, R, G, nn, e, 0, -1, 0)[nn + k];
    KvlRowBlocks(A, R, G, nn, e, k);
    assert row == row[..e] + row[e..2 * e] + row[2 * e..];
    DotAppend3(row[..e], row[e..2 * e], row[2 * e..], cur, volt, pot);
    DotZero(row[..e], cur);
    DotNegUnit(row[e..2 * e], volt, k);
  }

  /** A branch-law row gives (R i)_k + (G v)_k. */
  lemma StiffnessBranchRow(A: Matrix<int>, R: Matrix<int>, G: Matrix<int>, nn: nat, e: nat,
                           cur: seq<int>, volt: seq<int>, pot: seq<int>, k: nat)
    requires IsMatrix(A, nn, e) && IsMatrix(R, e, e) && IsMatrix(G, e, e)
    requires |cur| == e && |volt| == e && |pot| == nn && k < e
    ensures Dot(Stiffness(A, R, G, nn, e, 0, -1, 0)[nn + e + k], cur + volt + pot) == Dot(R[k], cur) + Dot(G[k], volt)
  {
    var row := Stiffness(A, R, G, nn, e, 0, -1, 0)[nn + e + k];
    assert row == R[k] + G[k] + row[2 * e..];
    DotAppend3(R[k], G[k], row[2 * e..], cur, volt, pot);
    DotZero(row[2 * e..], pot);
  }

  /** The damping rows over KCL and KVL contribute nothing. */
  lemma DampingUpperRow(L: Matrix<int>, C: Matrix<int>, nn: nat, e: nat, dx: seq<int>, i: nat)
    requires IsMatrix(L, e, e) && IsMatrix(C, e, e)
    requires |dx| == 2 * e + nn && i < nn + e
    ensures Dot(Damping(L, C, nn, e, 0)[i], dx) == 0
  {
    DotZero(Damping(L, C, nn, e, 0)[i], dx);
  }

  /** A damping branch-law row gives (L di/dt)_k + (C dv/dt)_k. */
  lemma DampingBranchRow(L: Matrix<int>, C: Matrix<int>, nn: nat, e: nat, dcur: seq<int>, dvolt: seq<int>, dpot: seq<int>, k: nat)
    requires IsMatrix(L, e, e) && IsMatrix(C, e, e)
    requires |dcur| == e && |dvolt| == e && |dpot| == nn && k < e
    ensures Dot(Damping(L, C, nn, e, 0)[nn + e + k], dcur + dvolt + dpot) == Dot(L[k], dcur) + Dot(C[k], dvolt)
  {
    var row := Damping(L, C, nn, e, 0)[nn + e + k];
    assert row == L[k] + C[k] + row[2 * e..];
    DotAppend3(L[k], C[k], row[2 * e..], dcur, dvolt, dpot);
    DotZero(row[2 * e..], dpot);
  }

  /** KCL row k of stiffness x + damping dx - source is (A i)_k. */
  lemma KclResidual(A: Matrix<int>, R: Matrix<int>, G: Matrix<int>, L: Matrix<int>, C: Matrix<int>, f: seq<int>,
                    n: nat, e: nat, cur: seq<int>, volt: seq<int>, pot: seq<int>, x: seq<int>, dx: seq<int>, k: nat)
    requires Shaped(A, R, G, L, C, f, n, e)
    requires |cur| == e && |volt| == e && |pot| == n - 1 && x == cur + volt + pot && |dx| == 2 * e + n - 1 && k < n - 1
    ensures var t := TableauMatrix(A, R, G, L, C, f, n, e);
            Dot(t.stiffness[k], x) + Dot(t.damping[k], dx) - t.source[k] == Dot(A[k], cur)
  {
    var t := TableauMatrix(A, R, G, L, C, f, n, e);
    StiffnessKclRow(A, R, G, n - 1, e, cur, volt, pot, k);
    assert Dot(t.stiffness[k], x) == Dot(A[k], cur);
    DampingUpperRow(L, C, n - 1, e, dx, k);
    assert Dot(t.damping[k], dx) == 0;
    assert t.source[k] == 0;
  }

  /** KVL row k is (Aᵀ u)_k - v_k. */
  lemma KvlResidual(A: Matrix<int>, R: Matrix<int>, G: Matrix<int>, L: Matrix<int>, C: Matrix<int>, f: seq<int>,
                    n: nat, e: nat, cur: seq<int>, volt: seq<int>, pot: seq<int>, x: seq<int>, dx: seq<int>, k: nat)
    requires Shaped(A, R, G, L, C, f, n, e)
    requires |cur| == e && |volt| == e && |pot| == n - 1 && x == cur + volt + pot && |dx| == 2 * e + n - 1 && k < e
    ensures var t := TableauMatrix(A, R, G, L, C, f, n, e);
            Dot(t.stiffness[n - 1 + k], x) + Dot(t.damping[n - 1 + k], dx) - t.source[n - 1 + k] ==
            Dot(Transpose(A, n - 1, e)[k], pot) - volt[k]
  {
    var t := TableauMatrix(A, R, G, L, C, f, n, e);
    StiffnessKvlRow(A, R, G, n - 1, e, cur, volt, pot, k);
    assert Dot(t.stiffness[n - 1 + k], x) == Dot(Transpose(A, n - 1, e)[k], pot) - volt[k];
    DampingUpperRow(L, C, n - 1, e, dx, n - 1 + k);
    assert Dot(t.damping[n - 1 + k], dx) == 0;
    assert t.source[n - 1 + k] == 0;
  }

  /** Branch-law row k is (R i + G v + L di/dt + C dv/dt - f)_k. */
  lemma BranchResidual(A: Matrix<int>, R: Matrix<int>, G: Matrix<int>, L: Matrix<int>, C: Matrix<int>, f: seq<int>,
                       n: nat, e: nat, cur: seq<int>, volt: seq<int>, pot: seq<int>,
                       dcur: seq<int>, dvolt: seq<int>, dpot: seq<int>, x: seq<int>, dx: seq<int>, k: nat)
    requires Shaped(A, R, G, L, C, f, n, e)
    requires |cur| == e && |volt| == e && |pot| == n - 1 && |dcur| == e && |dvolt| == e && |dpot| == n - 1 && k < e
    requires x == cur + volt + pot && dx == dcur + dvolt + dpot
    ensures var t := TableauMatrix(A, R, G, L, C, f, n, e);
            Dot(t.stiffness[n - 1 + e + k], x) + Dot(t.damping[n - 1 + e + k], dx) -
            t.source[n - 1 + e + k] ==
            Dot(R[k], cur) + Dot(G[k], volt) + Dot(L[k], dcur) + Dot(C[k], dvolt) - f[k]
  {
    var t := TableauMatrix(A, R, G, L, C, f, n, e);
    StiffnessBranchRow(A, R, G, n - 1, e, cur, volt, pot, k);
    assert Dot(t.stiffness[n - 1 + e + k], x) == Dot(R[k], cur) + Dot(G[k], volt);
    DampingBranchRow(L, C, n - 1, e, dcur, dvolt, dpot, k);
    assert Dot(t.damping[n - 1 + e + k], dx) == Dot(L[k], dcur) + Dot(C[k], dvolt);
    assert t.source[n - 1 + e + k] == f[k];
  }

  /** The KCL rows of a solution say A i = 0. */
  lemma SolvesCurrentLaw(A: Matrix<int>, R: Matrix<int>, G: Matrix<int>, L: Matrix<int>, C: Matrix<int>, f: seq<int>,
                     n: nat, e: nat, cur: seq<int>, volt: seq<int>, pot: seq<int>,
                     dcur: seq<int>, dvolt: seq<int>, dpot: seq<int>)
    requires Shaped(A, R, G, L, C, f, n, e)
    requires |cur| == e && |volt| == e && |pot| == n - 1 && |dcur| == e && |dvolt| == e && |dpot| == n - 1
    requires Solves(TableauMatrix(A, R, G, L, C, f, n, e), cur + volt + pot, dcur + dvolt + dpot)
    ensures CurrentLaw(A, n - 1, e, cur)
  {
    var t := TableauMatrix(A, R, G, L, C, f, n, e);
    var x, dx := cur + volt + pot, dcur + dvolt + dpot;
    forall k | 0 <= k < n - 1 ensures Dot(A[k], cur) == 0 {
      KclResidual(A, R, G, L, C, f, n, e, cur, volt, pot, x, dx, k);
      assert Dot(t.stiffness[k], x) + Dot(t.damping[k], dx) == t.source[k];
    }
  }

  /** The KVL rows of a solution say v = Aᵀ u. */
  lemma SolvesVoltageLaw(A: Matrix<int>, R: Matrix<int>, G: Matrix<int>, L: Matrix<int>, C: Matrix<int>, f: seq<int>,
                     n: nat, e: nat, cur: seq<int>, volt: seq<int>, pot: seq<int>,
                     dcur: seq<int>, dvolt: seq<int>, dpot: seq<int>)
    requires Shaped(A, R, G, L, C, f, n, e)
    requires |cur| == e && |volt| == e && |pot| == n - 1 && |dcur| == e && |dvolt| == e && |dpot| == n - 1
    requires Solves(TableauMatrix(A, R, G, L, C, f, n, e), cur + volt + pot, dcur + dvolt + dpot)
    ensures VoltageLaw(A, n - 1, e, volt, pot)
  {
    var t := TableauMatrix(A, R, G, L, C, f, n, e);
    var x, dx := cur + volt + pot, dcur + dvolt + dpot;
    forall k | 0 <= k < e ensures volt[k] == Dot(Transpose(A, n - 1, e)[k], pot) {
      KvlResidual(A, R, G, L, C, f, n, e, cur, volt, pot, x, dx, k);
      assert Dot(t.stiffness[n - 1 + k], x) + Dot(t.damping[n - 1 + k], dx) == t.source[n - 1 + k];
    }
  }

  /** Branch-law row k of a solution is the branch law of edge k. */
  lemma BranchRowHolds(A: Matrix<int>, R: Matrix<int>, G: Matrix<int>, L: Matrix<int>, C: Matrix<int>, f: seq<int>,
                       n: nat, e: nat, cur: seq<int>, volt: seq<int>, pot: seq<int>,
                       dcur: seq<int>, dvolt: seq<int>, dpot: seq<int>, x: seq<int>, dx: seq<int>, k: nat)
    requires Shaped(A, R, G, L, C, f, n, e)
    requires |cur| == e && |volt| == e && |pot| == n - 1 && |dcur| == e && |dvolt| == e && |dpot| == n - 1 && k < e
    requires x == cur + volt + pot && dx == dcur + dvolt + dpot
    requires Solves(TableauMatrix(A, R, G, L, C, f, n, e), x, dx)
    ensures Dot(R[k], cur) + Dot(G[k], volt) + Dot(L[k], dcur) + Dot(C[k], dvolt) == f[k]
  {
    var t := TableauMatrix(A, R, G, L, C, f, n, e);
    var i := n - 1 + e + k;
    assert Dot(t.stiffness[i], x) + Dot(t.damping[i], dx) == t.source[i];
    BranchResidual(A, R, G, L, C, f, n, e, cur, volt, pot, dcur, dvolt, dpot, x, dx, k);
  }

  /** The branch-law rows of a solution say R i + G v + L di/dt + C dv/dt = f. */
  lemma SolvesBranchLaw(A: Matrix<int>, R: Matrix<int>, G: Matrix<int>, L: Matrix<int>, C: Matrix<int>, f: seq<int>,
                     n: nat, e: nat, cur: seq<int>, volt: seq<int>, pot: seq<int>,
                     dcur: seq<int>, dvolt: seq<int>, dpot: seq<int>)
    requires Shaped(A, R, G, L, C, f, n, e)
    requires |cur| == e && |volt| == e && |pot| == n - 1 && |dcur| == e && |dvolt| == e && |dpot| == n - 1
    requires Solves(TableauMatrix(A, R, G, L, C, f, n, e), cur + volt + pot, dcur + dvolt + dpot)
    ensures BranchLaw(R, G, L, C, f, e, cur, volt, dcur, dvolt)
  {
    var t := TableauMatrix(A, R, G, L, C, f, n, e);
    var x, dx := cur + volt + pot, dcur + dvolt + dpot;
    forall k | 0 <= k < e ensures Dot(R[k], cur) + Dot(G[k], volt) + Dot(L[k], dcur) + Dot(C[k], dvolt) == f[k] {
      BranchRowHolds(A, R, G, L, C, f, n, e, cur, volt, pot, dcur, dvolt, dpot, x, dx, k);
    }
  }

  /** Currents, voltages and potentials that obey both Kirchhoff laws and the
      branch laws solve the assembled system. */
  lemma TableauComplete(A: Matrix<int>, R: Matrix<int>, G: Matrix<int>, L: Matrix<int>, C: Matrix<int>, f: seq<int>,
                        n: nat, e: nat, cur: seq<int>, volt: seq<int>, pot: seq<int>,
                        dcur: seq<int>, dvolt: seq<int>, dpot: seq<int>)
    requires Shaped(A, R, G, L, C, f, n, e)
    requires |cur| == e && |volt| == e && |pot| == n - 1 && |dcur| == e && |dvolt| == e && |dpot| == n - 1
    requires CurrentLaw(A, n - 1, e, cur) && VoltageLaw(A, n - 1, e, volt, pot)
    requires BranchLaw(R, G, L, C, f, e, cur, volt, dcur, dvolt)
    ensures Solves(TableauMatrix(A, R, G, L, C, f, n, e), cur + volt + pot, dcur + dvolt + dpot)
  {
    var nn := n - 1;
    var t := TableauMatrix(A, R, G, L, C, f, n, e);
    var x, dx := cur + volt + pot, dcur + dvolt + dpot;
    forall i | 0 <= i < |t.source|
      ensures Dot(t.stiffness[i], x) + Dot(t.damping[i], dx) == t.source[i]
    {
      if i < nn {
        KclRowSolved(A, R, G, L, C, f, n, e, cur, volt, pot, x, dx, i);
      } else if i < nn + e {
        KvlRowSolved(A, R, G, L, C, f, n, e, cur, volt, pot, x, dx, i - nn);
      } else {
        BranchRowSolved(A, R, G, L, C, f, n, e, cur, volt, pot, dcur, dvolt, dpot, x, dx, i - nn - e);
      }
    }
  }

  /** A KCL row of the assembled system holds when the currents obey KCL. */
  lemma KclRowSolved(A: Matrix<int>, R: Matrix<int>, G: Matrix<int>, L: Matrix<int>, C: Matrix<int>, f: seq<int>,
                     n: nat, e: nat, cur: seq<int>, volt: seq<int>, pot: seq<int>, x: seq<int>, dx: seq<int>, k: nat)
    requires Shaped(A, R, G, L, C, f, n, e)
    requires |cur| == e && |volt| == e && |pot| == n - 1 && x == cur + volt + pot && |dx| == 2 * e + n - 1 && k < n - 1
    requires CurrentLaw(A, n - 1, e, cur)
    ensures var t := TableauMatrix(A, R, G, L, C, f, n, e);
            Dot(t.stiffness[k], x) + Dot(t.damping[k], dx) == t.source[k]
  {
    assert Dot(A[k], cur) == 0;
    KclResidual(A, R, G, L, C, f, n, e, cur, volt, pot, x, dx, k);
  }

  /** A KVL row of the assembled system holds when the voltages obey KVL. */
  lemma KvlRowSolved(A: Matrix<int>, R: Matrix<int>, G: Matrix<int>, L: Matrix<int>, C: Matrix<int>, f: seq<int>,
                     n: nat, e: nat, cur: seq<int>, volt: seq<int>, pot: seq<int>, x: seq<int>, dx: seq<int>, k: nat)
    requires Shaped(A, R, G, L, C, f, n, e)
    requires |cur| == e && |volt| == e && |pot| == n - 1 && x == cur + volt + pot && |dx| == 2 * e + n - 1 && k < e
    requires VoltageLaw(A, n - 1, e, volt, pot)
    ensures var t := TableauMatrix(A, R, G, L, C, f, n, e);
            Dot(t.stiffness[n - 1 + k], x) + Dot(t.damping[n - 1 + k], dx) == t.source[n - 1 + k]
  {
    assert volt[k] == Dot(Transpose(A, n - 1, e)[k], pot);
    KvlResidual(A, R, G, L, C, f, n, e, cur, volt, pot, x, dx, k);
  }

  /** A branch-law row of the assembled system holds when edge k obeys its
      branch law. */
  lemma BranchRowSolved(A: Matrix<int>, R: Matrix<int>, G: Matrix<int>, L: Matrix<int>, C: Matrix<int>, f: seq<int>,
                        n: nat, e: nat, cur: seq<int>, volt: seq<int>, pot: seq<int>,
                        dcur: seq<int>, dvolt: seq<int>, dpot: seq<int>, x: seq<int>, dx: seq<int>, k: nat)
    requires Shaped(A, R, G, L, C, f, n, e)
    requires |cur| == e && |volt| == e && |pot| == n - 1 && |dcur| == e && |dvolt| == e && |dpot| == n - 1 && k < e
    requires x == cur + volt + pot && dx == dcur + dvolt + dpot
    requires BranchLaw(R, G, L, C, f, e, cur, volt, dcur, dvolt)
    ensures var t := TableauMatrix(A, R, G, L, C, f, n, e);
            Dot(t.stiffness[n - 1 + e + k], x) + Dot(t.damping[n - 1 + e + k], dx) == t.source[n - 1 + e + k]
  {
    assert Dot(R[k], cur) + Dot(G[k], volt) + Dot(L[k], dcur) + Dot(C[k], dvolt) == f[k];
    BranchResidual(A, R, G, L, C, f, n, e, cur, volt, pot, dcur, dvolt, dpot, x, dx, k);
  }

  /** The assembled system holds for (currents, voltages, potentials) and
      their derivatives exactly when the currents obey Kirchhoff's current
      law, the voltages obey Kirchhoff's voltage law, and every edge obeys its
      branch law. */
  lemma TableauEquations(A: Matrix<int>, R: Matrix<int>, G: Matrix<int>, L: Matrix<int>, C: Matrix<int>, f: seq<int>,
                         n: nat, e: nat, cur: seq<int>, volt: seq<int>, pot: seq<int>,
                         dcur: seq<int>, dvolt: seq<int>, dpot: seq<int>)
    requires Shaped(A, R, G, L, C, f, n, e)
    requires |cur| == e && |volt| == e && |pot| == n - 1 && |dcur| == e && |dvolt| == e && |dpot| == n - 1
    ensures Solves(TableauMatrix(A, R, G, L, C, f, n, e), cur + volt + pot, dcur + dvolt + dpot) <==>
            CurrentLaw(A, n - 1, e, cur) && VoltageLaw(A, n - 1, e, volt, pot) &&
            BranchLaw(R, G, L, C, f, e, cur, volt, dcur, dvolt)
  {
    if Solves(TableauMatrix(A, R, G, L, C, f, n, e), cur + volt + pot, dcur + dvolt + dpot) {
      SolvesCurrentLaw(A, R, G, L, C, f, n, e, cur, volt, pot, dcur, dvolt, dpot);
      SolvesVoltageLaw(A, R, G, L, C, f, n, e, cur, volt, pot, dcur, dvolt, dpot);
      SolvesBranchLaw(A, R, G, L, C, f, n, e, cur, volt, pot, dcur, dvolt, dpot);
    }
    if CurrentLaw(A, n - 1, e, cur) && VoltageLaw(A, n - 1, e, volt, pot) && BranchLaw(R, G, L, C, f, e, cur, volt, dcur, dvolt) {
      TableauComplete(A, R, G, L, C, f, n, e, cur, volt, pot, dcur, dvolt, dpot);
    }
  }
}
