/** elmer_format_matrix: Elmer wants the row of every `v_component(n)`
    unknown to be empty, so the text system's rows are exchanged pairwise,
    the k-th zero row with the k-th component voltage row, identically in
    the stiffness matrix, the damping matrix and the source column. */
module ElmerFormat {
  import opened Seqs
  import opened Matrices
  import opened SparseTableau

  /** Exchanges entries a and b: two rows of a matrix, or two entries of a
      column (numpy's `x[[a, b]] = x[[b, a]]`, whose right side is copied
      before the assignment). */
  function Swap<T>(s: seq<T>, a: nat, b: nat): (r: seq<T>)
    requires a < |s| && b < |s|
    ensures |r| == |s| && r[a] == s[b] && r[b] == s[a]
  {
    s[a := s[b]][b := s[a]]
  }

  /** Every entry is an index below `bound`. */
  ghost predicate Below(xs: seq<nat>, bound: nat)
  {
    forall k :: 0 <= k < |xs| ==> xs[k] < bound
  }

  function Min(a: nat, b: nat): nat
  {
    if a <= b then a else b
  }

  /** The first k exchanges of zip(zero_rows, vcomp_rows), in that order. */
  function SwapPrefix<T>(s: seq<T>, zs: seq<nat>, vs: seq<nat>, k: nat): (r: seq<T>)
    requires k <= |zs| && k <= |vs| && Below(zs, |s|) && Below(vs, |s|)
    ensures |r| == |s|
    decreases k
  {
    if k == 0 then s else Swap(SwapPrefix(s, zs, vs, k - 1), zs[k - 1], vs[k - 1])
  }

  function Identity(n: nat): (r: seq<nat>)
    ensures |r| == n && forall i :: 0 <= i < n ==> r[i] == i
  {
    seq(n, i => i)
  }

  /** Row i of the result is row RowOrder(..)[i] of the input: the exchanges
      applied to the row numbers themselves. */
  function RowOrder(rows: nat, zs: seq<nat>, vs: seq<nat>): (order: seq<nat>)
    requires Below(zs, rows) && Below(vs, rows)
  {
    SwapPrefix(Identity(rows), zs, vs, Min(|zs|, |vs|))
  }

  /** The three arrays elmer_format_matrix returns, as a tableau: the
      exchanged stiffness matrix (Elmer's B), damping matrix (Elmer's A) and
      source column. */
  function ElmerFormatOf(t: Tableau<string>, vcompRows: seq<nat>, zeroRows: seq<nat>): (r: Tableau<string>)
    requires |t.stiffness| == |t.source| && |t.damping| == |t.source|
    requires Below(zeroRows, |t.source|) && Below(vcompRows, |t.source|)
  {
    var m := Min(|zeroRows|, |vcompRows|);
    Tableau(SwapPrefix(t.stiffness, zeroRows, vcompRows, m), SwapPrefix(t.damping, zeroRows, vcompRows, m),
            SwapPrefix(t.source, zeroRows, vcompRows, m))
  }

  /** elmer_format_matrix: copies of the three arrays, then one exchange of
      rows per pair of zip(zero_rows, vcomp_rows). The result is returned in
      the source's order: damping, stiffness, source. Each output row is the
      same input equation in all three arrays. */
  method ElmerFormatMatrix(M1s: Matrix<string>, M2s: Matrix<string>, bs: seq<string>,
                           vcompRows: seq<nat>, zeroRows: seq<nat>)
    returns (elmerA: Matrix<string>, elmerB: Matrix<string>, elmerSource: seq<string>)
    requires |M1s| == |bs| && |M2s| == |bs| && Below(zeroRows, |bs|) && Below(vcompRows, |bs|)
    ensures Tableau(elmerB, elmerA, elmerSource) == ElmerFormatOf(Tableau(M1s, M2s, bs), vcompRows, zeroRows)
    ensures var order := RowOrder(|bs|, zeroRows, vcompRows);
            |order| == |bs| && |elmerB| == |bs| && |elmerA| == |bs| && |elmerSource| == |bs| &&
            forall i :: 0 <= i < |bs| ==>
              order[i] < |bs| && elmerB[i] == M1s[order[i]] && elmerA[i] == M2s[order[i]] && elmerSource[i] == bs[order[i]]
  {
    elmerB := M1s;
    elmerSource := bs;
    elmerA := M2s;
    var m := Min(|zeroRows|, |vcompRows|);
    var k := 0;
    while k < m
      invariant 0 <= k <= m
      invariant elmerB == SwapPrefix(M1s, zeroRows, vcompRows, k)
      invariant elmerA == SwapPrefix(M2s, zeroRows, vcompRows, k)
      invariant elmerSource == SwapPrefix(bs, zeroRows, vcompRows, k)
    {
      var zrow, vcomprow := zeroRows[k], vcompRows[k];
      elmerB := elmerB[zrow := elmerB[vcomprow]][vcomprow := elmerB[zrow]];
      elmerA := elmerA[zrow := elmerA[vcomprow]][vcomprow := elmerA[zrow]];
      elmerSource := elmerSource[zrow := elmerSource[vcomprow]][vcomprow := elmerSource[zrow]];
      k := k + 1;
    }
    assert RowOrder(|bs|, zeroRows, vcompRows) == SwapPrefix(Identity(|bs|), zeroRows, vcompRows, m);
    forall i | 0 <= i < |bs|
      ensures var order := RowOrder(|bs|, zeroRows, vcompRows);
              order[i] < |bs| && elmerB[i] == M1s[order[i]] && elmerA[i] == M2s[order[i]] && elmerSource[i] == bs[order[i]]
    {
      FollowsOrder(M1s, zeroRows, vcompRows, m, i);
      FollowsOrder(M2s, zeroRows, vcompRows, m, i);
      FollowsOrder(bs, zeroRows, vcompRows, m, i);
    }
  }

  /** Any sequence the exchanges are applied to is rearranged the way the
      row numbers are. */
  lemma {:induction false} FollowsOrder<T>(s: seq<T>, zs: seq<nat>, vs: seq<nat>, k: nat, i: nat)
    requires k <= |zs| && k <= |vs| && Below(zs, |s|) && Below(vs, |s|) && i < |s|
    ensures var o := SwapPrefix(Identity(|s|), zs, vs, k)[i];
            o < |s| && SwapPrefix(s, zs, vs, k)[i] == s[o]
    decreases k
  {
    if k > 0 {
      var a, b := zs[k - 1], vs[k - 1];
      var j := if i == b then a else if i == a then b else i;
      FollowsOrder(s, zs, vs, k - 1, j);
    }
  }

  /** The row order is a permutation: every row number occurs in it exactly
      once, so no equation is lost or duplicated. */
  lemma {:induction false} RowOrderPermutes(rows: nat, zs: seq<nat>, vs: seq<nat>, k: nat)
    requires k <= |zs| && k <= |vs| && Below(zs, rows) && Below(vs, rows)
    ensures multiset(SwapPrefix(Identity(rows), zs, vs, k)) == multiset(Identity(rows))
    decreases k
  {
    if k > 0 {
      RowOrderPermutes(rows, zs, vs, k - 1);
      SwapMultiset(SwapPrefix(Identity(rows), zs, vs, k - 1), zs[k - 1], vs[k - 1]);
    }
  }

  lemma SwapMultiset<T>(s: seq<T>, a: nat, b: nat)
    requires a < |s| && b < |s|
    ensures multiset(Swap(s, a, b)) == multiset(s)
  {
    if a != b {
      var s1 := s[a := s[b]];
      assert multiset(s1) == multiset(s) - multiset{s[a]} + multiset{s[b]};
      assert s1[b] == s[b];
    }
  }

  /** A row no pair of the first k names is where it was (exchanges
      lo .. k-1 leave it alone). */
  lemma {:induction false} Untouched<T>(s: seq<T>, zs: seq<nat>, vs: seq<nat>, lo: nat, k: nat, i: nat)
    requires lo <= k <= |zs| && k <= |vs| && Below(zs, |s|) && Below(vs, |s|) && i < |s|
    requires forall u :: lo <= u < k ==> zs[u] != i && vs[u] != i
    ensures SwapPrefix(s, zs, vs, k)[i] == SwapPrefix(s, zs, vs, lo)[i]
    decreases k
  {
    if lo < k {
      Untouched(s, zs, vs, lo, k - 1, i);
    }
  }

  /** The pairing the function relies on: both lists ascending, and each
      voltage row no later than its zero row. */
  ghost predicate Aligned(zs: seq<nat>, vs: seq<nat>)
  {
    StrictlyIncreasing(zs) && StrictlyIncreasing(vs) &&
    forall t :: 0 <= t < |zs| && t < |vs| ==> vs[t] <= zs[t]
  }

  /** When the lists are aligned, the t-th voltage row ends up holding the
      t-th zero row: later exchanges never touch it again, and earlier ones
      never moved that zero row. */
  lemma VoltageRowReceivesZeroRow<T>(s: seq<T>, zs: seq<nat>, vs: seq<nat>, t: nat)
    requires Below(zs, |s|) && Below(vs, |s|) && Aligned(zs, vs) && t < Min(|zs|, |vs|)
    ensures SwapPrefix(s, zs, vs, Min(|zs|, |vs|))[vs[t]] == s[zs[t]]
  {
    var m := Min(|zs|, |vs|);
    AlignedApart(zs, vs, m, t);
    ExchangeSurvives(s, zs, vs, m, t);
  }

  /** The t-th exchange moves row zs[t] to vs[t]; when no earlier pair
      touched zs[t] and no later pair touches vs[t], that is where it stays. */
  lemma ExchangeSurvives<T>(s: seq<T>, zs: seq<nat>, vs: seq<nat>, m: nat, t: nat)
    requires Below(zs, |s|) && Below(vs, |s|) && t < m <= |zs| && m <= |vs|
    requires forall u :: 0 <= u < t ==> zs[u] != zs[t] && vs[u] != zs[t]
    requires forall u :: t + 1 <= u < m ==> zs[u] != vs[t] && vs[u] != vs[t]
    ensures SwapPrefix(s, zs, vs, m)[vs[t]] == s[zs[t]]
  {
    Untouched(s, zs, vs, 0, t, zs[t]);
    assert SwapPrefix(s, zs, vs, t + 1) == Swap(SwapPrefix(s, zs, vs, t), zs[t], vs[t]);
    Untouched(s, zs, vs, t + 1, m, vs[t]);
  }

  /** In aligned lists the t-th zero row is named by no earlier pair, and
      the t-th voltage row by no later pair. */
  lemma AlignedApart(zs: seq<nat>, vs: seq<nat>, m: nat, t: nat)
    requires Aligned(zs, vs) && t < m <= |zs| && m <= |vs|
    ensures forall u :: 0 <= u < t ==> zs[u] != zs[t] && vs[u] != zs[t]
    ensures forall u :: t + 1 <= u < m ==> zs[u] != vs[t] && vs[u] != vs[t]
  {
    forall u | 0 <= u < t
      ensures zs[u] != zs[t] && vs[u] != zs[t]
    {
      assert vs[u] <= zs[u] < zs[t];
    }
    forall u | t + 1 <= u < m
      ensures zs[u] != vs[t] && vs[u] != vs[t]
    {
      assert vs[t] <= zs[t] < zs[u];
      assert vs[t] < vs[u];
    }
  }
}
