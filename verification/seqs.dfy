/** Index lists built by appending positions in ascending order, the way the
    circuit builder collects component indices and row indices in loops. */
module Seqs {

  /** The positions k (ascending) at which `bs[k]` holds. Defined on the last
      element so that a loop over a prefix extends it by at most one entry. */
  function Positions(bs: seq<bool>): seq<nat>
    decreases |bs|
  {
    if bs == [] then []
    else Positions(bs[..|bs| - 1]) + (if bs[|bs| - 1] then [|bs| - 1] else [])
  }

  /** Whether `i` is one of the listed indices, read from the last entry
      back, the way a loop over the list meets them in reverse. */
  function Listed(ind: seq<nat>, i: int): (r: bool)
    ensures r ==> exists k :: 0 <= k < |ind| && ind[k] == i
    decreases |ind|
  {
    |ind| > 0 && (ind[|ind| - 1] == i || Listed(ind[..|ind| - 1], i))
  }

  /** `Listed` is membership. */
  lemma {:induction false} ListedIsIn(ind: seq<nat>, i: int)
    ensures Listed(ind, i) <==> i in ind
    decreases |ind|
  {
    if |ind| > 0 {
      ListedIsIn(ind[..|ind| - 1], i);
      assert ind == ind[..|ind| - 1] + [ind[|ind| - 1]];
    }
  }

  /** Number of true entries. */
  function CountTrue(bs: seq<bool>): nat
    decreases |bs|
  {
    if bs == [] then 0 else CountTrue(bs[..|bs| - 1]) + (if bs[|bs| - 1] then 1 else 0)
  }

  ghost predicate StrictlyIncreasing(s: seq<nat>)
  {
    forall a, b :: 0 <= a < b < |s| ==> s[a] < s[b]
  }

  ghost predicate NoDuplicates<T>(s: seq<T>)
  {
    forall a, b :: 0 <= a < b < |s| ==> s[a] != s[b]
  }

  /** Adds `off` to every entry. */
  function Shift(s: seq<nat>, off: nat): (r: seq<nat>)
    ensures |r| == |s|
    ensures forall k :: 0 <= k < |s| ==> r[k] == s[k] + off
  {
    seq(|s|, k requires 0 <= k < |s| => s[k] + off)
  }

  /** A shifted list holds exactly the shifted entries, and stays ascending. */
  lemma ShiftMembers(s: seq<nat>, off: nat)
    ensures forall r: nat :: r in Shift(s, off) <==> off <= r && r - off in s
    ensures StrictlyIncreasing(s) ==> StrictlyIncreasing(Shift(s, off))
  {
    var t := Shift(s, off);
    forall r: nat | off <= r && r - off in s
      ensures r in t
    {
      var k :| 0 <= k < |s| && s[k] == r - off;
      assert t[k] == r;
    }
  }

  /** Membership in `Positions`, its order and its length. */
  lemma {:induction false} PositionsSpec(bs: seq<bool>)
    ensures forall k: nat :: k in Positions(bs) <==> k < |bs| && bs[k]
    ensures StrictlyIncreasing(Positions(bs))
    ensures forall t :: 0 <= t < |Positions(bs)| ==> Positions(bs)[t] < |bs|
    ensures |Positions(bs)| == CountTrue(bs)
    decreases |bs|
  {
    if bs != [] {
      var init := bs[..|bs| - 1];
      PositionsSpec(init);
      assert forall k :: 0 <= k < |init| ==> init[k] == bs[k];
    }
  }

  /** Extending a mask by one entry extends its positions by at most one entry. */
  lemma PositionsSnoc(bs: seq<bool>, b: bool)
    ensures Positions(bs + [b]) == Positions(bs) + (if b then [|bs|] else [])
  {
    assert (bs + [b])[..|bs|] == bs;
  }

  /** Positions of a concatenation: those of the left part, then those of the
      right part moved past the left part. */
  lemma {:induction false} PositionsAppend(xs: seq<bool>, ys: seq<bool>)
    ensures Positions(xs + ys) == Positions(xs) + Shift(Positions(ys), |xs|)
    decreases |ys|
  {
    if ys == [] {
      assert xs + ys == xs;
    } else {
      var init := ys[..|ys| - 1];
      var last := ys[|ys| - 1];
      assert xs + ys == (xs + init) + [last];
      assert ys == init + [last];
      PositionsAppend(xs, init);
      PositionsSnoc(xs + init, last);
      PositionsSnoc(init, last);
    }
  }

  /** A mask with no true entry has no positions. */
  lemma {:induction false} PositionsNone(bs: seq<bool>)
    requires forall k :: 0 <= k < |bs| ==> !bs[k]
    ensures Positions(bs) == []
    decreases |bs|
  {
    if bs != [] {
      PositionsNone(bs[..|bs| - 1]);
    }
  }

  /** A duplicate-free sequence is as long as the set of its entries is large. */
  lemma {:induction false} DistinctCard<T>(s: seq<T>)
    requires NoDuplicates(s)
    ensures |set x | x in s| == |s|
    decreases |s|
  {
    if s != [] {
      var init := s[..|s| - 1];
      var last := s[|s| - 1];
      assert NoDuplicates(init);
      DistinctCard(init);
      assert (set x | x in s) == (set x | x in init) + {last};
      assert last !in (set x | x in init);
    }
  }

  /** At most every entry is true, and all of them are exactly when the
      count reaches the length. */
  lemma {:induction false} CountTrueAll(bs: seq<bool>)
    ensures CountTrue(bs) <= |bs|
    ensures CountTrue(bs) == |bs| <==> forall k :: 0 <= k < |bs| ==> bs[k]
    decreases |bs|
  {
    if bs != [] {
      var init := bs[..|bs| - 1];
      CountTrueAll(init);
      assert forall k :: 0 <= k < |init| ==> init[k] == bs[k];
    }
  }
}
