/** Partition of a component list by component class: one ascending index
    list per class, and check_elmer_instance, which tells whether a circuit
    couples to Elmer at all. */
module Partition {
  import opened Seqs
  import opened Netlist

  /** The six index lists the builder keeps, one per component class. */
  datatype Class = Resistors | VoltageSources | CurrentSources | Inductors | Capacitors | ElmerComponents

  predicate IsA(c: Component, t: Class)
  {
    match t
    case Resistors => c.kind.Resistor?
    case VoltageSources => c.kind.VoltageSource?
    case CurrentSources => c.kind.CurrentSource?
    case Inductors => c.kind.Inductor?
    case Capacitors => c.kind.Capacitor?
    case ElmerComponents => c.kind.ElmerComponent?
  }

  function Mask(cs: seq<Component>, t: Class): (bs: seq<bool>)
    ensures |bs| == |cs| && forall i :: 0 <= i < |cs| ==> bs[i] == IsA(cs[i], t)
  {
    seq(|cs|, i requires 0 <= i < |cs| => IsA(cs[i], t))
  }

  /** The positions, in component order, of the components of class `t`. */
  function IndicesOf(cs: seq<Component>, t: Class): seq<nat>
  {
    Positions(Mask(cs, t))
  }

  /** Each component belongs to exactly one class. */
  lemma {:induction false} ExactlyOneClass(c: Component, t: Class, u: Class)
    requires IsA(c, t) && IsA(c, u)
    ensures t == u
  {
    match t
    case Resistors =>
    case VoltageSources =>
    case CurrentSources =>
    case Inductors =>
    case Capacitors =>
    case ElmerComponents =>
  }

  /** Index `i` is in the list of class `t` exactly when component `i` is of
      that class, and the list is strictly ascending. */
  lemma {:induction false} IndicesOfSpec(cs: seq<Component>, t: Class)
    ensures forall i: nat :: i in IndicesOf(cs, t) <==> i < |cs| && IsA(cs[i], t)
    ensures StrictlyIncreasing(IndicesOf(cs, t))
    ensures forall k :: 0 <= k < |IndicesOf(cs, t)| ==> IndicesOf(cs, t)[k] < |cs|
  {
    PositionsSpec(Mask(cs, t));
  }

  /** The lists of two different classes share no index. */
  lemma IndicesDisjoint(cs: seq<Component>, t: Class, u: Class)
    requires t != u
    ensures forall i: nat :: !(i in IndicesOf(cs, t) && i in IndicesOf(cs, u))
  {
    IndicesOfSpec(cs, t);
    IndicesOfSpec(cs, u);
    forall i: nat | i in IndicesOf(cs, t) && i in IndicesOf(cs, u)
      ensures false
    {
      ExactlyOneClass(cs[i], t, u);
    }
  }

  /** One more component extends each index list by at most its own index. */
  lemma IndicesOfSnoc(cs: seq<Component>, k: nat, t: Class)
    requires k < |cs|
    ensures IndicesOf(cs[..k + 1], t) == IndicesOf(cs[..k], t) + (if IsA(cs[k], t) then [k] else [])
  {
    assert Mask(cs[..k + 1], t) == Mask(cs[..k], t) + [IsA(cs[k], t)];
    PositionsSnoc(Mask(cs[..k], t), IsA(cs[k], t));
  }

  /** The six lists together hold as many indices as there are edges
      (get_num_edges): every component is listed once, in its own class. */
  lemma ListsCoverEdges(cs: seq<Component>)
    ensures |IndicesOf(cs, Resistors)| + |IndicesOf(cs, VoltageSources)| + |IndicesOf(cs, CurrentSources)| +
            |IndicesOf(cs, Inductors)| + |IndicesOf(cs, Capacitors)| + |IndicesOf(cs, ElmerComponents)| == NumEdges(cs)
  {
    AllListed(cs);
  }

  /** How many indices the six lists hold together. */
  ghost function ListedCount(cs: seq<Component>): nat
  {
    |IndicesOf(cs, Resistors)| + |IndicesOf(cs, VoltageSources)| + |IndicesOf(cs, CurrentSources)| +
    |IndicesOf(cs, Inductors)| + |IndicesOf(cs, Capacitors)| + |IndicesOf(cs, ElmerComponents)|
  }

  lemma {:induction false} AllListed(cs: seq<Component>)
    ensures ListedCount(cs) == |cs|
    decreases |cs|
  {
    if cs == [] {
      NoneListed(cs);
    } else {
      var k := |cs| - 1;
      AllListed(cs[..k]);
      ListedStep(cs, k);
      assert cs[..k + 1] == cs;
    }
  }

  lemma NoneListed(cs: seq<Component>)
    requires cs == []
    ensures ListedCount(cs) == 0
  {
    forall t: Class ensures IndicesOf(cs, t) == [] {
      assert Mask(cs, t) == [];
    }
  }

  /** One more component adds exactly one index, to the list of its class. */
  lemma ListedStep(cs: seq<Component>, k: nat)
    requires k < |cs|
    ensures ListedCount(cs[..k + 1]) == ListedCount(cs[..k]) + 1
  {
    CountStep(cs, k, Resistors);
    CountStep(cs, k, VoltageSources);
    CountStep(cs, k, CurrentSources);
    CountStep(cs, k, Inductors);
    CountStep(cs, k, Capacitors);
    CountStep(cs, k, ElmerComponents);
    OneClass(cs[k]);
  }

  lemma CountStep(cs: seq<Component>, k: nat, t: Class)
    requires k < |cs|
    ensures |IndicesOf(cs[..k + 1], t)| == |IndicesOf(cs[..k], t)| + if IsA(cs[k], t) then 1 else 0
  {
    IndicesOfSnoc(cs, k, t);
  }

  lemma OneClass(c: Component)
    ensures (if IsA(c, Resistors) then 1 else 0) + (if IsA(c, VoltageSources) then 1 else 0) +
            (if IsA(c, CurrentSources) then 1 else 0) + (if IsA(c, Inductors) then 1 else 0) +
            (if IsA(c, Capacitors) then 1 else 0) + (if IsA(c, ElmerComponents) then 1 else 0) == 1
  {
  }

  /** get_indices: one pass over the components, appending each index to the
      list of its class. */
  method GetIndices(cs: seq<Component>)
    returns (indr: seq<nat>, indv: seq<nat>, indi: seq<nat>, indInd: seq<nat>, indcap: seq<nat>, indcelm: seq<nat>)
    ensures indr == IndicesOf(cs, Resistors) && indv == IndicesOf(cs, VoltageSources)
    ensures indi == IndicesOf(cs, CurrentSources) && indInd == IndicesOf(cs, Inductors)
    ensures indcap == IndicesOf(cs, Capacitors) && indcelm == IndicesOf(cs, ElmerComponents)
  {
    indr, indv, indi, indInd, indcap, indcelm := [], [], [], [], [], [];
    var k := 0;
    while k < |cs|
      invariant 0 <= k <= |cs|
      invariant indr == IndicesOf(cs[..k], Resistors) && indv == IndicesOf(cs[..k], VoltageSources)
      invariant indi == IndicesOf(cs[..k], CurrentSources) && indInd == IndicesOf(cs[..k], Inductors)
      invariant indcap == IndicesOf(cs[..k], Capacitors) && indcelm == IndicesOf(cs[..k], ElmerComponents)
    {
      IndicesOfSnoc(cs, k, Resistors);
      IndicesOfSnoc(cs, k, VoltageSources);
      IndicesOfSnoc(cs, k, CurrentSources);
      IndicesOfSnoc(cs, k, Inductors);
      IndicesOfSnoc(cs, k, Capacitors);
      IndicesOfSnoc(cs, k, ElmerComponents);
      var c := cs[k];
      if c.kind.Resistor? { indr := indr + [k]; }
      if c.kind.VoltageSource? { indv := indv + [k]; }
      if c.kind.CurrentSource? { indi := indi + [k]; }
      if c.kind.Inductor? { indInd := indInd + [k]; }
      if c.kind.Capacitor? { indcap := indcap + [k]; }
      if c.kind.ElmerComponent? { indcelm := indcelm + [k]; }
      k := k + 1;
    }
    assert cs[..k] == cs;
  }

  /** Raised when a circuit has no Elmer component. */
  datatype Error = ElmerComponentsNotFound

  datatype Outcome = Pass | Fail(error: Error)

  /** Python's `any` over "is an Elmer component": true exactly when some
      component is one. */
  function AnyElmerComponent(cs: seq<Component>): (r: bool)
    ensures r <==> exists i :: 0 <= i < |cs| && cs[i].kind.ElmerComponent?
  {
    if cs == [] then false
    else
      assert forall i :: 1 <= i < |cs| ==> cs[1..][i - 1] == cs[i];
      assert (exists i :: 0 <= i < |cs| && cs[i].kind.ElmerComponent?) ==>
               cs[0].kind.ElmerComponent? || exists i :: 0 <= i < |cs[1..]| && cs[1..][i].kind.ElmerComponent?;
      cs[0].kind.ElmerComponent? || AnyElmerComponent(cs[1..])
  }

  /** check_elmer_instance: fails with ElmerComponentsNotFound exactly when no
      component is an Elmer component, i.e. when the Elmer index list is empty. */
  function CheckElmerInstance(cs: seq<Component>): (r: Outcome)
    ensures r.Fail? <==> forall i :: 0 <= i < |cs| ==> !cs[i].kind.ElmerComponent?
    ensures r.Fail? <==> IndicesOf(cs, ElmerComponents) == []
    ensures r.Fail? ==> r.error == ElmerComponentsNotFound
  {
    IndicesOfSpec(cs, ElmerComponents);
    if !AnyElmerComponent(cs) then
      PositionsNone(Mask(cs, ElmerComponents));
      Fail(ElmerComponentsNotFound)
    else
      Pass
  }
}
