/** The netlist: two-terminal components and the graph quantities derived
    from an ordered component list (number of nodes, number of edges, and
    the distinct pins in order of first appearance). */
module Netlist {
  import opened Seqs

  /** The six component classes of the circuit builder. An `ElmerComponent`
      (a finite-element coil) carries its Elmer component number. */
  datatype Kind =
    | Resistor
    | VoltageSource
    | CurrentSource
    | Inductor
    | Capacitor
    | ElmerComponent(number: int)

  /** A component: its class, its name, its positive pin `pin1`, its
      negative pin `pin2` and its value in SI units (ignored for coils). */
  datatype Component = Component(kind: Kind, name: string, pin1: int, pin2: int, value: int)

  /** Every pin of the list lies in 1..n, so that `pin - 1` is a row of an
      n-row array. */
  ghost predicate PinsInRange(cs: seq<Component>, n: nat)
  {
    forall i :: 0 <= i < |cs| ==> 1 <= cs[i].pin1 <= n && 1 <= cs[i].pin2 <= n
  }

  /** No component connects a node to itself. */
  ghost predicate NoSelfLoops(cs: seq<Component>)
  {
    forall i :: 0 <= i < |cs| ==> cs[i].pin1 != cs[i].pin2
  }

  /** The set of pins used by the components. */
  function Pins(cs: seq<Component>): set<int>
    decreases |cs|
  {
    if cs == [] then {} else Pins(cs[..|cs| - 1]) + {cs[|cs| - 1].pin1, cs[|cs| - 1].pin2}
  }

  /** Appends pin `p` unless it was already seen or is excluded. */
  function AddPin(seen: seq<int>, p: int, excluded: set<int>): seq<int>
  {
    if p !in seen && p !in excluded then seen + [p] else seen
  }

  /** The pins not in `excluded`, each once, in the order the component list
      first mentions them (pin1 before pin2 of each component). */
  function FirstAppearance(cs: seq<Component>, excluded: set<int>): seq<int>
    decreases |cs|
  {
    if cs == [] then []
    else
      var c := cs[|cs| - 1];
      AddPin(AddPin(FirstAppearance(cs[..|cs| - 1], excluded), c.pin1, excluded), c.pin2, excluded)
  }

  /** One more component offers its two pins, pin1 first. */
  lemma FirstAppearanceSnoc(cs: seq<Component>, k: nat, excluded: set<int>)
    requires k < |cs|
    ensures FirstAppearance(cs[..k + 1], excluded) ==
            AddPin(AddPin(FirstAppearance(cs[..k], excluded), cs[k].pin1, excluded), cs[k].pin2, excluded)
  {
    assert cs[..k + 1][..k] == cs[..k];
  }

  /** A pin is used exactly when some component has it as pin1 or pin2. */
  lemma {:induction false} PinsMember(cs: seq<Component>, p: int)
    ensures p in Pins(cs) <==> exists i :: 0 <= i < |cs| && (cs[i].pin1 == p || cs[i].pin2 == p)
    decreases |cs|
  {
    if cs != [] {
      var init := cs[..|cs| - 1];
      PinsMember(init, p);
      assert forall i :: 0 <= i < |init| ==> init[i] == cs[i];
      if p in Pins(init) {
        var i :| 0 <= i < |init| && (init[i].pin1 == p || init[i].pin2 == p);
        assert cs[i] == init[i];
      }
    }
  }

  /** Adding a pin keeps the list duplicate-free and adds the pin to its set
      unless it is excluded. */
  lemma AddPinSpec(seen: seq<int>, p: int, excluded: set<int>)
    requires NoDuplicates(seen)
    ensures NoDuplicates(AddPin(seen, p, excluded))
    ensures (set q | q in AddPin(seen, p, excluded)) == (set q | q in seen) + ({p} - excluded)
  {
  }

  /** The first-appearance list holds every used, non-excluded pin once. */
  lemma {:induction false} FirstAppearanceSpec(cs: seq<Component>, excluded: set<int>)
    ensures NoDuplicates(FirstAppearance(cs, excluded))
    ensures (set p | p in FirstAppearance(cs, excluded)) == Pins(cs) - excluded
    decreases |cs|
  {
    if cs != [] {
      var c := cs[|cs| - 1];
      var init := cs[..|cs| - 1];
      var prev := FirstAppearance(init, excluded);
      FirstAppearanceSpec(init, excluded);
      var mid := AddPin(prev, c.pin1, excluded);
      AddPinSpec(prev, c.pin1, excluded);
      AddPinSpec(mid, c.pin2, excluded);
      assert FirstAppearance(cs, excluded) == AddPin(mid, c.pin2, excluded);
      assert Pins(cs) == Pins(init) + {c.pin1, c.pin2};
    }
  }

  /** Hence its length is the number of used, non-excluded pins. */
  lemma FirstAppearanceLength(cs: seq<Component>, excluded: set<int>)
    ensures |FirstAppearance(cs, excluded)| == |Pins(cs) - excluded|
  {
    FirstAppearanceSpec(cs, excluded);
    DistinctCard(FirstAppearance(cs, excluded));
  }

  /** The node numbers 1..n. */
  ghost function NodeRange(n: nat): set<int>
    decreases n
  {
    if n == 0 then {} else NodeRange(n - 1) + {n}
  }

  lemma {:induction false} NodeRangeSpec(n: nat)
    ensures |NodeRange(n)| == n
    ensures forall p :: p in NodeRange(n) <==> 1 <= p <= n
    decreases n
  {
    if n > 0 {
      NodeRangeSpec(n - 1);
    }
  }

  /** With every pin in 1..n and n the number of distinct pins (the node
      count get_num_nodes returns), every node 1..n is a pin of some
      component. */
  lemma PinsCoverNodes(cs: seq<Component>, n: nat)
    requires PinsInRange(cs, n) && |Pins(cs)| == n
    ensures forall p :: 1 <= p <= n ==> p in Pins(cs)
  {
    var used, nodes := Pins(cs), NodeRange(n);
    NodeRangeSpec(n);
    forall p | p in used
      ensures p in nodes
    {
      PinsMember(cs, p);
    }
    assert used * nodes == used;
    assert |nodes - used| == 0;
  }

  /** get_num_nodes: collects the distinct pins in a list, then counts them. */
  method NumNodes(cs: seq<Component>) returns (n: nat)
    ensures n == |Pins(cs)|
  {
    var unique: seq<int> := [];
    var k := 0;
    while k < |cs|
      invariant 0 <= k <= |cs|
      invariant unique == FirstAppearance(cs[..k], {})
    {
      FirstAppearanceSnoc(cs, k, {});
      var c := cs[k];
      if c.pin1 !in unique {
        unique := unique + [c.pin1];
      }
      if c.pin2 !in unique {
        unique := unique + [c.pin2];
      }
      k := k + 1;
    }
    assert cs[..k] == cs;
    FirstAppearanceLength(cs, {});
    assert Pins(cs) - {} == Pins(cs);
    n := |unique|;
  }

  /** get_num_edges: one edge per component, so the tableau has one current
      and one voltage unknown per component. */
  function NumEdges(cs: seq<Component>): (e: nat)
    ensures e == |cs|
  {
    |cs|
  }
}
