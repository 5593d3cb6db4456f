/** The names of the unknowns of a circuit, in the order of the tableau
    columns: one current per edge, one voltage per edge, then one potential
    per node other than the reference node, numbered by the node's first
    appearance in the component list. Also the rows of the Elmer component
    voltages among them. */
module UnknownNames {
  import opened Seqs
  import opened Netlist
  import opened Partition

  // ---------------------------------------------------------------------
  // Python's str() on integers and its `in` on strings.
  // ---------------------------------------------------------------------

  function Digit(d: nat): char
    requires d < 10
  {
    ('0' as int + d) as char
  }

  /** The decimal digits of a natural number, most significant first. */
  function NatToString(k: nat): string
    decreases k
  {
    if k < 10 then [Digit(k)] else NatToString(k / 10) + [Digit(k % 10)]
  }

  /** str(k): a minus sign for negative numbers, then the digits. */
  function IntToString(k: int): string
  {
    if k < 0 then "-" + NatToString(-k) else NatToString(k)
  }

  predicate IsNumeral(ch: char)
  {
    ch == '-' || '0' <= ch <= '9'
  }

  lemma {:induction false} NatToStringChars(k: nat)
    ensures |NatToString(k)| > 0
    ensures forall i :: 0 <= i < |NatToString(k)| ==> '0' <= NatToString(k)[i] <= '9'
    decreases k
  {
    if k >= 10 {
      NatToStringChars(k / 10);
    }
  }

  /** str(k) is non-empty and made of digits and a minus sign only. */
  lemma IntToStringChars(k: int)
    ensures |IntToString(k)| > 0
    ensures forall i :: 0 <= i < |IntToString(k)| ==> IsNumeral(IntToString(k)[i])
  {
    if k < 0 {
      NatToStringChars(-k);
      assert forall i :: 1 <= i < |IntToString(k)| ==> IntToString(k)[i] == NatToString(-k)[i - 1];
    } else {
      NatToStringChars(k);
    }
  }

  /** `p` occurs in `s` at offset `k`. */
  predicate OccursAt(s: string, p: string, k: int)
  {
    0 <= k <= |s| - |p| && s[k..k + |p|] == p
  }

  /** Python's `p in s` for strings. */
  function Contains(s: string, p: string): bool
    decreases |s|
  {
    if |p| > |s| then false else s[..|p|] == p || Contains(s[1..], p)
  }

  /** `p in s` holds exactly when `p` occurs in `s` at some offset. */
  lemma {:induction false} ContainsSpec(s: string, p: string)
    ensures Contains(s, p) <==> exists k :: OccursAt(s, p, k)
    decreases |s|
  {
    if |p| <= |s| {
      if s[..|p|] == p {
        assert OccursAt(s, p, 0);
      } else {
        ContainsSpec(s[1..], p);
        if Contains(s[1..], p) {
          var k :| OccursAt(s[1..], p, k);
          assert s[k + 1..k + 1 + |p|] == s[1..][k..k + |p|];
          assert OccursAt(s, p, k + 1);
        }
        if exists k :: OccursAt(s, p, k) {
          var k :| OccursAt(s, p, k);
          assert k != 0;
          assert s[1..][k - 1..k - 1 + |p|] == s[k..k + |p|];
          assert OccursAt(s[1..], p, k - 1);
        }
      }
    }
  }

  // ---------------------------------------------------------------------
  // The names.
  // ---------------------------------------------------------------------

  /** The name of the current through a component. */
  function CurrentName(c: Component): string
  {
    match c.kind
    case ElmerComponent(number) => "\"i_component(" + IntToString(number) + ")\""
    case _ => "\"i_" + c.name + "\""
  }

  /** The name of the voltage across a component. */
  function VoltageName(c: Component): string
  {
    match c.kind
    case ElmerComponent(number) => "\"v_component(" + IntToString(number) + ")\""
    case _ => "\"v_" + c.name + "\""
  }

  /** The name of the potential of a node of a given circuit. */
  function NodeName(node: int, circuit: int): string
  {
    "\"u_" + IntToString(node) + "_circuit_" + IntToString(circuit) + "\""
  }

  /** The nodes with an unknown potential: every pin but the reference node,
      each once, in order of first appearance. */
  function UnknownNodes(cs: seq<Component>, ref: int): seq<int>
  {
    FirstAppearance(cs, {ref})
  }

  /** The names of the currents, one per component. */
  function CurrentNamesOf(cs: seq<Component>): (names: seq<string>)
    ensures |names| == |cs| && forall i {:trigger names[i]} :: 0 <= i < |cs| ==> names[i] == CurrentName(cs[i])
  {
    seq(|cs|, i requires 0 <= i < |cs| => CurrentName(cs[i]))
  }

  /** The names of the voltages, one per component. */
  function VoltageNamesOf(cs: seq<Component>): (names: seq<string>)
    ensures |names| == |cs| && forall i {:trigger names[i]} :: 0 <= i < |cs| ==> names[i] == VoltageName(cs[i])
  {
    seq(|cs|, i requires 0 <= i < |cs| => VoltageName(cs[i]))
  }

  /** The names of the potentials of the given nodes. */
  function NodeNamesOf(nodes: seq<int>, circuit: int): (names: seq<string>)
    ensures |names| == |nodes| && forall i {:trigger names[i]} :: 0 <= i < |nodes| ==> names[i] == NodeName(nodes[i], circuit)
  {
    seq(|nodes|, i requires 0 <= i < |nodes| => NodeName(nodes[i], circuit))
  }

  /** The reference list of unknown names: currents, voltages, potentials. */
  function UnknownNamesOf(cs: seq<Component>, ref: int, circuit: int): (names: seq<string>)
    ensures |names| == 2 * |cs| + |UnknownNodes(cs, ref)|
  {
    CurrentNamesOf(cs) + VoltageNamesOf(cs) + NodeNamesOf(UnknownNodes(cs, ref), circuit)
  }

  /** The entries of three concatenated blocks, block by block. */
  lemma FirstBlockAt<T>(a: seq<T>, b: seq<T>, c: seq<T>, j: nat)
    requires j < |a|
    ensures j < |a + b + c| && (a + b + c)[j] == a[j]
  {
  }

  lemma MiddleBlockAt<T>(a: seq<T>, b: seq<T>, c: seq<T>, i: nat, j: nat)
    requires j < |b| && i == |a| + j
    ensures i < |a + b + c| && (a + b + c)[i] == b[j]
  {
  }

  lemma LastBlockAt<T>(a: seq<T>, b: seq<T>, c: seq<T>, i: nat, j: nat)
    requires j < |c| && i == |a| + |b| + j
    ensures i < |a + b + c| && (a + b + c)[i] == c[j]
  {
  }

  /** Unknown j is the current of component j. */
  lemma CurrentNameAt(cs: seq<Component>, ref: int, circuit: int, j: nat)
    requires j < |cs|
    ensures j < |UnknownNamesOf(cs, ref, circuit)| && UnknownNamesOf(cs, ref, circuit)[j] == CurrentName(cs[j])
  {
    FirstBlockAt(CurrentNamesOf(cs), VoltageNamesOf(cs), NodeNamesOf(UnknownNodes(cs, ref), circuit), j);
  }

  /** Unknown e + j is the voltage of component j, for e components. */
  lemma VoltageNameAt(cs: seq<Component>, ref: int, circuit: int, j: nat)
    requires j < |cs|
    ensures |cs| + j < |UnknownNamesOf(cs, ref, circuit)| && UnknownNamesOf(cs, ref, circuit)[|cs| + j] == VoltageName(cs[j])
  {
    MiddleBlockAt(CurrentNamesOf(cs), VoltageNamesOf(cs), NodeNamesOf(UnknownNodes(cs, ref), circuit), |cs| + j, j);
  }

  /** Unknown 2e + k is the potential of the k-th unknown node. */
  lemma NodeNameAt(cs: seq<Component>, ref: int, circuit: int, k: nat)
    requires k < |UnknownNodes(cs, ref)|
    ensures 2 * |cs| + k < |UnknownNamesOf(cs, ref, circuit)|
    ensures UnknownNamesOf(cs, ref, circuit)[2 * |cs| + k] == NodeName(UnknownNodes(cs, ref)[k], circuit)
  {
    LastBlockAt(CurrentNamesOf(cs), VoltageNamesOf(cs), NodeNamesOf(UnknownNodes(cs, ref), circuit), 2 * |cs| + k, k);
  }

  /** The unknown potentials are the used pins other than the reference
      node, each named once. */
  lemma UnknownNodesSpec(cs: seq<Component>, ref: int)
    ensures NoDuplicates(UnknownNodes(cs, ref))
    ensures (set p | p in UnknownNodes(cs, ref)) == Pins(cs) - {ref}
    ensures |UnknownNodes(cs, ref)| == |Pins(cs) - {ref}|
  {
    FirstAppearanceSpec(cs, {ref});
    FirstAppearanceLength(cs, {ref});
  }

  /** The rows the code takes for Elmer component voltages: every unknown
      whose name contains "v_component(". */
  function VCompRowsAsWritten(names: seq<string>): seq<nat>
  {
    Positions(seq(|names|, i requires 0 <= i < |names| => Contains(names[i], "v_component(")))
  }

  /** The rows meant: the voltage unknowns of the Elmer components, i.e. the
      Elmer index list shifted past the current unknowns. */
  function ComponentVoltageRows(cs: seq<Component>): (rows: seq<nat>)
    ensures forall r: nat :: r in rows <==> |cs| <= r < 2 * |cs| && cs[r - |cs|].kind.ElmerComponent?
    ensures StrictlyIncreasing(rows)
  {
    IndicesOfSpec(cs, ElmerComponents);
    ShiftMembers(IndicesOf(cs, ElmerComponents), |cs|);
    Shift(IndicesOf(cs, ElmerComponents), |cs|)
  }

  /** The first loop of create_unknown_name: the pins other than the
      reference node, each appended when first seen. */
  method CollectUnknownNodes(cs: seq<Component>, ref: int) returns (nodes: seq<int>)
    ensures nodes == UnknownNodes(cs, ref)
  {
    nodes := [];
    var k := 0;
    while k < |cs|
      invariant 0 <= k <= |cs|
      invariant nodes == FirstAppearance(cs[..k], {ref})
    {
      FirstAppearanceSnoc(cs, k, {ref});
      var c := cs[k];
      if c.pin1 !in nodes && c.pin1 != ref {
        nodes := nodes + [c.pin1];
      }
      if c.pin2 !in nodes && c.pin2 != ref {
        nodes := nodes + [c.pin2];
      }
      k := k + 1;
    }
    assert cs[..k] == cs;
  }

  /** The last loop of create_unknown_name: the index of every name that
      contains "v_component(". */
  method ScanVCompRows(names: seq<string>) returns (vcompRows: seq<nat>)
    ensures vcompRows == VCompRowsAsWritten(names)
  {
    vcompRows := [];
    var k := 0;
    ghost var mask := seq(|names|, i requires 0 <= i < |names| => Contains(names[i], "v_component("));
    while k < |names|
      invariant 0 <= k <= |names|
      invariant vcompRows == Positions(mask[..k])
    {
      PositionsSnoc(mask[..k], mask[k]);
      assert mask[..k + 1] == mask[..k] + [mask[k]];
      if Contains(names[k], "v_component(") {
        vcompRows := vcompRows + [k];
      }
      k := k + 1;
    }
    assert mask[..k] == mask;
  }

  /** create_unknown_name, loop by loop. */
  method CreateUnknownName(cs: seq<Component>, ref: int, circuit: int) returns (names: seq<string>, vcompRows: seq<nat>)
    ensures names == UnknownNamesOf(cs, ref, circuit)
    ensures vcompRows == VCompRowsAsWritten(names)
  {
    var nodes := CollectUnknownNodes(cs, ref);
    names := CurrentNames(cs);
    names := AppendVoltageNames(names, cs);
    names := AppendNodeNames(names, nodes, circuit);
    vcompRows := ScanVCompRows(names);
  }

  /** A list that starts with `prefix` and continues with `tail` is
      their concatenation. */
  lemma AppendedAt<T>(prefix: seq<T>, tail: seq<T>, r: seq<T>)
    requires |r| == |prefix| + |tail|
    requires forall i {:trigger r[i]} :: 0 <= i < |prefix| ==> r[i] == prefix[i]
    requires forall j {:trigger tail[j]} :: 0 <= j < |tail| ==> r[|prefix| + j] == tail[j]
    ensures r == prefix + tail
  {
    forall i | 0 <= i < |r|
      ensures r[i] == (prefix + tail)[i]
    {
      if i >= |prefix| {
        assert r[|prefix| + (i - |prefix|)] == tail[i - |prefix|];
      }
    }
  }

  /** The loop that names the current of every component. */
  method CurrentNames(cs: seq<Component>) returns (names: seq<string>)
    ensures names == CurrentNamesOf(cs)
  {
    names := [];
    var k := 0;
    while k < |cs|
      invariant 0 <= k <= |cs| && |names| == k
      invariant forall i {:trigger names[i]} :: 0 <= i < k ==> names[i] == CurrentName(cs[i])
    {
      names := names + [CurrentName(cs[k])];
      k := k + 1;
    }
  }

  /** The loop that appends the name of the voltage across every component. */
  method AppendVoltageNames(prefix: seq<string>, cs: seq<Component>) returns (names: seq<string>)
    ensures names == prefix + VoltageNamesOf(cs)
  {
    ghost var tail := VoltageNamesOf(cs);
    names := prefix;
    var k := 0;
    while k < |cs|
      invariant 0 <= k <= |cs| && |names| == |prefix| + k
      invariant forall i {:trigger names[i]} :: 0 <= i < |prefix| ==> names[i] == prefix[i]
      invariant forall j {:trigger tail[j]} :: 0 <= j < k ==> names[|prefix| + j] == tail[j]
    {
      names := names + [VoltageName(cs[k])];
      k := k + 1;
    }
    AppendedAt(prefix, tail, names);
  }

  /** The loop that appends the name of the potential of every unknown node. */
  method AppendNodeNames(prefix: seq<string>, nodes: seq<int>, circuit: int) returns (names: seq<string>)
    ensures names == prefix + NodeNamesOf(nodes, circuit)
  {
    ghost var tail := NodeNamesOf(nodes, circuit);
    names := prefix;
    var k := 0;
    while k < |nodes|
      invariant 0 <= k <= |nodes| && |names| == |prefix| + k
      invariant forall i {:trigger names[i]} :: 0 <= i < |prefix| ==> names[i] == prefix[i]
      invariant forall j {:trigger tail[j]} :: 0 <= j < k ==> names[|prefix| + j] == tail[j]
    {
      names := names + [NodeName(nodes[k], circuit)];
      k := k + 1;
    }
    AppendedAt(prefix, tail, names);
  }

  // ---------------------------------------------------------------------
  // When the "v_component(" scan finds exactly the Elmer voltage rows.
  // ---------------------------------------------------------------------

  const Marker: string := "v_component("

  /** A name the scan cannot mistake for an Elmer voltage: an Elmer
      component, or a name that neither contains the marker nor starts with
      "component(" (which the prefix "v_" would complete to the marker). */
  predicate PlainName(c: Component)
  {
    c.kind.ElmerComponent? || (!Contains(c.name, Marker) && !(|c.name| >= 10 && c.name[..10] == "component("))
  }

  /** An occurrence fixes each character it covers. */
  lemma OccursChar(s: string, p: string, k: int, i: int)
    requires OccursAt(s, p, k) && 0 <= i < |p|
    ensures s[k + i] == p[i]
  {
    assert s[k..k + |p|][i] == s[k + i];
  }

  /** Matching characters make an occurrence. */
  lemma OccursFromChars(s: string, p: string, k: int)
    requires 0 <= k <= |s| - |p|
    requires forall i :: 0 <= i < |p| ==> s[k + i] == p[i]
    ensures OccursAt(s, p, k)
  {
    assert s[k..k + |p|] == p;
  }

  /** A string without the first character of the pattern cannot contain it. */
  lemma NoFirstChar(s: string, p: string)
    requires |p| > 0 && forall i :: 0 <= i < |s| ==> s[i] != p[0]
    ensures !Contains(s, p)
  {
    ContainsSpec(s, p);
    forall k | OccursAt(s, p, k)
      ensures false
    {
      OccursChar(s, p, k, 0);
    }
  }

  /** An occurrence in `pre + mid + "\""` that starts after `pre` lies in
      `mid`, when the pattern does not end with a quote. */
  lemma NotInTail(pre: string, mid: string, p: string)
    requires |p| > 0 && p[|p| - 1] != '"'
    requires !Contains(mid, p)
    requires forall k :: 0 <= k < |pre| ==> !OccursAt(pre + mid + "\"", p, k)
    ensures !Contains(pre + mid + "\"", p)
  {
    var s := pre + mid + "\"";
    ContainsSpec(s, p);
    ContainsSpec(mid, p);
    forall k | OccursAt(s, p, k)
      ensures false
    {
      var q := k - |pre|;
      if k + |p| <= |pre| + |mid| {
        forall i | 0 <= i < |p|
          ensures mid[q + i] == p[i]
        {
          OccursChar(s, p, k, i);
          assert s[k + i] == mid[q + i];
        }
        OccursFromChars(mid, p, q);
      } else {
        OccursChar(s, p, k, |p| - 1);
      }
    }
  }

  /** No potential name contains the marker: it has no 'v'. */
  lemma NodeNamePlain(node: int, circuit: int)
    ensures !Contains(NodeName(node, circuit), Marker)
  {
    IntToStringChars(node);
    IntToStringChars(circuit);
    var s := NodeName(node, circuit);
    var a, b := IntToString(node), IntToString(circuit);
    forall i | 0 <= i < |s|
      ensures s[i] != 'v'
    {
      if 3 <= i < 3 + |a| {
        assert s[i] == a[i - 3];
      } else if 3 + |a| + 9 <= i < 3 + |a| + 9 + |b| {
        assert s[i] == b[i - 3 - |a| - 9];
      }
    }
    NoFirstChar(s, Marker);
  }

  /** The names of an Elmer component: the current name has no 'v', the
      voltage name carries the marker right after its opening quote. */
  lemma ElmerNamesFlagged(number: int)
    ensures !Contains("\"i_component(" + IntToString(number) + ")\"", Marker)
    ensures Contains("\"v_component(" + IntToString(number) + ")\"", Marker)
  {
    var d := IntToString(number);
    var cur, volt := "\"i_component(" + d + ")\"", "\"v_component(" + d + ")\"";
    IntToStringChars(number);
    forall i | 0 <= i < |cur|
      ensures cur[i] != 'v'
    {
      if 13 <= i < 13 + |d| {
        assert cur[i] == d[i - 13];
      }
    }
    NoFirstChar(cur, Marker);
    assert volt[1..13] == Marker;
    assert OccursAt(volt, Marker, 1);
    ContainsSpec(volt, Marker);
  }

  /** The current name of another component carries the marker only if
      the component's name does. */
  lemma PlainCurrentName(name: string)
    requires !Contains(name, Marker)
    ensures !Contains("\"i_" + name + "\"", Marker)
  {
    var s := "\"i_" + name + "\"";
    forall k | 0 <= k < 3
      ensures !OccursAt(s, Marker, k)
    {
      if OccursAt(s, Marker, k) {
        OccursChar(s, Marker, k, 0);
      }
    }
    NotInTail("\"i_", name, Marker);
  }

  /** A voltage name "v_" + name holds the marker right after the quote
      exactly when the name starts with "component(". */
  lemma VoltageMarkerAtOne(name: string)
    ensures OccursAt("\"v_" + name + "\"", Marker, 1) <==> |name| >= 10 && name[..10] == "component("
  {
    var s := "\"v_" + name + "\"";
    assert Marker[2..] == "component(";
    if |name| >= 10 {
      assert s[1..13] == "v_" + name[..10];
    } else if OccursAt(s, Marker, 1) {
      OccursChar(s, Marker, 1, 2 + |name|);
    }
  }

  /** The marker cannot start where there is no 'v'. */
  lemma NoMarkerAt(s: string, k: nat)
    requires k < |s| && s[k] != 'v'
    ensures !OccursAt(s, Marker, k)
  {
    if OccursAt(s, Marker, k) {
      OccursChar(s, Marker, k, 0);
    }
  }

  /** Likewise the voltage name, unless the name starts with "component(". */
  lemma PlainVoltageName(name: string)
    requires !Contains(name, Marker) && !(|name| >= 10 && name[..10] == "component(")
    ensures !Contains("\"v_" + name + "\"", Marker)
  {
    VoltageHeadClear(name);
    NotInTail("\"v_", name, Marker);
  }

  /** No occurrence of the marker starts in the "v_ head of such a name. */
  lemma VoltageHeadClear(name: string)
    requires !(|name| >= 10 && name[..10] == "component(")
    ensures forall k :: 0 <= k < 3 ==> !OccursAt("\"v_" + name + "\"", Marker, k)
  {
    var s := "\"v_" + name + "\"";
    VoltageMarkerAtOne(name);
    NoMarkerAt(s, 0);
    NoMarkerAt(s, 2);
  }

  /** The scan flags a current name never, and a voltage name exactly when
      it belongs to an Elmer component. */
  lemma ComponentNamesPlain(c: Component)
    requires PlainName(c)
    ensures !Contains(CurrentName(c), Marker)
    ensures Contains(VoltageName(c), Marker) <==> c.kind.ElmerComponent?
  {
    match c.kind
    case ElmerComponent(number) =>
      ElmerNamesFlagged(number);
    case _ =>
      PlainCurrentName(c.name);
      PlainVoltageName(c.name);
  }

  /** The scan's verdict on unknown name i when every name is plain. */
  lemma NameFlagged(cs: seq<Component>, ref: int, circuit: int, i: nat)
    requires forall j :: 0 <= j < |cs| ==> PlainName(cs[j])
    requires i < |UnknownNamesOf(cs, ref, circuit)|
    ensures Contains(UnknownNamesOf(cs, ref, circuit)[i], Marker) <==> |cs| <= i < 2 * |cs| && cs[i - |cs|].kind.ElmerComponent?
  {
    var e := |cs|;
    if i < e {
      CurrentNameAt(cs, ref, circuit, i);
      ComponentNamesPlain(cs[i]);
    } else if i < 2 * e {
      VoltageNameAt(cs, ref, circuit, i - e);
      ComponentNamesPlain(cs[i - e]);
    } else {
      NodeNameAt(cs, ref, circuit, i - 2 * e);
      NodeNamePlain(UnknownNodes(cs, ref)[i - 2 * e], circuit);
    }
  }

  /** The positions of a run of flags placed between two runs of false. */
  lemma PositionsBetween(m: seq<bool>, before: nat, after: nat)
    ensures Positions(seq(before, _ => false) + m + seq(after, _ => false)) == Shift(Positions(m), before)
  {
    var none1: seq<bool> := seq(before, _ => false);
    var none2: seq<bool> := seq(after, _ => false);
    assert none1 + m + none2 == none1 + (m + none2);
    PositionsAppend(none1, m + none2);
    PositionsAppend(m, none2);
    PositionsNone(none1);
    PositionsNone(none2);
    assert Positions(m + none2) == Positions(m);
  }

  /** When every name is plain, the scan of create_unknown_name finds
      exactly the voltage rows of the Elmer components. */
  lemma VCompRowsAgree(cs: seq<Component>, ref: int, circuit: int)
    requires forall j :: 0 <= j < |cs| ==> PlainName(cs[j])
    ensures VCompRowsAsWritten(UnknownNamesOf(cs, ref, circuit)) == ComponentVoltageRows(cs)
  {
    var names := UnknownNamesOf(cs, ref, circuit);
    var e, nodes := |cs|, UnknownNodes(cs, ref);
    var mask := seq(|names|, i requires 0 <= i < |names| => Contains(names[i], Marker));
    var m := Mask(cs, ElmerComponents);
    forall i | 0 <= i < |names|
      ensures mask[i] == (seq(e, _ => false) + m + seq(|nodes|, _ => false))[i]
    {
      NameFlagged(cs, ref, circuit, i);
    }
    assert mask == seq(e, _ => false) + m + seq(|nodes|, _ => false);
    PositionsBetween(m, e, |nodes|);
  }

  /** Whatever the component names, the scan reports only current and
      voltage rows: no node name contains the marker. */
  lemma ScanBelowAnyNames(cs: seq<Component>, ref: int, circuit: int)
    ensures var vs := VCompRowsAsWritten(UnknownNamesOf(cs, ref, circuit));
            forall k :: 0 <= k < |vs| ==> vs[k] < 2 * |cs|
  {
    var names := UnknownNamesOf(cs, ref, circuit);
    var mask := seq(|names|, i requires 0 <= i < |names| => Contains(names[i], Marker));
    var vs := Positions(mask);
    PositionsSpec(mask);
    forall k | 0 <= k < |vs|
      ensures vs[k] < 2 * |cs|
    {
      assert vs[k] in vs;
      if 2 * |cs| <= vs[k] {
        NodeNameAt(cs, ref, circuit, vs[k] - 2 * |cs|);
        NodeNamePlain(UnknownNodes(cs, ref)[vs[k] - 2 * |cs|], circuit);
        assert false;
      }
    }
  }

  /** A name that contains the marker is reported by the scan. */
  lemma FlaggedRow(names: seq<string>, i: nat)
    requires i < |names| && Contains(names[i], Marker)
    ensures i in VCompRowsAsWritten(names)
  {
    PositionsSpec(seq(|names|, k requires 0 <= k < |names| => Contains(names[k], Marker)));
  }

  /** A row whose name is a string containing the marker is reported. */
  lemma FlaggedName(names: seq<string>, i: nat, name: string)
    requires i < |names| && names[i] == name && Contains(name, Marker)
    ensures i in VCompRowsAsWritten(names)
  {
    FlaggedRow(names, i);
  }

  /** Any other component whose name starts with "component(" (a resistor
      named "component(1)", say) is taken for an Elmer component: its voltage
      row is reported although it is not an Elmer component's. */
  lemma VCompRowsMisclassify(cs: seq<Component>, ref: int, circuit: int, j: nat)
    requires j < |cs| && !cs[j].kind.ElmerComponent?
    requires |cs[j].name| >= 10 && cs[j].name[..10] == "component("
    ensures |cs| + j in VCompRowsAsWritten(UnknownNamesOf(cs, ref, circuit))
    ensures |cs| + j !in ComponentVoltageRows(cs)
  {
    VoltageNameFlagged(cs[j]);
    VoltageRowFlagged(cs, ref, circuit, j);
    var rows := ComponentVoltageRows(cs);
    assert (|cs| + j) - |cs| == j;
  }

  /** The voltage unknown of a component whose voltage name carries the
      marker is reported by the scan. */
  lemma VoltageRowFlagged(cs: seq<Component>, ref: int, circuit: int, j: nat)
    requires j < |cs| && Contains(VoltageName(cs[j]), Marker)
    ensures |cs| + j in VCompRowsAsWritten(UnknownNamesOf(cs, ref, circuit))
  {
    VoltageNameAt(cs, ref, circuit, j);
    FlaggedName(UnknownNamesOf(cs, ref, circuit), |cs| + j, VoltageName(cs[j]));
  }

  /** The voltage name of such a component carries the marker. */
  lemma VoltageNameFlagged(c: Component)
    requires !c.kind.ElmerComponent? && |c.name| >= 10 && c.name[..10] == "component("
    ensures Contains(VoltageName(c), Marker)
  {
    var volt := "\"v_" + c.name + "\"";
    VoltageMarkerAtOne(c.name);
    ContainsSpec(volt, Marker);
    assert VoltageName(c) == volt;
  }
}
