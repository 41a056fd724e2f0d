/**
 * Names of the generated variables that hold a node's inlets, outlets and
 * state: the node id, a family marker, then the portlet id or local name.
 */
module VariableNames {
  import DspGraph

  /** `${nodeId}_INS_${inletId}` */
  function InletName(nodeId: string, inletId: string): (r: string)
    ensures |r| == |nodeId| + 5 + |inletId|
    ensures r[..|nodeId|] == nodeId && r[|nodeId| + 5..] == inletId
    ensures r[|nodeId|..|nodeId| + 5] == "_INS_"
  {
    nodeId + "_INS_" + inletId
  }

  /** `${nodeId}_OUTS_${outletId}` */
  function OutletName(nodeId: string, outletId: string): (r: string)
    ensures |r| == |nodeId| + 6 + |outletId|
    ensures r[..|nodeId|] == nodeId && r[|nodeId| + 6..] == outletId
    ensures r[|nodeId|..|nodeId| + 6] == "_OUTS_"
  {
    nodeId + "_OUTS_" + outletId
  }

  /** `${nodeId}_STATE_${localVariableName}` */
  function StateName(nodeId: string, localName: string): (r: string)
    ensures |r| == |nodeId| + 7 + |localName|
    ensures r[..|nodeId|] == nodeId && r[|nodeId| + 7..] == localName
    ensures r[|nodeId|..|nodeId| + 7] == "_STATE_"
  {
    nodeId + "_STATE_" + localName
  }

  /** For one node, distinct inlets get distinct names. */
  lemma InletNameInjective(nodeId: string, p: string, q: string)
    requires InletName(nodeId, p) == InletName(nodeId, q)
    ensures p == q
  {
    assert p == InletName(nodeId, p)[|nodeId| + 5..];
  }

  /** For one node, distinct outlets get distinct names. */
  lemma OutletNameInjective(nodeId: string, p: string, q: string)
    requires OutletName(nodeId, p) == OutletName(nodeId, q)
    ensures p == q
  {
    assert p == OutletName(nodeId, p)[|nodeId| + 6..];
  }

  /** For one node, distinct local names get distinct state names. */
  lemma StateNameInjective(nodeId: string, p: string, q: string)
    requires StateName(nodeId, p) == StateName(nodeId, q)
    ensures p == q
  {
    assert p == StateName(nodeId, p)[|nodeId| + 7..];
  }

  /**
   * For one node, the three families never meet: the character after the
   * node id's underscore is 'I', 'O' or 'S'. In particular an inlet and an
   * outlet with the same id get different names.
   */
  lemma FamiliesDisjoint(nodeId: string, p: string, q: string)
    ensures InletName(nodeId, p) != OutletName(nodeId, q)
    ensures InletName(nodeId, p) != StateName(nodeId, q)
    ensures OutletName(nodeId, p) != StateName(nodeId, q)
  {
    var k := |nodeId| + 1;
    assert InletName(nodeId, p)[k] == "_INS_"[1] == 'I';
    assert OutletName(nodeId, p)[k] == "_OUTS_"[1] == 'O';
    assert StateName(nodeId, q)[k] == "_STATE_"[1] == 'S';
    assert OutletName(nodeId, q)[k] == 'O';
  }

  /**
   * Across nodes, names are unique when node ids hold no underscore: the
   * first underscore of a name then ends the node id.
   */
  lemma InletNameInjectiveAcrossNodes(n1: string, p1: string, n2: string, p2: string)
    requires '_' !in n1 && '_' !in n2
    requires InletName(n1, p1) == InletName(n2, p2)
    ensures n1 == n2 && p1 == p2
  {
    var s := InletName(n1, p1);
    assert s[|n1|] == '_' && s[|n2|] == '_';
    assert forall k :: 0 <= k < |n1| ==> s[k] == n1[k];
    assert forall k :: 0 <= k < |n2| ==> s[k] == n2[k];
    assert |n1| == |n2|;
    assert n1 == s[..|n1|] == n2;
    InletNameInjective(n1, p1, p2);
  }

  /** The three generators of one node, its id already bound (`ins`, `outs`, `state`). */
  datatype VariableNameGenerators = VariableNameGenerators(
    ins: string -> string,
    outs: string -> string,
    state: string -> string)

  /** The per-node record: every generator is the general one with `node.id` bound. */
  function ForNode(node: DspGraph.Node): (r: VariableNameGenerators)
    ensures forall p :: r.ins(p) == InletName(node.id, p)
    ensures forall p :: r.outs(p) == OutletName(node.id, p)
    ensures forall p :: r.state(p) == StateName(node.id, p)
  {
    VariableNameGenerators(
      p => InletName(node.id, p),
      p => OutletName(node.id, p),
      p => StateName(node.id, p))
  }

  /** The name asserted for inlet `inlet1` of node `node1`. */
  lemma InletNameExample()
    ensures InletName("node1", "inlet1") == "node1_INS_inlet1"
  {
  }
}
