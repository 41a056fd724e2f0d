/**
 * The DSP graph the compiler works on: nodes with typed inlets and outlets,
 * the connections feeding each inlet, and the graph itself as an object keyed
 * by node id. The order in which the object lists its nodes matters to the
 * compiler, so a graph keeps its keys in insertion order beside the map.
 */
module DspGraph {
  import opened Wrappers

  type NodeId = string
  type PortletId = string

  datatype PortletType = Signal | Message

  datatype Portlet = Portlet(id: PortletId, portletType: PortletType)

  /** One end of a connection: a node and one of its portlets. */
  datatype Endpoint = Endpoint(nodeId: NodeId, portletId: PortletId)

  datatype Connection = Connection(source: Endpoint, sink: Endpoint)

  /**
   * A node. `inlets` and `outlets` are listed in the order the node's
   * objects enumerate them; `sources` gives, per inlet id, the outlets
   * connected to it.
   */
  datatype Node = Node(
    id: NodeId,
    nodeType: string,
    inlets: seq<Portlet>,
    outlets: seq<Portlet>,
    sources: map<PortletId, seq<Endpoint>>,
    isPullingSignal: bool)

  /** The connections feeding an inlet; none when the inlet has no entry. */
  function Sources(node: Node, inletId: PortletId): (r: seq<Endpoint>)
    ensures inletId !in node.sources ==> r == []
  {
    if inletId in node.sources then node.sources[inletId] else []
  }

  /** A graph: the node object, with its keys in insertion order. */
  datatype Graph = Graph(keys: seq<NodeId>, nodes: map<NodeId, Node>)

  /** An ordered list of node ids, such as a traversal of the graph. */
  type Traversal = seq<NodeId>

  predicate InGraph(g: Graph, t: Traversal) {
    forall i :: 0 <= i < |t| ==> t[i] in g.nodes
  }

  /** `traversers.toNodes`: the nodes of a traversal, in its order. */
  function ToNodes(g: Graph, t: Traversal): (r: seq<Node>)
    requires InGraph(g, t)
    ensures |r| == |t|
    ensures forall i :: 0 <= i < |t| ==> r[i] == g.nodes[t[i]]
  {
    if t == [] then [] else [g.nodes[t[0]]] + ToNodes(g, t[1..])
  }

  /** `Object.values(graph)`: the nodes in key order. */
  function Values(g: Graph): (r: seq<Node>)
    requires InGraph(g, g.keys)
    ensures |r| == |g.keys|
    ensures forall i :: 0 <= i < |r| ==> r[i] == g.nodes[g.keys[i]]
  {
    ToNodes(g, g.keys)
  }
}
