/**
 * The precompilation orchestrator: a fixed sequence of phases that fills in
 * the precompilation record. It precompiles the node implementations, builds
 * the dsp groups (root, cold, hot and inlinable), takes the inlined nodes out
 * of their parent group, stores the cold groups under numbered ids, and then
 * precompiles inlets, message outlets, signal outlets, inline loops, caching
 * and loops, and finally each node's state, initialization and message
 * receivers, before the shared dependencies.
 *
 * The per-node precompilers and the dsp group builders are outside this
 * model: each call to a precompiler is recorded as an `Event` in the
 * precompiler's trace, and the builders are function values the caller
 * supplies (`Helpers`). The dsp group objects the source mutates through
 * shared references are modelled as values: the trimmed groups are computed
 * once and stored where the source's aliases would make them visible.
 */
module Precompile {
  import opened Wrappers
  import opened Ast
  import opened DspGraph
  import opened Objects
  import opened CompileTypes

  // ---------------------------------------------------------------------
  // Sequences built piece by piece
  // ---------------------------------------------------------------------

  /** `flatMap`: the pieces `f` gives for each item, concatenated in order. */
  function FlatMap<T, U>(xs: seq<T>, f: T -> seq<U>): seq<U> {
    if xs == [] then [] else FlatMap(xs[..|xs| - 1], f) + f(xs[|xs| - 1])
  }

  lemma FlatMapStep<T, U>(xs: seq<T>, i: nat, f: T -> seq<U>)
    requires i < |xs|
    ensures FlatMap(xs[..i + 1], f) == FlatMap(xs[..i], f) + f(xs[i])
  {
    assert xs[..i + 1][..i] == xs[..i];
  }

  /** An item of the flattened sequence comes from the piece of some item, and every piece is kept. */
  lemma {:induction false} FlatMapMembers<T, U>(xs: seq<T>, f: T -> seq<U>, u: U)
    ensures u in FlatMap(xs, f) <==> exists i :: 0 <= i < |xs| && u in f(xs[i])
  {
    if xs != [] {
      var init := xs[..|xs| - 1];
      FlatMapMembers(init, f, u);
      if exists i :: 0 <= i < |init| && u in f(init[i]) {
        var i :| 0 <= i < |init| && u in f(init[i]);
        assert xs[i] == init[i];
      }
      if exists i :: 0 <= i < |xs| && u in f(xs[i]) {
        var i :| 0 <= i < |xs| && u in f(xs[i]);
        if i < |init| {
          assert xs[i] == init[i];
        }
      }
    }
  }

  /** `flatMap` with a context value every piece may use, such as the node whose portlets are walked. */
  function FlatMapWith<C, T, U>(c: C, xs: seq<T>, f: (C, T) -> seq<U>): seq<U> {
    if xs == [] then [] else FlatMapWith(c, xs[..|xs| - 1], f) + f(c, xs[|xs| - 1])
  }

  lemma FlatMapWithStep<C, T, U>(c: C, xs: seq<T>, i: nat, f: (C, T) -> seq<U>)
    requires i < |xs|
    ensures FlatMapWith(c, xs[..i + 1], f) == FlatMapWith(c, xs[..i], f) + f(c, xs[i])
  {
    assert xs[..i + 1][..i] == xs[..i];
  }

  lemma {:induction false} FlatMapWithMembers<C, T, U>(c: C, xs: seq<T>, f: (C, T) -> seq<U>, u: U)
    ensures u in FlatMapWith(c, xs, f) <==> exists i :: 0 <= i < |xs| && u in f(c, xs[i])
  {
    if xs != [] {
      var init := xs[..|xs| - 1];
      FlatMapWithMembers(c, init, f, u);
      if exists i :: 0 <= i < |init| && u in f(c, init[i]) {
        var i :| 0 <= i < |init| && u in f(c, init[i]);
        assert xs[i] == init[i];
      }
      if exists i :: 0 <= i < |xs| && u in f(c, xs[i]) {
        var i :| 0 <= i < |xs| && u in f(c, xs[i]);
        if i < |init| {
          assert xs[i] == init[i];
        }
      }
    }
  }

  // ---------------------------------------------------------------------
  // Dsp groups
  // ---------------------------------------------------------------------

  /** `Object.values(graph).filter(isPullingSignal).map(id)`: the ids of the pulling nodes, in order. */
  function PullingIds(ns: seq<Node>): (r: seq<NodeId>)
    ensures |r| <= |ns|
    ensures forall id :: id in r <==> exists n :: n in ns && n.isPullingSignal && n.id == id
  {
    if ns == [] then []
    else
      assert forall n :: n in ns <==> n == ns[0] || n in ns[1..];
      (if ns[0].isPullingSignal then [ns[0].id] else []) + PullingIds(ns[1..])
  }

  /** One node contributes its id exactly when it pulls signal. */
  lemma PullingIdsOne(n: Node)
    ensures PullingIds([n]) == if n.isPullingSignal then [n.id] else []
  {
    assert [n][1..] == [];
  }

  /** The filter distributes over concatenation: the ids keep the nodes' order. */
  lemma {:induction false} PullingIdsAppend(a: seq<Node>, b: seq<Node>)
    ensures PullingIds(a + b) == PullingIds(a) + PullingIds(b)
  {
    if a != [] {
      var head := if a[0].isPullingSignal then [a[0].id] else [];
      assert (a + b)[0] == a[0];
      assert (a + b)[1..] == a[1..] + b;
      PullingIdsAppend(a[1..], b);
      assert PullingIds(a + b) == head + (PullingIds(a[1..]) + PullingIds(b));
      assert PullingIds(a) == head + PullingIds(a[1..]);
    } else {
      assert a + b == b;
    }
  }

  /** The root group: the signal traversal of the whole graph, ending at the nodes that pull signal. */
  function RootDspGroup(graph: Graph, signalTraversal: Graph -> Traversal): (r: DspGroup)
    requires InGraph(graph, graph.keys)
    ensures r.traversal == signalTraversal(graph)
    ensures |r.outNodesIds| <= |graph.keys|
    ensures forall id :: id in r.outNodesIds <==> exists n :: n in Values(graph) && n.isPullingSignal && n.id == id
    ensures r.outNodesIds == PullingIds(Values(graph))
  {
    DspGroup(signalTraversal(graph), PullingIds(Values(graph)))
  }

  /**
   * The root group's out nodes are exactly the graph's nodes that pull signal,
   * in key order: the pulling nodes under the first `k` keys come first.
   */
  lemma RootOutNodes(graph: Graph, signalTraversal: Graph -> Traversal, id: NodeId, k: nat)
    requires InGraph(graph, graph.keys)
    requires k <= |graph.keys|
    ensures id in RootDspGroup(graph, signalTraversal).outNodesIds <==>
      exists j :: 0 <= j < |graph.keys| && graph.nodes[graph.keys[j]].isPullingSignal && graph.nodes[graph.keys[j]].id == id
    ensures RootDspGroup(graph, signalTraversal).outNodesIds == PullingIds(Values(graph)[..k]) + PullingIds(Values(graph)[k..])
  {
    var ns := Values(graph);
    var out := RootDspGroup(graph, signalTraversal).outNodesIds;
    assert out == PullingIds(ns[..k]) + PullingIds(ns[k..]) by {
      assert ns == ns[..k] + ns[k..];
      PullingIdsAppend(ns[..k], ns[k..]);
    }
    PullingIdsAt(ns, id);
    assert forall j :: 0 <= j < |ns| ==> ns[j] == graph.nodes[graph.keys[j]];
  }

  /** An id is listed when the node at some position pulls signal and has that id. */
  lemma PullingIdsAt(ns: seq<Node>, id: NodeId)
    ensures id in PullingIds(ns) <==> exists j :: 0 <= j < |ns| && ns[j].isPullingSignal && ns[j].id == id
  {
    if id in PullingIds(ns) {
      var n :| n in ns && n.isPullingSignal && n.id == id;
      var j :| 0 <= j < |ns| && ns[j] == n;
    }
  }

  /** `removeNodesFromTraversal`: the traversal without the given nodes, order kept. */
  function RemoveNodes(t: Traversal, remove: seq<NodeId>): (r: Traversal)
    ensures |r| <= |t|
    ensures forall id :: id in r <==> id in t && id !in remove
  {
    if t == [] then []
    else (if t[0] in remove then [] else [t[0]]) + RemoveNodes(t[1..], remove)
  }

  function TraversalOf(g: DspGroup): seq<NodeId> {
    g.traversal
  }

  /** A node belongs to one of the given inlinable groups. */
  predicate InlinedBy(id: NodeId, inlinable: seq<DspGroup>) {
    exists i :: 0 <= i < |inlinable| && id in inlinable[i].traversal
  }

  /**
   * A parent group once its inlinable groups are extracted: the nodes those
   * groups hold are no longer in its traversal, every other node still is.
   */
  function Trim(parent: DspGroup, inlinable: seq<DspGroup>): (r: DspGroup)
    ensures r.outNodesIds == parent.outNodesIds
    ensures forall id :: id in r.traversal <==> id in parent.traversal && !InlinedBy(id, inlinable)
  {
    var inlined := FlatMap(inlinable, TraversalOf);
    assert forall id :: id in inlined <==> InlinedBy(id, inlinable) by {
      forall id ensures id in inlined <==> InlinedBy(id, inlinable) {
        FlatMapMembers(inlinable, TraversalOf, id);
      }
    }
    DspGroup(RemoveNodes(parent.traversal, inlined), parent.outNodesIds)
  }

  /** Every group trimmed of the inlinable groups built from it. */
  function Parents(all: seq<DspGroup>, buildInlinable: DspGroup -> seq<DspGroup>): (r: seq<DspGroup>)
    ensures |r| == |all|
    ensures forall k :: 0 <= k < |all| ==> r[k] == Trim(all[k], buildInlinable(all[k]))
  {
    seq(|all|, k requires 0 <= k < |all| => Trim(all[k], buildInlinable(all[k])))
  }

  /**
   * The `flatMap` over the hot then cold groups: collects each group's
   * inlinable groups, and reassigns the group's traversal without their
   * nodes. Returns the trimmed groups and the inlinable groups, in order.
   */
  method ExtractInlinable(all: seq<DspGroup>, buildInlinable: DspGroup -> seq<DspGroup>)
    returns (parents: seq<DspGroup>, inlinable: seq<DspGroup>)
    ensures parents == Parents(all, buildInlinable)
    ensures inlinable == FlatMap(all, buildInlinable)
  {
    parents, inlinable := [], [];
    var k := 0;
    while k < |all|
      invariant 0 <= k <= |all|
      invariant |parents| == k
      invariant forall j :: 0 <= j < k ==> parents[j] == Trim(all[j], buildInlinable(all[j]))
      invariant inlinable == FlatMap(all[..k], buildInlinable)
    {
      var groups := buildInlinable(all[k]);
      parents := parents + [Trim(all[k], groups)];
      FlatMapStep(all, k, buildInlinable);
      inlinable := inlinable + groups;
      k := k + 1;
    }
    assert all[..k] == all;
  }

  /** No node of an inlinable group stays in the traversal of the group it was extracted from. */
  lemma InlinedNodesRemoved(all: seq<DspGroup>, buildInlinable: DspGroup -> seq<DspGroup>, k: nat, i: nat, id: NodeId)
    requires k < |all| && i < |buildInlinable(all[k])|
    requires id in buildInlinable(all[k])[i].traversal
    ensures id !in Parents(all, buildInlinable)[k].traversal
  {
  }

  // ---------------------------------------------------------------------
  // Numbered cold groups
  // ---------------------------------------------------------------------

  function DigitChar(d: nat): char
    requires d < 10
  {
    (48 + d) as char
  }

  /** `${index}`: the decimal text of a natural number. */
  function NatToString(n: nat): (r: string)
    ensures |r| >= 1
  {
    if n < 10 then [DigitChar(n)] else NatToString(n / 10) + [DigitChar(n % 10)]
  }

  /** Distinct indexes give distinct group ids. */
  lemma {:induction false} NatToStringInjective(a: nat, b: nat)
    requires NatToString(a) == NatToString(b)
    ensures a == b
  {
    var sa, sb := NatToString(a), NatToString(b);
    assert DigitChar(a % 10) == sa[|sa| - 1] == sb[|sb| - 1] == DigitChar(b % 10);
    if 10 <= a && 10 <= b {
      assert sa[..|sa| - 1] == NatToString(a / 10);
      assert sb[..|sb| - 1] == NatToString(b / 10);
      NatToStringInjective(a / 10, b / 10);
    }
  }

  lemma NatToStringExamples()
    ensures NatToString(0) == "0" && NatToString(7) == "7" && NatToString(12) == "12"
  {
    assert NatToString(12) == NatToString(1) + [DigitChar(2)];
  }

  /** Cold group `i` under the id `${i}`, with the connections that trigger it. */
  function ColdEntries(cold: seq<DspGroup>, sinkConnections: DspGroup -> seq<Connection>): (r: seq<(string, ColdDspGroup)>)
    ensures |r| == |cold|
    ensures forall i :: 0 <= i < |cold| ==> r[i] == (NatToString(i), ColdDspGroup(cold[i], sinkConnections(cold[i])))
  {
    seq(|cold|, i requires 0 <= i < |cold| => (NatToString(i), ColdDspGroup(cold[i], sinkConnections(cold[i]))))
  }

  /**
   * Stored into a precompilation that has no cold groups yet, the cold groups
   * are listed under "0", "1", … in build order, each id used once.
   */
  lemma ColdGroupsNumbered(cold: seq<DspGroup>, sinkConnections: DspGroup -> seq<Connection>)
    ensures DistinctKeys(ColdEntries(cold, sinkConnections))
    ensures PutAll([], ColdEntries(cold, sinkConnections)) == ColdEntries(cold, sinkConnections)
  {
    var entries := ColdEntries(cold, sinkConnections);
    forall i, j | 0 <= i < j < |entries| ensures entries[i].0 != entries[j].0 {
      if entries[i].0 == entries[j].0 {
        NatToStringInjective(i, j);
      }
    }
    PutAllDistinct(entries);
  }

  // ---------------------------------------------------------------------
  // The trace of precompiler calls
  // ---------------------------------------------------------------------

  /** One call of a precompiler the orchestrator makes, with the arguments that identify it. */
  datatype Event =
    | StateClass(nodeType: string)
    | Core(nodeType: string)
    | AttachColdGroup(groupId: string)
    | AttachIoMessages
    | SignalInletWithNoSource(nodeId: NodeId, portletId: PortletId)
    | MessageInlet(nodeId: NodeId, portletId: PortletId)
    | MessageOutlet(nodeId: NodeId, portletId: PortletId)
    | SignalOutlet(nodeId: NodeId, portletId: PortletId)
    | InlineLoop(group: DspGroup)
    | Caching(nodeId: NodeId)
    | Loop(nodeId: NodeId)
    | State(nodeId: NodeId)
    | Initialization(nodeId: NodeId)
    | MessageReceivers(nodeId: NodeId)
    | PrecompileDependencies

  /** The phase a call belongs to, numbered in the order the orchestrator runs the phases. */
  function Rank(e: Event): nat {
    match e
    case StateClass(_) | Core(_) => 0
    case AttachColdGroup(_) => 1
    case AttachIoMessages => 2
    case SignalInletWithNoSource(_, _) | MessageInlet(_, _) => 3
    case MessageOutlet(_, _) => 4
    case SignalOutlet(_, _) => 5
    case InlineLoop(_) => 6
    case Caching(_) | Loop(_) => 7
    case State(_) | Initialization(_) | MessageReceivers(_) => 8
    case PrecompileDependencies => 9
  }

  /** The calls made for one node implementation. */
  function ImplementationEvents(nodeType: string): seq<Event> {
    [StateClass(nodeType), Core(nodeType)]
  }

  /** The calls made for the cold groups numbered below `n`. */
  function ColdAttachEvents(n: nat): (r: seq<Event>)
    ensures |r| == n && forall i :: 0 <= i < n ==> r[i] == AttachColdGroup(NatToString(i))
  {
    seq(n, i requires 0 <= i < n => AttachColdGroup(NatToString(i)))
  }

  lemma ColdAttachEventsNext(n: nat)
    ensures ColdAttachEvents(n + 1) == ColdAttachEvents(n) + [AttachColdGroup(NatToString(n))]
  {
  }

  /** A message inlet is always precompiled; a signal inlet only when nothing is connected to it. */
  function InletEvent(node: Node, inlet: Portlet): seq<Event> {
    if inlet.portletType == Signal then
      (if |Sources(node, inlet.id)| == 0 then [SignalInletWithNoSource(node.id, inlet.id)] else [])
    else [MessageInlet(node.id, inlet.id)]
  }

  function NodeInletEvents(node: Node): seq<Event> {
    FlatMapWith(node, node.inlets, InletEvent)
  }

  function MessageOutletEvent(node: Node, outlet: Portlet): seq<Event> {
    if outlet.portletType == Message then [MessageOutlet(node.id, outlet.id)] else []
  }

  function NodeMessageOutletEvents(node: Node): seq<Event> {
    FlatMapWith(node, node.outlets, MessageOutletEvent)
  }

  /** Every outlet of a node of a group gets the signal outlet precompiler, whatever its type. */
  function SignalOutletEvent(node: Node, outlet: Portlet): seq<Event> {
    [SignalOutlet(node.id, outlet.id)]
  }

  function NodeSignalOutletEvents(graph: Graph, id: NodeId): seq<Event> {
    if id in graph.nodes then FlatMapWith(graph.nodes[id], graph.nodes[id].outlets, SignalOutletEvent) else []
  }

  function GroupSignalOutletEvents(graph: Graph, g: DspGroup): seq<Event> {
    FlatMapWith(graph, g.traversal, NodeSignalOutletEvents)
  }

  function InlineLoopEvents(g: DspGroup): seq<Event> {
    [InlineLoop(g)]
  }

  function NodeDspEvents(graph: Graph, id: NodeId): seq<Event> {
    if id in graph.nodes then [Caching(graph.nodes[id].id), Loop(graph.nodes[id].id)] else []
  }

  function GroupDspEvents(graph: Graph, g: DspGroup): seq<Event> {
    FlatMapWith(graph, g.traversal, NodeDspEvents)
  }

  function NodeEvents(node: Node): seq<Event> {
    [State(node.id), Initialization(node.id), MessageReceivers(node.id)]
  }

  /**
   * What the phases work on: the graph, the nodes of the full traversal, the
   * node types with an implementation, the hot and cold groups once trimmed
   * and the inlinable groups.
   */
  datatype PhaseInputs = PhaseInputs(
    graph: Graph,
    nodes: seq<Node>,
    nodeTypes: seq<string>,
    hot: DspGroup,
    cold: seq<DspGroup>,
    inlinable: seq<DspGroup>)

  /** The calls of phase `k`, `k` numbering the phases in the order they run. */
  function Phase(r: PhaseInputs, k: nat): seq<Event>
    requires k < 10
  {
    if k == 0 then FlatMap(r.nodeTypes, ImplementationEvents)
    else if k == 1 then ColdAttachEvents(|r.cold|)
    else if k == 2 then [AttachIoMessages]
    else if k == 3 then FlatMap(r.nodes, NodeInletEvents)
    else if k == 4 then FlatMap(r.nodes, NodeMessageOutletEvents)
    else if k == 5 then FlatMapWith(r.graph, [r.hot] + r.cold, GroupSignalOutletEvents)
    else if k == 6 then FlatMap(r.inlinable, InlineLoopEvents)
    else if k == 7 then FlatMapWith(r.graph, [r.hot] + r.cold, GroupDspEvents)
    else if k == 8 then FlatMap(r.nodes, NodeEvents)
    else [PrecompileDependencies]
  }

  /** The calls of the first `n` phases. */
  function TraceUpTo(r: PhaseInputs, n: nat): seq<Event>
    requires n <= 10
  {
    if n == 0 then [] else TraceUpTo(r, n - 1) + Phase(r, n - 1)
  }

  /** The calls of a whole run, in the order they are made. */
  function Trace(r: PhaseInputs): seq<Event> {
    TraceUpTo(r, 10)
  }

  ghost predicate InPhase(p: seq<Event>, k: nat) {
    forall e :: e in p ==> Rank(e) == k
  }

  ghost predicate Ordered(s: seq<Event>) {
    forall i, j :: 0 <= i < j < |s| ==> Rank(s[i]) <= Rank(s[j])
  }

  lemma FlatMapInPhase<T>(xs: seq<T>, f: T -> seq<Event>, k: nat)
    requires forall i :: 0 <= i < |xs| ==> InPhase(f(xs[i]), k)
    ensures InPhase(FlatMap(xs, f), k)
  {
    forall e | e in FlatMap(xs, f) ensures Rank(e) == k {
      FlatMapMembers(xs, f, e);
    }
  }

  lemma FlatMapWithInPhase<C, T>(c: C, xs: seq<T>, f: (C, T) -> seq<Event>, k: nat)
    requires forall i :: 0 <= i < |xs| ==> InPhase(f(c, xs[i]), k)
    ensures InPhase(FlatMapWith(c, xs, f), k)
  {
    forall e | e in FlatMapWith(c, xs, f) ensures Rank(e) == k {
      FlatMapWithMembers(c, xs, f, e);
    }
  }

  lemma InletPhaseRanked(nodes: seq<Node>)
    ensures InPhase(FlatMap(nodes, NodeInletEvents), 3)
  {
    forall i | 0 <= i < |nodes| ensures InPhase(NodeInletEvents(nodes[i]), 3) {
      FlatMapWithInPhase(nodes[i], nodes[i].inlets, InletEvent, 3);
    }
    FlatMapInPhase(nodes, NodeInletEvents, 3);
  }

  lemma MessageOutletPhaseRanked(nodes: seq<Node>)
    ensures InPhase(FlatMap(nodes, NodeMessageOutletEvents), 4)
  {
    forall i | 0 <= i < |nodes| ensures InPhase(NodeMessageOutletEvents(nodes[i]), 4) {
      FlatMapWithInPhase(nodes[i], nodes[i].outlets, MessageOutletEvent, 4);
    }
    FlatMapInPhase(nodes, NodeMessageOutletEvents, 4);
  }

  lemma SignalOutletGroupRanked(graph: Graph, g: DspGroup)
    ensures InPhase(GroupSignalOutletEvents(graph, g), 5)
  {
    forall j | 0 <= j < |g.traversal| ensures InPhase(NodeSignalOutletEvents(graph, g.traversal[j]), 5) {
      var id := g.traversal[j];
      if id in graph.nodes {
        FlatMapWithInPhase(graph.nodes[id], graph.nodes[id].outlets, SignalOutletEvent, 5);
      }
    }
    FlatMapWithInPhase(graph, g.traversal, NodeSignalOutletEvents, 5);
  }

  lemma SignalOutletPhaseRanked(graph: Graph, groups: seq<DspGroup>)
    ensures InPhase(FlatMapWith(graph, groups, GroupSignalOutletEvents), 5)
  {
    forall i | 0 <= i < |groups| ensures InPhase(GroupSignalOutletEvents(graph, groups[i]), 5) {
      SignalOutletGroupRanked(graph, groups[i]);
    }
    FlatMapWithInPhase(graph, groups, GroupSignalOutletEvents, 5);
  }

  lemma DspPhaseRanked(graph: Graph, groups: seq<DspGroup>)
    ensures InPhase(FlatMapWith(graph, groups, GroupDspEvents), 7)
  {
    forall i | 0 <= i < |groups| ensures InPhase(GroupDspEvents(graph, groups[i]), 7) {
      FlatMapWithInPhase(graph, groups[i].traversal, NodeDspEvents, 7);
    }
    FlatMapWithInPhase(graph, groups, GroupDspEvents, 7);
  }

  /** Phase `k` of a run makes only calls of rank `k`. */
  lemma PhaseRanked(r: PhaseInputs, k: nat)
    requires k < 10
    ensures InPhase(Phase(r, k), k)
  {
    if k == 0 {
      FlatMapInPhase(r.nodeTypes, ImplementationEvents, 0);
    } else if k == 3 {
      InletPhaseRanked(r.nodes);
    } else if k == 4 {
      MessageOutletPhaseRanked(r.nodes);
    } else if k == 5 {
      SignalOutletPhaseRanked(r.graph, [r.hot] + r.cold);
    } else if k == 6 {
      FlatMapInPhase(r.inlinable, InlineLoopEvents, 6);
    } else if k == 7 {
      DspPhaseRanked(r.graph, [r.hot] + r.cold);
    } else if k == 8 {
      FlatMapInPhase(r.nodes, NodeEvents, 8);
    }
  }

  /** Calls of rank `n` appended after ordered calls of lower ranks keep the order. */
  lemma OrderedAppend(a: seq<Event>, b: seq<Event>, n: nat)
    requires Ordered(a) && (forall e :: e in a ==> Rank(e) < n) && InPhase(b, n)
    ensures Ordered(a + b)
  {
    forall i, j | 0 <= i < j < |a + b| ensures Rank((a + b)[i]) <= Rank((a + b)[j]) {
      if j < |a| {
        assert (a + b)[i] == a[i] && (a + b)[j] == a[j];
      } else if i < |a| {
        assert (a + b)[i] == a[i] && a[i] in a;
        assert (a + b)[j] == b[j - |a|] && b[j - |a|] in b;
      } else {
        assert (a + b)[i] == b[i - |a|] && b[i - |a|] in b;
        assert (a + b)[j] == b[j - |a|] && b[j - |a|] in b;
      }
    }
  }

  /** The first `n` phases make calls ordered by phase, all of a phase below `n`. */
  lemma {:induction false} TraceUpToOrdered(r: PhaseInputs, n: nat)
    requires n <= 10
    ensures Ordered(TraceUpTo(r, n))
    ensures forall e :: e in TraceUpTo(r, n) ==> Rank(e) < n
  {
    if n > 0 {
      TraceUpToOrdered(r, n - 1);
      PhaseRanked(r, n - 1);
      OrderedAppend(TraceUpTo(r, n - 1), Phase(r, n - 1), n - 1);
    }
  }

  /** A call of the first `n` phases is made by the phase its rank names. */
  lemma {:induction false} TraceUpToLocates(r: PhaseInputs, n: nat, e: Event)
    requires n <= 10
    ensures e in TraceUpTo(r, n) <==> Rank(e) < n && e in Phase(r, Rank(e))
  {
    if n > 0 {
      TraceUpToLocates(r, n - 1, e);
      PhaseRanked(r, n - 1);
    }
  }

  /** Appending the calls of phase `k` to the first `k` phases gives the first `k + 1`. */
  lemma TraceStep(r: PhaseInputs, k: nat, s: seq<Event>, before: seq<Event>, after: seq<Event>)
    requires k < 10
    requires before == s + TraceUpTo(r, k) && after == before + Phase(r, k)
    ensures after == s + TraceUpTo(r, k + 1)
  {
    AppendAssoc(s, TraceUpTo(r, k), Phase(r, k));
  }

  lemma AppendAssoc<T>(a: seq<T>, b: seq<T>, c: seq<T>)
    ensures a + b + c == a + (b + c)
  {
  }

  /** The trace of a run, phase after phase, after whatever calls came before. */
  lemma TraceParts(r: PhaseInputs, s: seq<Event>)
    ensures var groups := [r.hot] + r.cold;
      s + FlatMap(r.nodeTypes, ImplementationEvents) + ColdAttachEvents(|r.cold|)
        + [AttachIoMessages] + FlatMap(r.nodes, NodeInletEvents)
        + FlatMap(r.nodes, NodeMessageOutletEvents) + FlatMapWith(r.graph, groups, GroupSignalOutletEvents)
        + FlatMap(r.inlinable, InlineLoopEvents)
        + FlatMapWith(r.graph, groups, GroupDspEvents) + FlatMap(r.nodes, NodeEvents)
        + [PrecompileDependencies]
      == s + Trace(r)
  {
    var t1 := s + Phase(r, 0);
    TraceStep(r, 0, s, s, t1);
    var t2 := t1 + Phase(r, 1);
    TraceStep(r, 1, s, t1, t2);
    var t3 := t2 + Phase(r, 2);
    TraceStep(r, 2, s, t2, t3);
    var t4 := t3 + Phase(r, 3);
    TraceStep(r, 3, s, t3, t4);
    var t5 := t4 + Phase(r, 4);
    TraceStep(r, 4, s, t4, t5);
    var t6 := t5 + Phase(r, 5);
    TraceStep(r, 5, s, t5, t6);
    var t7 := t6 + Phase(r, 6);
    TraceStep(r, 6, s, t6, t7);
    var t8 := t7 + Phase(r, 7);
    TraceStep(r, 7, s, t7, t8);
    var t9 := t8 + Phase(r, 8);
    TraceStep(r, 8, s, t8, t9);
    TraceStep(r, 9, s, t9, t9 + Phase(r, 9));
  }

  /** A call is in the trace exactly when its own phase makes it. */
  lemma TraceLocates(r: PhaseInputs, e: Event)
    ensures e in Trace(r) <==> Rank(e) < 10 && e in Phase(r, Rank(e))
  {
    TraceUpToLocates(r, 10, e);
  }

  /** The calls are made phase by phase: a call of an earlier phase always comes first. */
  lemma PhaseOrder(r: PhaseInputs, i: nat, j: nat)
    requires i < |Trace(r)| && j < |Trace(r)|
    requires Rank(Trace(r)[i]) < Rank(Trace(r)[j])
    ensures i < j
  {
    TraceUpToOrdered(r, 10);
  }

  /** Message outlets are precompiled only once every inlet of every node has been. */
  lemma MessageOutletsAfterInlets(r: PhaseInputs, i: nat, j: nat)
    requires i < |Trace(r)| && j < |Trace(r)|
    requires Trace(r)[i].SignalInletWithNoSource? || Trace(r)[i].MessageInlet?
    requires Trace(r)[j].MessageOutlet?
    ensures i < j
  {
    PhaseOrder(r, i, j);
  }

  /** The dependencies are precompiled once, by the last call. */
  lemma DependenciesLast(r: PhaseInputs)
    ensures |Trace(r)| > 0 && Trace(r)[|Trace(r)| - 1] == PrecompileDependencies
    ensures forall i :: 0 <= i < |Trace(r)| - 1 ==> Trace(r)[i] != PrecompileDependencies
  {
    TraceUpToOrdered(r, 9);
    var a := TraceUpTo(r, 9);
    assert Trace(r) == a + [PrecompileDependencies];
    forall i | 0 <= i < |Trace(r)| - 1 ensures Trace(r)[i] != PrecompileDependencies {
      assert Trace(r)[i] == a[i] && a[i] in a;
    }
  }

  /** A message inlet is precompiled exactly when some node of the full traversal has it. */
  lemma MessageInletsPrecompiled(r: PhaseInputs, n: NodeId, p: PortletId)
    ensures MessageInlet(n, p) in Trace(r) <==>
      exists k, j :: 0 <= k < |r.nodes| && 0 <= j < |r.nodes[k].inlets| &&
        r.nodes[k].id == n && r.nodes[k].inlets[j] == Portlet(p, Message)
  {
    var e := MessageInlet(n, p);
    TraceLocates(r, e);
    FlatMapMembers(r.nodes, NodeInletEvents, e);
    forall k | 0 <= k < |r.nodes|
      ensures e in NodeInletEvents(r.nodes[k]) <==>
        exists j :: 0 <= j < |r.nodes[k].inlets| && r.nodes[k].id == n && r.nodes[k].inlets[j] == Portlet(p, Message)
    {
      FlatMapWithMembers(r.nodes[k], r.nodes[k].inlets, InletEvent, e);
    }
  }

  /** A signal inlet is precompiled exactly when some node of the full traversal has it with no sources. */
  lemma SignalInletsPrecompiled(r: PhaseInputs, n: NodeId, p: PortletId)
    ensures SignalInletWithNoSource(n, p) in Trace(r) <==>
      exists k, j :: 0 <= k < |r.nodes| && 0 <= j < |r.nodes[k].inlets| &&
        r.nodes[k].id == n && r.nodes[k].inlets[j] == Portlet(p, Signal) && Sources(r.nodes[k], p) == []
  {
    var e := SignalInletWithNoSource(n, p);
    TraceLocates(r, e);
    FlatMapMembers(r.nodes, NodeInletEvents, e);
    forall k | 0 <= k < |r.nodes|
      ensures e in NodeInletEvents(r.nodes[k]) <==>
        exists j :: 0 <= j < |r.nodes[k].inlets| && r.nodes[k].id == n &&
          r.nodes[k].inlets[j] == Portlet(p, Signal) && Sources(r.nodes[k], p) == []
    {
      FlatMapWithMembers(r.nodes[k], r.nodes[k].inlets, InletEvent, e);
    }
  }

  /** A call of the node phase is made exactly for the nodes of the full traversal. */
  lemma NodeCallsPrecompiled(r: PhaseInputs, e: Event)
    requires e.State? || e.Initialization? || e.MessageReceivers?
    ensures e in Trace(r) <==> exists k :: 0 <= k < |r.nodes| && r.nodes[k].id == e.nodeId
  {
    TraceLocates(r, e);
    assert Phase(r, 8) == FlatMap(r.nodes, NodeEvents);
    FlatMapMembers(r.nodes, NodeEvents, e);
  }

  /** Every node of the full traversal gets its state, initialization and receivers precompiled, and no other node does. */
  lemma EveryNodePrecompiled(r: PhaseInputs, n: NodeId)
    ensures State(n) in Trace(r) <==> exists k :: 0 <= k < |r.nodes| && r.nodes[k].id == n
    ensures Initialization(n) in Trace(r) <==> exists k :: 0 <= k < |r.nodes| && r.nodes[k].id == n
    ensures MessageReceivers(n) in Trace(r) <==> exists k :: 0 <= k < |r.nodes| && r.nodes[k].id == n
  {
    NodeCallsPrecompiled(r, State(n));
    NodeCallsPrecompiled(r, Initialization(n));
    NodeCallsPrecompiled(r, MessageReceivers(n));
  }

  /** An inline loop is precompiled exactly for the inlinable groups, once per group in order. */
  lemma InlineLoopPerGroup(r: PhaseInputs, g: DspGroup)
    ensures InlineLoop(g) in Trace(r) <==> g in r.inlinable
    ensures |Phase(r, 6)| == |r.inlinable|
  {
    TraceLocates(r, InlineLoop(g));
    FlatMapMembers(r.inlinable, InlineLoopEvents, InlineLoop(g));
    InlineLoopCount(r.inlinable);
  }

  lemma {:induction false} InlineLoopCount(gs: seq<DspGroup>)
    ensures |FlatMap(gs, InlineLoopEvents)| == |gs|
  {
    if gs != [] {
      InlineLoopCount(gs[..|gs| - 1]);
    }
  }

  /** The phase inputs of a run over `all`, the hot group followed by the cold groups. */
  function InputsOf(graph: Graph, nodes: seq<Node>, nodeTypes: seq<string>,
                    all: seq<DspGroup>, buildInlinable: DspGroup -> seq<DspGroup>): PhaseInputs
    requires |all| >= 1
  {
    var parents := Parents(all, buildInlinable);
    PhaseInputs(graph, nodes, nodeTypes, parents[0], parents[1..], FlatMap(all, buildInlinable))
  }

  /**
   * What `Precompiler.Precompile` appends to the trace, phase after phase,
   * is the trace of the run's inputs.
   */
  lemma RunIsTrace(graph: Graph, nodes: seq<Node>, nodeTypes: seq<string>,
                   all: seq<DspGroup>, buildInlinable: DspGroup -> seq<DspGroup>, s: seq<Event>)
    requires |all| >= 1
    ensures var parents := Parents(all, buildInlinable);
      s + FlatMap(nodeTypes, ImplementationEvents) + ColdAttachEvents(|parents| - 1)
        + [AttachIoMessages] + FlatMap(nodes, NodeInletEvents)
        + FlatMap(nodes, NodeMessageOutletEvents) + FlatMapWith(graph, parents, GroupSignalOutletEvents)
        + FlatMap(FlatMap(all, buildInlinable), InlineLoopEvents)
        + FlatMapWith(graph, parents, GroupDspEvents) + FlatMap(nodes, NodeEvents) + [PrecompileDependencies]
      == s + Trace(InputsOf(graph, nodes, nodeTypes, all, buildInlinable))
  {
    var r := InputsOf(graph, nodes, nodeTypes, all, buildInlinable);
    assert [r.hot] + r.cold == Parents(all, buildInlinable);
    TraceParts(r, s);
  }

  /** A graph whose nodes are stored under their own ids. */
  predicate KeyedById(graph: Graph) {
    forall id :: id in graph.nodes ==> graph.nodes[id].id == id
  }

  /** Node `n` is still in some hot or cold group after inlining, and not inlined from it. */
  predicate KeptIn(n: NodeId, all: seq<DspGroup>, buildInlinable: DspGroup -> seq<DspGroup>) {
    exists k :: 0 <= k < |all| && n in all[k].traversal && !InlinedBy(n, buildInlinable(all[k]))
  }

  /** A caching or loop call names a node of one of the run's groups. */
  lemma DspCallNode(r: PhaseInputs, e: Event)
    requires e.Caching? || e.Loop?
    requires e in Trace(r) && KeyedById(r.graph)
    ensures exists k :: 0 <= k < 1 + |r.cold| && e.nodeId in ([r.hot] + r.cold)[k].traversal
  {
    TraceLocates(r, e);
    GroupDspCallNode(r.graph, [r.hot] + r.cold, e);
  }

  /** A caching or loop call of some groups names a node of one of them. */
  lemma GroupDspCallNode(graph: Graph, groups: seq<DspGroup>, e: Event)
    requires e.Caching? || e.Loop?
    requires e in FlatMapWith(graph, groups, GroupDspEvents) && KeyedById(graph)
    ensures exists k :: 0 <= k < |groups| && e.nodeId in groups[k].traversal
  {
    FlatMapWithMembers(graph, groups, GroupDspEvents, e);
    var k :| 0 <= k < |groups| && e in GroupDspEvents(graph, groups[k]);
    FlatMapWithMembers(graph, groups[k].traversal, NodeDspEvents, e);
    var j :| 0 <= j < |groups[k].traversal| && e in NodeDspEvents(graph, groups[k].traversal[j]);
    assert groups[k].traversal[j] == e.nodeId;
  }


  /** A signal outlet call names a node of one of the run's groups. */
  lemma SignalOutletCallNode(r: PhaseInputs, e: Event)
    requires e.SignalOutlet?
    requires e in Trace(r) && KeyedById(r.graph)
    ensures exists k :: 0 <= k < 1 + |r.cold| && e.nodeId in ([r.hot] + r.cold)[k].traversal
  {
    TraceLocates(r, e);
    GroupSignalOutletCallNode(r.graph, [r.hot] + r.cold, e);
  }

  /** A signal outlet call of some groups names a node of one of them. */
  lemma GroupSignalOutletCallNode(graph: Graph, groups: seq<DspGroup>, e: Event)
    requires e.SignalOutlet?
    requires e in FlatMapWith(graph, groups, GroupSignalOutletEvents) && KeyedById(graph)
    ensures exists k :: 0 <= k < |groups| && e.nodeId in groups[k].traversal
  {
    FlatMapWithMembers(graph, groups, GroupSignalOutletEvents, e);
    var k :| 0 <= k < |groups| && e in GroupSignalOutletEvents(graph, groups[k]);
    FlatMapWithMembers(graph, groups[k].traversal, NodeSignalOutletEvents, e);
    var j :| 0 <= j < |groups[k].traversal| && e in NodeSignalOutletEvents(graph, groups[k].traversal[j]);
    var id := groups[k].traversal[j];
    FlatMapWithMembers(graph.nodes[id], graph.nodes[id].outlets, SignalOutletEvent, e);
    assert id == e.nodeId;
  }


  /** A node in one of the trimmed groups is kept in the group it came from. */
  lemma TrimmedNodeKept(all: seq<DspGroup>, buildInlinable: DspGroup -> seq<DspGroup>, n: NodeId)
    requires |all| >= 1
    requires exists k :: 0 <= k < |all| && n in Parents(all, buildInlinable)[k].traversal
    ensures KeptIn(n, all, buildInlinable)
  {
    var k :| 0 <= k < |all| && n in Parents(all, buildInlinable)[k].traversal;
    assert n in all[k].traversal && !InlinedBy(n, buildInlinable(all[k]));
  }

  /** Caching and loops are precompiled only for nodes left in a hot or cold group after inlining. */
  lemma DspOnlyForKeptNodes(graph: Graph, nodes: seq<Node>, nodeTypes: seq<string>,
                            all: seq<DspGroup>, buildInlinable: DspGroup -> seq<DspGroup>, n: NodeId)
    requires |all| >= 1 && KeyedById(graph)
    requires Caching(n) in Trace(InputsOf(graph, nodes, nodeTypes, all, buildInlinable))
          || Loop(n) in Trace(InputsOf(graph, nodes, nodeTypes, all, buildInlinable))
    ensures KeptIn(n, all, buildInlinable)
  {
    var r := InputsOf(graph, nodes, nodeTypes, all, buildInlinable);
    assert [r.hot] + r.cold == Parents(all, buildInlinable);
    DspCallNode(r, if Caching(n) in Trace(r) then Caching(n) else Loop(n));
    TrimmedNodeKept(all, buildInlinable, n);
  }

  /** Signal outlets are precompiled only for nodes left in a hot or cold group after inlining. */
  lemma SignalOutletsOnlyForKeptNodes(graph: Graph, nodes: seq<Node>, nodeTypes: seq<string>,
                                      all: seq<DspGroup>, buildInlinable: DspGroup -> seq<DspGroup>, n: NodeId, o: PortletId)
    requires |all| >= 1 && KeyedById(graph)
    requires SignalOutlet(n, o) in Trace(InputsOf(graph, nodes, nodeTypes, all, buildInlinable))
    ensures KeptIn(n, all, buildInlinable)
  {
    var r := InputsOf(graph, nodes, nodeTypes, all, buildInlinable);
    assert [r.hot] + r.cold == Parents(all, buildInlinable);
    SignalOutletCallNode(r, SignalOutlet(n, o));
    TrimmedNodeKept(all, buildInlinable, n);
  }

  // ---------------------------------------------------------------------
  // The orchestrator
  // ---------------------------------------------------------------------

  /**
   * The dsp group builders the orchestrator calls, each already applied to
   * the compilation: `buildGraphTraversalSignal`, `buildColdDspGroups`,
   * `buildHotDspGroup`, `buildInlinableDspGroups` and
   * `buildGroupSinkConnections`.
   */
  datatype Helpers = Helpers(
    signalTraversal: Graph -> Traversal,
    buildCold: DspGroup -> seq<DspGroup>,
    buildHot: (DspGroup, seq<DspGroup>) -> DspGroup,
    buildInlinable: DspGroup -> seq<DspGroup>,
    sinkConnections: DspGroup -> seq<Connection>)

  /** The hot group followed by the cold groups, as built from the root group. */
  function AllGroups(graph: Graph, h: Helpers): (all: seq<DspGroup>)
    requires InGraph(graph, graph.keys)
    ensures |all| >= 1
  {
    var root := RootDspGroup(graph, h.signalTraversal);
    var cold := h.buildCold(root);
    [h.buildHot(root, cold)] + cold
  }

  /** The builders only return groups of nodes of the graph. */
  predicate GroupsInGraph(graph: Graph, h: Helpers)
    requires InGraph(graph, graph.keys)
  {
    forall k :: 0 <= k < |AllGroups(graph, h)| ==> InGraph(graph, AllGroups(graph, h)[k].traversal)
  }

  /** A trimmed group holds only nodes of the group it came from, so of the graph. */
  lemma TrimmedInGraph(graph: Graph, all: seq<DspGroup>, buildInlinable: DspGroup -> seq<DspGroup>)
    requires forall k :: 0 <= k < |all| ==> InGraph(graph, all[k].traversal)
    ensures forall k :: 0 <= k < |all| ==> InGraph(graph, Parents(all, buildInlinable)[k].traversal)
  {
    var parents := Parents(all, buildInlinable);
    forall k, i | 0 <= k < |all| && 0 <= i < |parents[k].traversal|
      ensures parents[k].traversal[i] in graph.nodes
    {
      assert parents[k].traversal[i] in parents[k].traversal;
      var j :| 0 <= j < |all[k].traversal| && all[k].traversal[j] == parents[k].traversal[i];
    }
  }

  // ------------------------ Initialization ------------------------ //

  /** The implementations the compiler is given, keyed by node type. */
  type Implementations = seq<(string, NodeImplementation)>

  predicate KnownType(impls: Implementations, nodeType: string) {
    exists i :: 0 <= i < |impls| && impls[i].0 == nodeType
  }

  /** The implementation of a node type, or an error naming the type when none is registered. */
  function LookupImplementation(impls: Implementations, nodeType: string): (r: Result<NodeImplementation, string>)
    ensures r.Success? <==> KnownType(impls, nodeType)
    ensures r.Success? ==> exists i :: 0 <= i < |impls| && impls[i] == (nodeType, r.value)
    ensures r.Failure? ==> r.error == "unknown node type " + nodeType
  {
    if impls == [] then Failure("unknown node type " + nodeType)
    else if impls[0].0 == nodeType then Success(impls[0].1)
    else
      var r := LookupImplementation(impls[1..], nodeType);
      assert KnownType(impls[1..], nodeType) ==> KnownType(impls, nodeType) by {
        if KnownType(impls[1..], nodeType) {
          var i :| 0 <= i < |impls[1..]| && impls[1..][i].0 == nodeType;
          assert impls[i + 1].0 == nodeType;
        }
      }
      assert r.Success? ==> exists i :: 0 <= i < |impls| && impls[i] == (nodeType, r.value) by {
        if r.Success? {
          var i :| 0 <= i < |impls[1..]| && impls[1..][i] == (nodeType, r.value);
          assert impls[i + 1] == (nodeType, r.value);
        }
      }
      r
  }

  /** What a node starts with: its implementation and state name, and nothing precompiled yet. */
  predicate Initial(p: PrecompiledNode, impl: NodeImplementation, stateName: VariableName) {
    && p.nodeImplementation == impl
    && p.generationContext == GenerationContext([], [], [], [], stateName)
    && p.stateInitialization.None? && p.state.None?
    && p.initialization == Sequence([]) && p.loop == Sequence([])
    && p.signalOuts == [] && p.messageReceivers == [] && p.messageSenders == [] && p.caching == []
  }

  /** The index holds the names of every node of the graph, under the node's own id. */
  predicate Indexed(graph: Graph, index: VariableNamesIndex) {
    forall i :: 0 <= i < |graph.keys| && graph.keys[i] in graph.nodes ==> graph.nodes[graph.keys[i]].id in index.nodes
  }

  /**
   * The starting record of every node listed in `keys`, or the error of the
   * first one whose type has no implementation.
   */
  function InitialNodes(graph: Graph, keys: seq<NodeId>, impls: Implementations, index: VariableNamesIndex)
    : (r: Result<map<NodeId, PrecompiledNode>, string>)
    requires InGraph(graph, keys)
    requires forall i :: 0 <= i < |keys| ==> graph.nodes[keys[i]].id in index.nodes
    ensures r.Success? <==> forall i :: 0 <= i < |keys| ==> KnownType(impls, graph.nodes[keys[i]].nodeType)
    ensures r.Failure? ==>
      exists i :: 0 <= i < |keys| && r.error == "unknown node type " + graph.nodes[keys[i]].nodeType
    ensures r.Success? ==> forall id :: id in r.value <==> id in keys
  {
    if keys == [] then Success(map[])
    else
      var id := keys[0];
      match LookupImplementation(impls, graph.nodes[id].nodeType)
      case Failure(e) => Failure(e)
      case Success(impl) =>
        var node := PrecompiledNode(impl, GenerationContext([], [], [], [], index.nodes[graph.nodes[id].id].state),
                                    None, Sequence([]), Sequence([]), [], [], [], [], None);
        match InitialNodes(graph, keys[1..], impls, index)
        case Failure(e) =>
          assert exists i :: 0 <= i < |keys| && e == "unknown node type " + graph.nodes[keys[i]].nodeType by {
            var i :| 0 <= i < |keys[1..]| && e == "unknown node type " + graph.nodes[keys[1..][i]].nodeType;
            assert keys[1..][i] == keys[i + 1];
          }
          Failure(e)
        case Success(rest) =>
          assert forall i :: 0 <= i < |keys| ==> KnownType(impls, graph.nodes[keys[i]].nodeType) by {
            forall i | 0 <= i < |keys|
              ensures KnownType(impls, graph.nodes[keys[i]].nodeType)
            {
              if i > 0 { assert keys[i] == keys[1..][i - 1]; }
            }
          }
          Success(rest[id := node])
  }

  /** Every node the initialization records starts out initial. */
  lemma {:induction false} InitialNodesAreInitial(graph: Graph, keys: seq<NodeId>, impls: Implementations,
                                                  index: VariableNamesIndex, id: NodeId)
    requires InGraph(graph, keys)
    requires forall i :: 0 <= i < |keys| ==> graph.nodes[keys[i]].id in index.nodes
    requires InitialNodes(graph, keys, impls, index).Success? && id in InitialNodes(graph, keys, impls, index).value
    ensures LookupImplementation(impls, graph.nodes[id].nodeType).Success?
    ensures Initial(InitialNodes(graph, keys, impls, index).value[id],
                    LookupImplementation(impls, graph.nodes[id].nodeType).value, index.nodes[graph.nodes[id].id].state)
  {
    if id != keys[0] {
      InitialNodesAreInitial(graph, keys[1..], impls, index, id);
    }
  }

  /** A node type some node of the graph has. */
  predicate UsedInGraph(graph: Graph, nodeType: string) {
    exists id :: id in graph.nodes && graph.nodes[id].nodeType == nodeType
  }

  /**
   * The implementations of the node types the graph uses, in the order they
   * are given, each with no state class and no core yet.
   */
  function UsedImplementations(graph: Graph, impls: Implementations): (r: seq<(string, PrecompiledImplementation)>)
    ensures |r| <= |impls|
    ensures forall e :: e in r ==> e.1.stateClass.None? && e.1.core.None? && UsedInGraph(graph, e.0)
    ensures forall t, impl :: (t, impl) in impls && UsedInGraph(graph, t) ==>
      (t, PrecompiledImplementation(impl, None, None)) in r
    ensures forall e :: e in r ==> (e.0, e.1.nodeImplementation) in impls
  {
    if impls == [] then []
    else
      var rest := UsedImplementations(graph, impls[1..]);
      assert forall e :: e in impls ==> e == impls[0] || e in impls[1..];
      if UsedInGraph(graph, impls[0].0)
      then [(impls[0].0, PrecompiledImplementation(impls[0].1, None, None))] + rest
      else rest
  }

  /**
   * `initializePrecompilation`: every node of the graph starts with its
   * implementation and state name and nothing precompiled; the
   * implementations are those of the node types in use; the dependencies,
   * the hot group and the cold groups start empty. A node whose type has no
   * implementation makes the whole initialization fail.
   */
  function InitializePrecompilation(graph: Graph, fullTraversal: Traversal, impls: Implementations,
                                    index: VariableNamesIndex): (r: Result<Precompilation, string>)
    requires InGraph(graph, graph.keys) && Indexed(graph, index)
    ensures r.Success? <==> forall i :: 0 <= i < |graph.keys| ==> KnownType(impls, graph.nodes[graph.keys[i]].nodeType)
    ensures r.Success? ==> forall id :: id in r.value.nodes <==> id in graph.keys
    ensures r.Success? ==> r.value.nodes == InitialNodes(graph, graph.keys, impls, index).value
    ensures r.Success? ==> r.value.variableNamesIndex == index
    ensures r.Success? ==> r.value.nodeImplementations == UsedImplementations(graph, impls)
    ensures r.Success? ==> r.value.dependencies == Dependencies([], [], Sequence([]))
    ensures r.Success? ==> r.value.graph == PrecompiledGraph(fullTraversal, DspGroup([], []), [])
  {
    match InitialNodes(graph, graph.keys, impls, index)
    case Failure(e) => Failure(e)
    case Success(nodes) =>
      Success(Precompilation(index, nodes, UsedImplementations(graph, impls),
                             Dependencies([], [], Sequence([])),
                             PrecompiledGraph(fullTraversal, DspGroup([], []), [])))
  }

  lemma IndexIn<T>(s: seq<T>, x: T) returns (i: nat)
    requires x in s
    ensures i < |s| && s[i] == x
  {
    i :| 0 <= i < |s| && s[i] == x;
  }

  /** A type is among the used implementations exactly when the graph uses it and it has an implementation. */
  lemma UsedTypes(graph: Graph, impls: Implementations, t: string)
    ensures t in Keys(UsedImplementations(graph, impls)) <==> UsedInGraph(graph, t) && KnownType(impls, t)
  {
    var used := UsedImplementations(graph, impls);
    if t in Keys(used) {
      var k :| 0 <= k < |used| && Keys(used)[k] == t;
      assert used[k] in used;
      assert (t, used[k].1.nodeImplementation) in impls;
    }
    if UsedInGraph(graph, t) && KnownType(impls, t) {
      var j :| 0 <= j < |impls| && impls[j].0 == t;
      assert impls[j] in impls;
      var k :| 0 <= k < |used| && used[k] == (t, PrecompiledImplementation(impls[j].1, None, None));
      assert Keys(used)[k] == t;
    }
  }

  /**
   * When every node has a known type, as once initialization succeeds, the
   * node types the precompiler works through are exactly the types of the
   * graph's nodes.
   */
  lemma UsedImplementationTypes(graph: Graph, impls: Implementations, t: string)
    requires InGraph(graph, graph.keys) && forall id :: id in graph.nodes ==> id in graph.keys
    requires forall i :: 0 <= i < |graph.keys| ==> KnownType(impls, graph.nodes[graph.keys[i]].nodeType)
    ensures t in Keys(UsedImplementations(graph, impls))
      <==> exists i :: 0 <= i < |graph.keys| && graph.nodes[graph.keys[i]].nodeType == t
  {
    UsedTypes(graph, impls, t);
    if UsedInGraph(graph, t) {
      var id :| id in graph.nodes && graph.nodes[id].nodeType == t;
      var i := IndexIn(graph.keys, id);
      assert graph.nodes[graph.keys[i]].nodeType == t;
    }
  }

  /**
   * The precompilation record as the orchestrator updates it: the dsp group
   * fields it assigns, and the trace of the precompilers it calls.
   */
  class Precompiler {
    const graph: Graph
    const fullTraversal: Traversal
    /** The keys of the precompiled node implementations, in order. */
    const nodeTypes: seq<string>
    var hotDspGroup: DspGroup
    var coldDspGroups: seq<(string, ColdDspGroup)>
    var trace: seq<Event>

    constructor(graph: Graph, p: Precompilation)
      ensures this.graph == graph && fullTraversal == p.graph.fullTraversal
      ensures nodeTypes == Keys(p.nodeImplementations)
      ensures hotDspGroup == p.graph.hotDspGroup && coldDspGroups == p.graph.coldDspGroups
      ensures trace == []
    {
      this.graph := graph;
      fullTraversal := p.graph.fullTraversal;
      nodeTypes := Keys(p.nodeImplementations);
      hotDspGroup := p.graph.hotDspGroup;
      coldDspGroups := p.graph.coldDspGroups;
      trace := [];
    }

    /** The state class, then the core, of every node implementation. */
    method PrecompileImplementations()
      modifies this
      ensures trace == old(trace) + FlatMap(nodeTypes, ImplementationEvents)
      ensures hotDspGroup == old(hotDspGroup) && coldDspGroups == old(coldDspGroups)
    {
      var i := 0;
      while i < |nodeTypes|
        invariant 0 <= i <= |nodeTypes|
        invariant trace == old(trace) + FlatMap(nodeTypes[..i], ImplementationEvents)
        invariant hotDspGroup == old(hotDspGroup) && coldDspGroups == old(coldDspGroups)
      {
        FlatMapStep(nodeTypes, i, ImplementationEvents);
        trace := trace + [StateClass(nodeTypes[i])];
        trace := trace + [Core(nodeTypes[i])];
        i := i + 1;
      }
      assert nodeTypes[..i] == nodeTypes;
    }

    /** Stores cold group `i` under `${i}` with its sink connections, and registers its name. */
    method StoreColdGroups(cold: seq<DspGroup>, sinkConnections: DspGroup -> seq<Connection>)
      modifies this
      ensures coldDspGroups == PutAll(old(coldDspGroups), ColdEntries(cold, sinkConnections))
      ensures trace == old(trace) + ColdAttachEvents(|cold|)
      ensures hotDspGroup == old(hotDspGroup)
    {
      var entries := ColdEntries(cold, sinkConnections);
      var i := 0;
      while i < |cold|
        invariant 0 <= i <= |cold|
        invariant coldDspGroups == PutAll(old(coldDspGroups), entries[..i])
        invariant trace == old(trace) + ColdAttachEvents(i)
        invariant hotDspGroup == old(hotDspGroup)
      {
        var groupId := NatToString(i);
        coldDspGroups := Put(coldDspGroups, groupId, ColdDspGroup(cold[i], sinkConnections(cold[i])));
        PutAllPrefix(old(coldDspGroups), entries, i);
        trace := trace + [AttachColdGroup(groupId)];
        ColdAttachEventsNext(i);
        i := i + 1;
      }
      assert entries[..i] == entries;
    }

    method PrecompileNodeInlets(node: Node)
      modifies this
      ensures trace == old(trace) + NodeInletEvents(node)
      ensures hotDspGroup == old(hotDspGroup) && coldDspGroups == old(coldDspGroups)
    {
      var i := 0;
      while i < |node.inlets|
        invariant 0 <= i <= |node.inlets|
        invariant trace == old(trace) + FlatMapWith(node, node.inlets[..i], InletEvent)
        invariant hotDspGroup == old(hotDspGroup) && coldDspGroups == old(coldDspGroups)
      {
        FlatMapWithStep(node, node.inlets, i, InletEvent);
        var inlet := node.inlets[i];
        if inlet.portletType == Signal {
          if |Sources(node, inlet.id)| == 0 {
            trace := trace + [SignalInletWithNoSource(node.id, inlet.id)];
          }
        } else {
          trace := trace + [MessageInlet(node.id, inlet.id)];
        }
        i := i + 1;
      }
      assert node.inlets[..i] == node.inlets;
    }

    /** Every inlet of every node, node by node. */
    method PrecompileInlets(nodes: seq<Node>)
      modifies this
      ensures trace == old(trace) + FlatMap(nodes, NodeInletEvents)
      ensures hotDspGroup == old(hotDspGroup) && coldDspGroups == old(coldDspGroups)
    {
      var i := 0;
      while i < |nodes|
        invariant 0 <= i <= |nodes|
        invariant trace == old(trace) + FlatMap(nodes[..i], NodeInletEvents)
        invariant hotDspGroup == old(hotDspGroup) && coldDspGroups == old(coldDspGroups)
      {
        FlatMapStep(nodes, i, NodeInletEvents);
        PrecompileNodeInlets(nodes[i]);
        i := i + 1;
      }
      assert nodes[..i] == nodes;
    }

    method PrecompileNodeMessageOutlets(node: Node)
      modifies this
      ensures trace == old(trace) + NodeMessageOutletEvents(node)
      ensures hotDspGroup == old(hotDspGroup) && coldDspGroups == old(coldDspGroups)
    {
      var i := 0;
      while i < |node.outlets|
        invariant 0 <= i <= |node.outlets|
        invariant trace == old(trace) + FlatMapWith(node, node.outlets[..i], MessageOutletEvent)
        invariant hotDspGroup == old(hotDspGroup) && coldDspGroups == old(coldDspGroups)
      {
        FlatMapWithStep(node, node.outlets, i, MessageOutletEvent);
        var outlet := node.outlets[i];
        if outlet.portletType == Message {
          trace := trace + [MessageOutlet(node.id, outlet.id)];
        }
        i := i + 1;
      }
      assert node.outlets[..i] == node.outlets;
    }

    /** Every message outlet of every node, node by node. */
    method PrecompileMessageOutlets(nodes: seq<Node>)
      modifies this
      ensures trace == old(trace) + FlatMap(nodes, NodeMessageOutletEvents)
      ensures hotDspGroup == old(hotDspGroup) && coldDspGroups == old(coldDspGroups)
    {
      var i := 0;
      while i < |nodes|
        invariant 0 <= i <= |nodes|
        invariant trace == old(trace) + FlatMap(nodes[..i], NodeMessageOutletEvents)
        invariant hotDspGroup == old(hotDspGroup) && coldDspGroups == old(coldDspGroups)
      {
        FlatMapStep(nodes, i, NodeMessageOutletEvents);
        PrecompileNodeMessageOutlets(nodes[i]);
        i := i + 1;
      }
      assert nodes[..i] == nodes;
    }

    method PrecompileNodeSignalOutlets(node: Node)
      modifies this
      ensures trace == old(trace) + FlatMapWith(node, node.outlets, SignalOutletEvent)
      ensures hotDspGroup == old(hotDspGroup) && coldDspGroups == old(coldDspGroups)
    {
      var i := 0;
      while i < |node.outlets|
        invariant 0 <= i <= |node.outlets|
        invariant trace == old(trace) + FlatMapWith(node, node.outlets[..i], SignalOutletEvent)
        invariant hotDspGroup == old(hotDspGroup) && coldDspGroups == old(coldDspGroups)
      {
        FlatMapWithStep(node, node.outlets, i, SignalOutletEvent);
        trace := trace + [SignalOutlet(node.id, node.outlets[i].id)];
        i := i + 1;
      }
      assert node.outlets[..i] == node.outlets;
    }

    method PrecompileGroupSignalOutlets(g: DspGroup)
      modifies this
      requires InGraph(graph, g.traversal)
      ensures trace == old(trace) + GroupSignalOutletEvents(graph, g)
      ensures hotDspGroup == old(hotDspGroup) && coldDspGroups == old(coldDspGroups)
    {
      var j := 0;
      while j < |g.traversal|
        invariant 0 <= j <= |g.traversal|
        invariant trace == old(trace) + FlatMapWith(graph, g.traversal[..j], NodeSignalOutletEvents)
        invariant hotDspGroup == old(hotDspGroup) && coldDspGroups == old(coldDspGroups)
      {
        FlatMapWithStep(graph, g.traversal, j, NodeSignalOutletEvents);
        PrecompileNodeSignalOutlets(graph.nodes[g.traversal[j]]);
        j := j + 1;
      }
      assert g.traversal[..j] == g.traversal;
    }

    /** Every outlet of every node left in the hot and cold groups, group by group. */
    method PrecompileSignalOutlets(groups: seq<DspGroup>)
      modifies this
      requires forall k :: 0 <= k < |groups| ==> InGraph(graph, groups[k].traversal)
      ensures trace == old(trace) + FlatMapWith(graph, groups, GroupSignalOutletEvents)
      ensures hotDspGroup == old(hotDspGroup) && coldDspGroups == old(coldDspGroups)
    {
      var k := 0;
      while k < |groups|
        invariant 0 <= k <= |groups|
        invariant trace == old(trace) + FlatMapWith(graph, groups[..k], GroupSignalOutletEvents)
        invariant hotDspGroup == old(hotDspGroup) && coldDspGroups == old(coldDspGroups)
      {
        FlatMapWithStep(graph, groups, k, GroupSignalOutletEvents);
        PrecompileGroupSignalOutlets(groups[k]);
        k := k + 1;
      }
      assert groups[..k] == groups;
    }

    /** The inline loop of every inlinable group. */
    method PrecompileInlineLoops(inlinable: seq<DspGroup>)
      modifies this
      ensures trace == old(trace) + FlatMap(inlinable, InlineLoopEvents)
      ensures hotDspGroup == old(hotDspGroup) && coldDspGroups == old(coldDspGroups)
    {
      var k := 0;
      while k < |inlinable|
        invariant 0 <= k <= |inlinable|
        invariant trace == old(trace) + FlatMap(inlinable[..k], InlineLoopEvents)
        invariant hotDspGroup == old(hotDspGroup) && coldDspGroups == old(coldDspGroups)
      {
        FlatMapStep(inlinable, k, InlineLoopEvents);
        trace := trace + [InlineLoop(inlinable[k])];
        k := k + 1;
      }
      assert inlinable[..k] == inlinable;
    }

    method PrecompileGroupDsp(g: DspGroup)
      modifies this
      requires InGraph(graph, g.traversal)
      ensures trace == old(trace) + GroupDspEvents(graph, g)
      ensures hotDspGroup == old(hotDspGroup) && coldDspGroups == old(coldDspGroups)
    {
      var j := 0;
      while j < |g.traversal|
        invariant 0 <= j <= |g.traversal|
        invariant trace == old(trace) + FlatMapWith(graph, g.traversal[..j], NodeDspEvents)
        invariant hotDspGroup == old(hotDspGroup) && coldDspGroups == old(coldDspGroups)
      {
        FlatMapWithStep(graph, g.traversal, j, NodeDspEvents);
        var node := graph.nodes[g.traversal[j]];
        trace := trace + [Caching(node.id)];
        trace := trace + [Loop(node.id)];
        j := j + 1;
      }
      assert g.traversal[..j] == g.traversal;
    }

    /** Caching, then loop, of every node left in the hot and cold groups, group by group. */
    method PrecompileDsp(groups: seq<DspGroup>)
      modifies this
      requires forall k :: 0 <= k < |groups| ==> InGraph(graph, groups[k].traversal)
      ensures trace == old(trace) + FlatMapWith(graph, groups, GroupDspEvents)
      ensures hotDspGroup == old(hotDspGroup) && coldDspGroups == old(coldDspGroups)
    {
      var k := 0;
      while k < |groups|
        invariant 0 <= k <= |groups|
        invariant trace == old(trace) + FlatMapWith(graph, groups[..k], GroupDspEvents)
        invariant hotDspGroup == old(hotDspGroup) && coldDspGroups == old(coldDspGroups)
      {
        FlatMapWithStep(graph, groups, k, GroupDspEvents);
        PrecompileGroupDsp(groups[k]);
        k := k + 1;
      }
      assert groups[..k] == groups;
    }

    /** State, initialization and message receivers of every node of the full traversal. */
    method PrecompileNodes(nodes: seq<Node>)
      modifies this
      ensures trace == old(trace) + FlatMap(nodes, NodeEvents)
      ensures hotDspGroup == old(hotDspGroup) && coldDspGroups == old(coldDspGroups)
    {
      var i := 0;
      while i < |nodes|
        invariant 0 <= i <= |nodes|
        invariant trace == old(trace) + FlatMap(nodes[..i], NodeEvents)
        invariant hotDspGroup == old(hotDspGroup) && coldDspGroups == old(coldDspGroups)
      {
        FlatMapStep(nodes, i, NodeEvents);
        trace := trace + [State(nodes[i].id)];
        trace := trace + [Initialization(nodes[i].id)];
        trace := trace + [MessageReceivers(nodes[i].id)];
        i := i + 1;
      }
      assert nodes[..i] == nodes;
    }

    /**
     * The dsp group phase: builds the root, cold and hot groups, extracts the
     * inlinable groups, then stores the trimmed hot group and the numbered
     * trimmed cold groups.
     */
    method BuildDspGroups(h: Helpers) returns (parents: seq<DspGroup>, inlinable: seq<DspGroup>)
      modifies this
      requires InGraph(graph, graph.keys)
      requires GroupsInGraph(graph, h)
      ensures parents == Parents(AllGroups(graph, h), h.buildInlinable) && |parents| >= 1
      ensures inlinable == FlatMap(AllGroups(graph, h), h.buildInlinable)
      ensures forall k :: 0 <= k < |parents| ==> InGraph(graph, parents[k].traversal)
      ensures hotDspGroup == parents[0]
      ensures coldDspGroups == PutAll(old(coldDspGroups), ColdEntries(parents[1..], h.sinkConnections))
      ensures trace == old(trace) + ColdAttachEvents(|parents| - 1)
    {
      var all := AllGroups(graph, h);
      parents, inlinable := ExtractInlinable(all, h.buildInlinable);
      TrimmedInGraph(graph, all, h.buildInlinable);
      hotDspGroup := parents[0];
      StoreColdGroups(parents[1..], h.sinkConnections);
    }

    /** The portlet phases: io messages, inlets, message outlets, then signal outlets. */
    method PrecompilePortlets(nodes: seq<Node>, parents: seq<DspGroup>)
      modifies this
      requires forall k :: 0 <= k < |parents| ==> InGraph(graph, parents[k].traversal)
      ensures trace == old(trace) + [AttachIoMessages] + FlatMap(nodes, NodeInletEvents)
        + FlatMap(nodes, NodeMessageOutletEvents) + FlatMapWith(graph, parents, GroupSignalOutletEvents)
      ensures hotDspGroup == old(hotDspGroup) && coldDspGroups == old(coldDspGroups)
    {
      trace := trace + [AttachIoMessages];
      PrecompileInlets(nodes);
      PrecompileMessageOutlets(nodes);
      PrecompileSignalOutlets(parents);
    }

    /** The dsp and node phases: inline loops, caching and loops, state, initialization and receivers, then dependencies. */
    method PrecompileDspAndNodes(nodes: seq<Node>, parents: seq<DspGroup>, inlinable: seq<DspGroup>)
      modifies this
      requires forall k :: 0 <= k < |parents| ==> InGraph(graph, parents[k].traversal)
      ensures trace == old(trace) + FlatMap(inlinable, InlineLoopEvents)
        + FlatMapWith(graph, parents, GroupDspEvents) + FlatMap(nodes, NodeEvents) + [PrecompileDependencies]
      ensures hotDspGroup == old(hotDspGroup) && coldDspGroups == old(coldDspGroups)
    {
      PrecompileInlineLoops(inlinable);
      PrecompileDsp(parents);
      PrecompileNodes(nodes);
      trace := trace + [PrecompileDependencies];
    }

    /**
     * The orchestrator: the phases in their fixed order. The hot group and
     * the cold groups end up trimmed of their inlinable groups, the cold
     * groups stored under numbered ids, and the calls made are those of
     * every phase, phase after phase (`RunIsTrace` shows this is `Trace`
     * of the run's inputs).
     */
    method Precompile(h: Helpers)
      modifies this
      requires InGraph(graph, graph.keys) && InGraph(graph, fullTraversal)
      requires GroupsInGraph(graph, h)
      ensures var all := AllGroups(graph, h);
        var parents := Parents(all, h.buildInlinable);
        var nodes := ToNodes(graph, fullTraversal);
        && trace == old(trace) + FlatMap(nodeTypes, ImplementationEvents) + ColdAttachEvents(|parents| - 1)
             + [AttachIoMessages] + FlatMap(nodes, NodeInletEvents)
             + FlatMap(nodes, NodeMessageOutletEvents) + FlatMapWith(graph, parents, GroupSignalOutletEvents)
             + FlatMap(FlatMap(all, h.buildInlinable), InlineLoopEvents)
             + FlatMapWith(graph, parents, GroupDspEvents) + FlatMap(nodes, NodeEvents) + [PrecompileDependencies]
        && hotDspGroup == parents[0]
        && coldDspGroups == PutAll(old(coldDspGroups), ColdEntries(parents[1..], h.sinkConnections))
    {
      var nodes := ToNodes(graph, fullTraversal);
      PrecompileImplementations();
      var parents, inlinable := BuildDspGroups(h);
      PrecompilePortlets(nodes, parents);
      PrecompileDspAndNodes(nodes, parents, inlinable);
    }
  }
}
