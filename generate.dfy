/**
 * The code generators: pure functions from a compilation record to AST
 * fragments. A JavaScript array nested inside a `Sequence` is flattened into
 * it when the AST is built, so the model writes such an array as a nested
 * `Sequence`; the rendered code is the same.
 */
module Generate {
  import opened Wrappers
  import opened Ast
  import opened DspGraph
  import opened CompileTypes

  /** The lookups the generators make without checking, all of which must succeed. */
  ghost predicate WellFormed(c: Compilation) {
    var p := c.precompilation;
    var index := c.variableNamesIndex;
    && (forall id :: id in p.graph.fullTraversal ==>
          id in p.nodes && id in index.nodes && id in c.graph.nodes && c.graph.nodes[id].id == id)
    && (forall id :: id in p.graph.hotDspGroup.traversal ==> id in p.nodes)
    && (forall e :: e in p.graph.coldDspGroups ==> e.0 in index.coldDspGroups)
    && (forall e :: e in p.graph.coldDspGroups ==> forall id :: id in e.1.group.traversal ==> id in p.nodes)
    && (forall e :: e in c.settings.ioMessageReceivers ==> IoReceiverNamed(index, e.0, e.1.portletIds))
    && (forall e :: e in c.settings.ioMessageSenders ==>
          e.0 in index.ioMessageSenders && forall o :: o in e.1.portletIds ==> o in index.ioMessageSenders[e.0])
    && (forall id :: id in p.nodes ==> forall r :: r in p.nodes[id].messageReceivers ==> |r.1.args| > 0)
  }

  /** Every exposed inlet of the node has an io function name and a node receiver name. */
  predicate IoReceiverNamed(index: VariableNamesIndex, nodeId: NodeId, inletIds: seq<PortletId>) {
    && nodeId in index.ioMessageReceivers && nodeId in index.nodes
    && (forall i :: i in inletIds ==> i in index.ioMessageReceivers[nodeId] && i in index.nodes[nodeId].messageReceivers)
  }

  // ---------------------------------------------------------------------
  // Globals
  // ---------------------------------------------------------------------

  /**
   * `generateGlobs`: the frame counters and block size as integers, the
   * sample rate and null signal as floats, all set to 0, then the null
   * message receiver, then the empty message.
   */
  function GenerateGlobs(c: Compilation): (r: Element)
    ensures r.Sequence? && |r.content| == 7
    ensures forall i :: 0 <= i < 5 ==>
      r.content[i].Var? && r.content[i].value == Some(Raw("0")) && r.content[i].typeName == (if i < 3 then "Int" else "Float")
    ensures r.content[5] == Func(c.variableNamesIndex.globs.nullMessageReceiver, [MessageArg], "void", [])
    ensures r.content[6] == Var("Message", c.variableNamesIndex.globs.emptyMessage, Some(Raw("msg_create([])")))
  {
    var g := c.variableNamesIndex.globs;
    Sequence([
      VarInit("Int", g.iterFrame, "0"),
      VarInit("Int", g.frame, "0"),
      VarInit("Int", g.blockSize, "0"),
      VarInit("Float", g.sampleRate, "0"),
      VarInit("Float", g.nullSignal, "0"),
      Func(g.nullMessageReceiver, [MessageArg], "void", []),
      VarInit("Message", g.emptyMessage, "msg_create([])")])
  }

  /** The globals are declared in this order. */
  lemma GlobsDeclarationOrder(c: Compilation)
    ensures var g := c.variableNamesIndex.globs;
      Declared(GenerateGlobs(c)) == [g.iterFrame, g.frame, g.blockSize, g.sampleRate, g.nullSignal, g.nullMessageReceiver, g.emptyMessage]
  {
    DeclaredSingles(GenerateGlobs(c).content);
  }

  // ---------------------------------------------------------------------
  // Node state and initialization
  // ---------------------------------------------------------------------

  /** The state constant of a node with a state initialization. */
  function StateDeclaration(c: Compilation, nodeId: NodeId): Element
    requires nodeId in c.precompilation.nodes && nodeId in c.variableNamesIndex.nodes
    requires c.precompilation.nodes[nodeId].stateInitialization.Some?
  {
    var init := c.precompilation.nodes[nodeId].stateInitialization.value;
    ConstVar(init.typeName, c.variableNamesIndex.nodes[nodeId].state, init.value)
  }

  predicate Known(c: Compilation, t: Traversal) {
    forall id :: id in t ==> id in c.precompilation.nodes && id in c.variableNamesIndex.nodes
  }

  /** One step of the reduction: a node with a state initialization adds its declaration, others add nothing. */
  function DeclareState(c: Compilation, declarations: seq<Element>, nodeId: NodeId): seq<Element>
    requires nodeId in c.precompilation.nodes && nodeId in c.variableNamesIndex.nodes
  {
    if c.precompilation.nodes[nodeId].stateInitialization.None? then declarations
    else declarations + [StateDeclaration(c, nodeId)]
  }

  /** `reduce` of `DeclareState` over the traversal, from the declarations so far. */
  function ReduceStates(c: Compilation, declarations: seq<Element>, t: Traversal): seq<Element>
    requires Known(c, t)
    decreases |t|
  {
    if t == [] then declarations else ReduceStates(c, DeclareState(c, declarations, t[0]), t[1..])
  }

  /**
   * `generateNodeStateDeclarations`: the state declarations reduced over the
   * full traversal. They are exactly one constant per stateful node of the
   * full traversal, in traversal order, named by the node's state variable.
   */
  function GenerateNodeStateDeclarations(c: Compilation): (r: Element)
    requires WellFormed(c)
    ensures r.Sequence? && r.content == StateDeclarations(c, StatefulNodes(c, c.precompilation.graph.fullTraversal))
  {
    ReduceIsFold(c, [], c.precompilation.graph.fullTraversal);
    FoldIsFilterMap(c, c.precompilation.graph.fullTraversal);
    Sequence(ReduceStates(c, [], c.precompilation.graph.fullTraversal))
  }

  /** The nodes of a traversal that have a state initialization, in traversal order. */
  function StatefulNodes(c: Compilation, t: Traversal): (r: seq<NodeId>)
    requires Known(c, t)
    ensures forall id :: id in r ==> id in t && c.precompilation.nodes[id].stateInitialization.Some?
  {
    if t == [] then []
    else if c.precompilation.nodes[t[0]].stateInitialization.Some? then [t[0]] + StatefulNodes(c, t[1..])
    else StatefulNodes(c, t[1..])
  }

  /** A traversal node is stateful exactly when its state initialization is set. */
  lemma {:induction false} StatefulNodesComplete(c: Compilation, t: Traversal, id: NodeId)
    requires Known(c, t) && id in t
    ensures id in StatefulNodes(c, t) <==> c.precompilation.nodes[id].stateInitialization.Some?
  {
    if t[0] != id {
      StatefulNodesComplete(c, t[1..], id);
    }
  }

  /** The declarations of the given stateful nodes, in their order. */
  function StateDeclarations(c: Compilation, ids: seq<NodeId>): (r: seq<Element>)
    requires forall id :: id in ids ==>
      id in c.precompilation.nodes && id in c.variableNamesIndex.nodes && c.precompilation.nodes[id].stateInitialization.Some?
    ensures |r| == |ids|
    ensures forall i :: 0 <= i < |ids| ==> r[i] == StateDeclaration(c, ids[i])
  {
    seq(|ids|, i requires 0 <= i < |ids| => StateDeclaration(c, ids[i]))
  }

  lemma StateDeclarationsCons(c: Compilation, id: NodeId, rest: seq<NodeId>)
    requires id in c.precompilation.nodes && id in c.variableNamesIndex.nodes && c.precompilation.nodes[id].stateInitialization.Some?
    requires forall x :: x in rest ==>
      x in c.precompilation.nodes && x in c.variableNamesIndex.nodes && c.precompilation.nodes[x].stateInitialization.Some?
    ensures StateDeclarations(c, [id] + rest) == [StateDeclaration(c, id)] + StateDeclarations(c, rest)
  {
  }

  /** The state declarations of a traversal, built from the right: the reference the reduction is measured against. */
  function StateDeclarationsOf(c: Compilation, t: Traversal): seq<Element>
    requires Known(c, t)
    decreases |t|
  {
    if t == [] then [] else StateStep(c, t[0]) + StateDeclarationsOf(c, t[1..])
  }

  /** The declarations one node contributes: its state constant, if it has a state initialization. */
  function StateStep(c: Compilation, nodeId: NodeId): seq<Element>
    requires nodeId in c.precompilation.nodes && nodeId in c.variableNamesIndex.nodes
  {
    if c.precompilation.nodes[nodeId].stateInitialization.Some? then [StateDeclaration(c, nodeId)] else []
  }

  /** The reduction from the left appends exactly the declarations the right fold builds. */
  lemma {:induction false} ReduceIsFold(c: Compilation, declarations: seq<Element>, t: Traversal)
    requires Known(c, t)
    ensures ReduceStates(c, declarations, t) == declarations + StateDeclarationsOf(c, t)
    decreases |t|
  {
    if t != [] {
      var step := StateStep(c, t[0]);
      assert DeclareState(c, declarations, t[0]) == declarations + step;
      ReduceIsFold(c, declarations + step, t[1..]);
      assert declarations + step + StateDeclarationsOf(c, t[1..]) == declarations + (step + StateDeclarationsOf(c, t[1..]));
    }
  }

  /** The right fold is a filter then a map: one declaration per stateful node, in order. */
  lemma {:induction false} FoldIsFilterMap(c: Compilation, t: Traversal)
    requires Known(c, t)
    ensures StateDeclarationsOf(c, t) == StateDeclarations(c, StatefulNodes(c, t))
    decreases |t|
  {
    if t == [] {
      assert StateDeclarations(c, []) == [];
    } else {
      FoldIsFilterMap(c, t[1..]);
      if c.precompilation.nodes[t[0]].stateInitialization.Some? {
        StateDeclarationsCons(c, t[0], StatefulNodes(c, t[1..]));
      }
    }
  }

  /** `generateNodeInitializations`: every node's initialization once, in full traversal order. */
  function GenerateNodeInitializations(c: Compilation): (r: Element)
    requires WellFormed(c)
    ensures r.Sequence? && |r.content| == |c.precompilation.graph.fullTraversal|
    ensures forall i :: 0 <= i < |r.content| ==>
      r.content[i] == c.precompilation.nodes[c.precompilation.graph.fullTraversal[i]].initialization
  {
    var t := c.precompilation.graph.fullTraversal;
    Sequence(seq(|t|, i requires 0 <= i < |t| && t[i] in c.precompilation.nodes => c.precompilation.nodes[t[i]].initialization))
  }

  // ---------------------------------------------------------------------
  // Io message receivers and senders
  // ---------------------------------------------------------------------

  /** `isNodeInsideGroup`: the node is in the group's traversal. */
  predicate IsNodeInsideGroup(nodeId: NodeId, group: ColdDspGroup) {
    nodeId in group.group.traversal
  }

  /** The ids of the cold groups containing a node, in cold group order. */
  function GroupsContaining(groups: seq<(string, ColdDspGroup)>, nodeId: NodeId): (r: seq<string>)
    ensures |r| <= |groups|
  {
    if groups == [] then []
    else if IsNodeInsideGroup(nodeId, groups[0].1) then [groups[0].0] + GroupsContaining(groups[1..], nodeId)
    else GroupsContaining(groups[1..], nodeId)
  }

  /** A group id is listed exactly when a cold group with that id contains the node. */
  lemma {:induction false} GroupsContainingMembers(groups: seq<(string, ColdDspGroup)>, nodeId: NodeId, groupId: string)
    ensures groupId in GroupsContaining(groups, nodeId) <==>
      exists e :: e in groups && e.0 == groupId && IsNodeInsideGroup(nodeId, e.1)
  {
    if groups != [] {
      GroupsContainingMembers(groups[1..], nodeId, groupId);
      assert forall e :: e in groups <==> e == groups[0] || e in groups[1..];
    }
  }

  /** The calls to the cold group functions of the given groups, in order, with no argument. */
  function ColdCalls(index: VariableNamesIndex, groupIds: seq<string>): (r: seq<Element>)
    requires forall g :: g in groupIds ==> g in index.coldDspGroups
    ensures |r| == |groupIds|
    ensures forall i :: 0 <= i < |r| ==> r[i] == Call(index.coldDspGroups[groupIds[i]], "")
  {
    seq(|groupIds|, i requires 0 <= i < |groupIds| => Call(index.coldDspGroups[groupIds[i]], ""))
  }

  /** The groups containing a node are cold groups, so each has a function name. */
  lemma ContainingGroupsNamed(c: Compilation, nodeId: NodeId)
    requires WellFormed(c)
    ensures forall g :: g in GroupsContaining(c.precompilation.graph.coldDspGroups, nodeId) ==> g in c.variableNamesIndex.coldDspGroups
  {
    forall g | g in GroupsContaining(c.precompilation.graph.coldDspGroups, nodeId)
      ensures g in c.variableNamesIndex.coldDspGroups
    {
      GroupsContainingMembers(c.precompilation.graph.coldDspGroups, nodeId, g);
    }
  }

  /**
   * The io receiver of one exposed inlet: it calls the node's receiver on
   * `m`, then the function of every cold group that contains the node.
   */
  function IoReceiver(c: Compilation, nodeId: NodeId, inletId: PortletId): (r: Element)
    requires WellFormed(c)
    requires IoReceiverNamed(c.variableNamesIndex, nodeId, [inletId])
    ensures r.Func? && r.name == c.variableNamesIndex.ioMessageReceivers[nodeId][inletId] && r.args == [MessageArg]
    ensures |r.body| >= 1 && r.body[0] == Call(c.variableNamesIndex.nodes[nodeId].messageReceivers[inletId], "m")
  {
    var index := c.variableNamesIndex;
    ContainingGroupsNamed(c, nodeId);
    Func(index.ioMessageReceivers[nodeId][inletId], [MessageArg], "void",
      [Call(index.nodes[nodeId].messageReceivers[inletId], "m")]
      + ColdCalls(index, GroupsContaining(c.precompilation.graph.coldDspGroups, nodeId)))
  }

  /** The io receivers of one node, one per exposed inlet, in the order listed. */
  function NodeIoReceivers(c: Compilation, nodeId: NodeId, inletIds: seq<PortletId>): (r: seq<Element>)
    requires WellFormed(c) && IoReceiverNamed(c.variableNamesIndex, nodeId, inletIds)
    ensures |r| == |inletIds|
    ensures forall i :: 0 <= i < |r| ==> r[i] == IoReceiver(c, nodeId, inletIds[i])
  {
    seq(|inletIds|, i requires 0 <= i < |inletIds| => IoReceiver(c, nodeId, inletIds[i]))
  }

  /** `generateIoMessageReceivers`: for each node with exposed inlets, its io receivers. */
  function GenerateIoMessageReceivers(c: Compilation): (r: Element)
    requires WellFormed(c)
    ensures r.Sequence? && |r.content| == |c.settings.ioMessageReceivers|
    ensures forall k :: 0 <= k < |r.content| ==>
      r.content[k] == Sequence(NodeIoReceivers(c, c.settings.ioMessageReceivers[k].0, c.settings.ioMessageReceivers[k].1.portletIds))
  {
    var specs := c.settings.ioMessageReceivers;
    Sequence(seq(|specs|, k requires 0 <= k < |specs| => Sequence(NodeIoReceivers(c, specs[k].0, specs[k].1.portletIds))))
  }

  /**
   * The calls of the groups containing a node go to the function of every
   * cold group that contains the node and of no other.
   */
  lemma {:induction false} ColdCallsOfContaining(index: VariableNamesIndex, cold: seq<(string, ColdDspGroup)>, nodeId: NodeId)
    requires forall e :: e in cold ==> e.0 in index.coldDspGroups
    requires forall g :: g in GroupsContaining(cold, nodeId) ==> g in index.coldDspGroups
    ensures var calls := ColdCalls(index, GroupsContaining(cold, nodeId));
      && (forall f :: f in calls ==>
            (exists e :: e in cold && IsNodeInsideGroup(nodeId, e.1) && f == Call(index.coldDspGroups[e.0], "")))
      && (forall e :: e in cold && IsNodeInsideGroup(nodeId, e.1) ==> Call(index.coldDspGroups[e.0], "") in calls)
  {
    var ids := GroupsContaining(cold, nodeId);
    var calls := ColdCalls(index, ids);
    forall f | f in calls
      ensures exists e :: e in cold && IsNodeInsideGroup(nodeId, e.1) && f == Call(index.coldDspGroups[e.0], "")
    {
      var j :| 0 <= j < |calls| && calls[j] == f;
      GroupsContainingMembers(cold, nodeId, ids[j]);
    }
    forall e | e in cold && IsNodeInsideGroup(nodeId, e.1)
      ensures Call(index.coldDspGroups[e.0], "") in calls
    {
      GroupsContainingMembers(cold, nodeId, e.0);
      var k :| 0 <= k < |ids| && ids[k] == e.0;
      assert calls[k] == Call(index.coldDspGroups[e.0], "");
    }
  }

  /**
   * After the node's receiver, an io receiver calls, with no argument, the
   * function of every cold group that contains the node and of no other.
   */
  lemma IoReceiverBody(c: Compilation, nodeId: NodeId, inletId: PortletId)
    requires WellFormed(c) && IoReceiverNamed(c.variableNamesIndex, nodeId, [inletId])
    ensures var r := IoReceiver(c, nodeId, inletId);
      var cold := c.precompilation.graph.coldDspGroups;
      var index := c.variableNamesIndex;
      && (forall f :: f in r.body[1..] ==>
            (exists e :: e in cold && IsNodeInsideGroup(nodeId, e.1) && f == Call(index.coldDspGroups[e.0], "")))
      && (forall e :: e in cold && IsNodeInsideGroup(nodeId, e.1) ==> Call(index.coldDspGroups[e.0], "") in r.body[1..])
  {
    var cold := c.precompilation.graph.coldDspGroups;
    ContainingGroupsNamed(c, nodeId);
    ColdCallsOfContaining(c.variableNamesIndex, cold, nodeId);
    assert IoReceiver(c, nodeId, inletId).body[1..] == ColdCalls(c.variableNamesIndex, GroupsContaining(cold, nodeId));
  }

  /** The io senders of one node, one per exposed outlet, as the target's sender generator builds them. */
  function NodeIoSenders(
    c: Compilation, nodeId: NodeId, outletIds: seq<PortletId>,
    generateIoMessageSender: (VariableName, NodeId, PortletId) -> Element): (r: seq<Element>)
    requires nodeId in c.variableNamesIndex.ioMessageSenders
    requires forall o :: o in outletIds ==> o in c.variableNamesIndex.ioMessageSenders[nodeId]
    ensures |r| == |outletIds|
    ensures forall i :: 0 <= i < |r| ==>
      r[i] == generateIoMessageSender(c.variableNamesIndex.ioMessageSenders[nodeId][outletIds[i]], nodeId, outletIds[i])
  {
    var names := c.variableNamesIndex.ioMessageSenders[nodeId];
    seq(|outletIds|, i requires 0 <= i < |outletIds| => generateIoMessageSender(names[outletIds[i]], nodeId, outletIds[i]))
  }

  /** `generateIoMessageSenders`: for each node with exposed outlets, one sender per outlet. */
  function GenerateIoMessageSenders(c: Compilation, generateIoMessageSender: (VariableName, NodeId, PortletId) -> Element): (r: Element)
    requires WellFormed(c)
    ensures r.Sequence? && |r.content| == |c.settings.ioMessageSenders|
    ensures forall k :: 0 <= k < |r.content| ==>
      r.content[k] == Sequence(NodeIoSenders(c, c.settings.ioMessageSenders[k].0, c.settings.ioMessageSenders[k].1.portletIds, generateIoMessageSender))
  {
    var specs := c.settings.ioMessageSenders;
    Sequence(seq(|specs|, k requires 0 <= k < |specs| =>
      Sequence(NodeIoSenders(c, specs[k].0, specs[k].1.portletIds, generateIoMessageSender))))
  }

  // ---------------------------------------------------------------------
  // Portlets
  // ---------------------------------------------------------------------

  /** The text appended, in debug mode only, to the unsupported-message error. */
  const DebugHint: string := " + '\\nDEBUG : remember, you must return from message receiver'"

  /** The end of the error: the closing parentheses, with the hint between them in debug mode. */
  function Closing(debug: bool): string {
    if debug then ")" + DebugHint + ")" else "))"
  }

  /** The statement thrown when a receiver did not handle a message; `argName` is the receiver's argument. */
  function ThrowStatement(nodeType: string, nodeId: NodeId, inletId: PortletId, argName: VariableName, debug: bool): string {
    "throw new Error('[" + nodeType + "], id \"" + nodeId + "\", inlet \"" + inletId
      + "\", unsupported message : ' + msg_display(" + argName + Closing(debug)
  }

  /** Where the pieces of a concatenation of nine sit in it. */
  lemma Pieces<T>(a: seq<T>, b: seq<T>, c: seq<T>, d: seq<T>, e: seq<T>, f: seq<T>, g: seq<T>, h: seq<T>, t: seq<T>)
    ensures var s := a + b + c + d + e + f + g + h + t;
      var i := |a|;
      var j := i + |b| + |c|;
      var k := j + |d| + |e|;
      var l := k + |f| + |g|;
      && s[..i] == a && s[i..i + |b|] == b && s[i + |b|..j] == c && s[j..j + |d|] == d && s[j + |d|..k] == e
      && s[k..k + |f|] == f && s[k + |f|..l] == g && s[l..l + |h|] == h
  {
    var s := a + b + c + d + e + f + g + h + t;
    var p := a + b + c + d + e + f + g + h;
    assert s[..|p|] == p;
  }

  /**
   * The error names the node type, the node id and the inlet id, at fixed
   * places after the opening text, and shows the message through the
   * receiver's argument.
   */
  lemma ThrowNamesNodeAndInlet(nodeType: string, nodeId: NodeId, inletId: PortletId, argName: VariableName, debug: bool)
    ensures var s := ThrowStatement(nodeType, nodeId, inletId, argName, debug);
      var i := 18 + |nodeType|;
      var j := i + 7 + |nodeId|;
      var k := j + 10 + |inletId|;
      && s[..18] == "throw new Error('["
      && s[18..i] == nodeType
      && s[j - |nodeId|..j] == nodeId
      && s[k - |inletId|..k] == inletId
      && s[k + 41..k + 41 + |argName|] == argName
  {
    Pieces("throw new Error('[", nodeType, "], id \"", nodeId, "\", inlet \"", inletId,
      "\", unsupported message : ' + msg_display(", argName, Closing(debug));
  }

  /** The debug flag only inserts the hint before the closing parenthesis. */
  lemma DebugAddsHint(nodeType: string, nodeId: NodeId, inletId: PortletId, argName: VariableName)
    ensures var plain := ThrowStatement(nodeType, nodeId, inletId, argName, false);
      && |plain| > 0 && plain[|plain| - 1] == ')'
      && ThrowStatement(nodeType, nodeId, inletId, argName, true) == plain[..|plain| - 1] + DebugHint + ")"
  {
    var x := "throw new Error('[" + nodeType + "], id \"" + nodeId + "\", inlet \"" + inletId
      + "\", unsupported message : ' + msg_display(" + argName;
    var plain := ThrowStatement(nodeType, nodeId, inletId, argName, false);
    assert plain == x + "))";
    assert plain[..|plain| - 1] == x + ")";
    assert x + (")" + DebugHint + ")") == x + ")" + DebugHint + ")";
  }

  /** A node's message receiver, its body followed by the unsupported-message error. */
  function ReceiverWithThrow(node: Node, inletId: PortletId, f: FuncDef, debug: bool): (r: Element)
    requires |f.args| > 0
    ensures r.Func? && r.name == f.name
  {
    Func(f.name, f.args, f.returnType, f.body + [Raw(ThrowStatement(node.nodeType, node.id, inletId, f.args[0].name, debug))])
  }

  /**
   * The receiver keeps its signature and its body, and then throws the
   * error naming this node and inlet, shown through its first argument.
   */
  lemma ReceiverEndsWithThrow(node: Node, inletId: PortletId, f: FuncDef, debug: bool)
    requires |f.args| > 0
    ensures var r := ReceiverWithThrow(node, inletId, f, debug);
      && r.args == f.args && r.returnType == f.returnType
      && |r.body| == |f.body| + 1 && r.body[..|f.body|] == f.body
      && r.body[|f.body|] == Raw(ThrowStatement(node.nodeType, node.id, inletId, f.args[0].name, debug))
  {
  }

  /** A signal outlet's variable: a float set to 0. */
  function SignalOutDeclaration(name: VariableName): Element {
    VarInit("Float", name, "0")
  }

  /** The variables of a node's signal outlets, in order. */
  function SignalOutDeclarations(outs: seq<VariableName>): (r: seq<Element>)
    ensures |r| == |outs| && forall i :: 0 <= i < |outs| ==> r[i] == SignalOutDeclaration(outs[i])
  {
    seq(|outs|, i requires 0 <= i < |outs| => SignalOutDeclaration(outs[i]))
  }

  predicate ReceiversTakeArgument(p: PrecompiledNode) {
    forall r :: r in p.messageReceivers ==> |r.1.args| > 0
  }

  /** A node's message receivers, each followed by the error, in order. */
  function Receivers(node: Node, receivers: seq<(PortletId, FuncDef)>, debug: bool): (r: seq<Element>)
    requires forall e :: e in receivers ==> |e.1.args| > 0
    ensures |r| == |receivers|
    ensures forall i :: 0 <= i < |receivers| ==> r[i] == ReceiverWithThrow(node, receivers[i].0, receivers[i].1, debug)
  {
    seq(|receivers|, i requires 0 <= i < |receivers| && |receivers[i].1.args| > 0 =>
      ReceiverWithThrow(node, receivers[i].0, receivers[i].1, debug))
  }

  /** A node's signal outlets, then its message receivers. */
  function NodePortlets(node: Node, p: PrecompiledNode, debug: bool): Element
    requires ReceiversTakeArgument(p)
  {
    Sequence([Sequence(SignalOutDeclarations(p.signalOuts)), Sequence(Receivers(node, p.messageReceivers, debug))])
  }

  /** A message sender: a function of `m` that calls each of its receivers on `m`, once, in list order. */
  function SenderFunction(s: MessageSender): (r: Element)
    ensures r.Func? && r.name == s.messageSenderName && r.args == [MessageArg]
    ensures |r.body| == |s.functionNames| && forall i :: 0 <= i < |r.body| ==> r.body[i] == Call(s.functionNames[i], "m")
  {
    var names := s.functionNames;
    Func(s.messageSenderName, [MessageArg], "void", seq(|names|, i requires 0 <= i < |names| => Call(names[i], "m")))
  }

  /** A node's message senders. */
  function NodeSenders(p: PrecompiledNode): (r: Element)
    ensures r.Sequence? && |r.content| == |p.messageSenders|
    ensures forall i :: 0 <= i < |r.content| ==> r.content[i] == SenderFunction(p.messageSenders[i])
  {
    var senders := p.messageSenders;
    Sequence(seq(|senders|, i requires 0 <= i < |senders| => SenderFunction(senders[i])))
  }

  /** The graph nodes of the full traversal, each with its precompiled fragments. */
  predicate Precompiled(c: Compilation, nodes: seq<Node>) {
    forall n :: n in nodes ==> n.id in c.precompilation.nodes && ReceiversTakeArgument(c.precompilation.nodes[n.id])
  }

  lemma TraversalNodesPrecompiled(c: Compilation)
    requires WellFormed(c)
    ensures InGraph(c.graph, c.precompilation.graph.fullTraversal)
    ensures Precompiled(c, ToNodes(c.graph, c.precompilation.graph.fullTraversal))
  {
    var t := c.precompilation.graph.fullTraversal;
    assert InGraph(c.graph, t) by {
      forall i | 0 <= i < |t| ensures t[i] in c.graph.nodes {
        assert t[i] in t;
      }
    }
    var nodes := ToNodes(c.graph, t);
    forall n | n in nodes
      ensures n.id in c.precompilation.nodes && ReceiversTakeArgument(c.precompilation.nodes[n.id])
    {
      var i :| 0 <= i < |nodes| && nodes[i] == n;
      assert t[i] in t;
    }
  }

  function PortletsPart(c: Compilation, nodes: seq<Node>): (r: seq<Element>)
    requires Precompiled(c, nodes)
    ensures |r| == |nodes|
    ensures forall i :: 0 <= i < |nodes| ==> r[i] == NodePortlets(nodes[i], c.precompilation.nodes[nodes[i].id], c.settings.debug)
  {
    seq(|nodes|, i requires 0 <= i < |nodes| && Precompiled(c, nodes) =>
      NodePortlets(nodes[i], c.precompilation.nodes[nodes[i].id], c.settings.debug))
  }

  function SendersPart(c: Compilation, nodes: seq<Node>): (r: seq<Element>)
    requires Precompiled(c, nodes)
    ensures |r| == |nodes|
    ensures forall i :: 0 <= i < |nodes| ==> r[i] == NodeSenders(c.precompilation.nodes[nodes[i].id])
  {
    seq(|nodes|, i requires 0 <= i < |nodes| && Precompiled(c, nodes) => NodeSenders(c.precompilation.nodes[nodes[i].id]))
  }

  /**
   * `generatePortletsDeclarations`: for every node of the full traversal its
   * signal outlets and message receivers; then, for every node again, its
   * message senders, which call receivers declared above. So every signal
   * outlet and receiver is declared, in traversal order, before any sender.
   */
  function GeneratePortletsDeclarations(c: Compilation): (r: Element)
    requires WellFormed(c)
    ensures InGraph(c.graph, c.precompilation.graph.fullTraversal)
    ensures var nodes := ToNodes(c.graph, c.precompilation.graph.fullTraversal);
      Precompiled(c, nodes) && Declared(r) == AllPortletNames(c, nodes) + AllSenderNames(c, nodes)
  {
    TraversalNodesPrecompiled(c);
    var nodes := ToNodes(c.graph, c.precompilation.graph.fullTraversal);
    PortletsPartDeclares(c, nodes);
    SendersPartDeclares(c, nodes);
    DeclaredPair(Sequence(PortletsPart(c, nodes)), Sequence(SendersPart(c, nodes)));
    Sequence([Sequence(PortletsPart(c, nodes)), Sequence(SendersPart(c, nodes))])
  }

  /** The names a node's portlets part declares: its signal outlets, then its message receivers. */
  function PortletNames(p: PrecompiledNode): seq<VariableName> {
    p.signalOuts + ReceiverNames(p.messageReceivers)
  }

  /** The names a node's senders part declares. */
  function SenderNames(p: PrecompiledNode): seq<VariableName> {
    seq(|p.messageSenders|, i requires 0 <= i < |p.messageSenders| => p.messageSenders[i].messageSenderName)
  }

  function AllPortletNames(c: Compilation, nodes: seq<Node>): seq<VariableName>
    requires Precompiled(c, nodes)
  {
    if nodes == [] then [] else PortletNames(c.precompilation.nodes[nodes[0].id]) + AllPortletNames(c, nodes[1..])
  }

  function AllSenderNames(c: Compilation, nodes: seq<Node>): seq<VariableName>
    requires Precompiled(c, nodes)
  {
    if nodes == [] then [] else SenderNames(c.precompilation.nodes[nodes[0].id]) + AllSenderNames(c, nodes[1..])
  }

  /** The names of the receivers, in order. */
  function ReceiverNames(receivers: seq<(PortletId, FuncDef)>): seq<VariableName> {
    seq(|receivers|, i requires 0 <= i < |receivers| => receivers[i].1.name)
  }

  lemma ReceiversDeclare(node: Node, receivers: seq<(PortletId, FuncDef)>, debug: bool)
    requires forall e :: e in receivers ==> |e.1.args| > 0
    ensures DeclaredAll(Receivers(node, receivers, debug)) == ReceiverNames(receivers)
  {
    DeclaredSingles(Receivers(node, receivers, debug));
  }

  lemma NodePortletsDeclare(node: Node, p: PrecompiledNode, debug: bool)
    requires ReceiversTakeArgument(p)
    ensures Declared(NodePortlets(node, p, debug)) == p.signalOuts + ReceiverNames(p.messageReceivers)
  {
    DeclaredPair(Sequence(SignalOutDeclarations(p.signalOuts)), Sequence(Receivers(node, p.messageReceivers, debug)));
    DeclaredSingles(SignalOutDeclarations(p.signalOuts));
    ReceiversDeclare(node, p.messageReceivers, debug);
  }

  lemma NodeSendersDeclare(p: PrecompiledNode)
    ensures Declared(NodeSenders(p)) == SenderNames(p)
  {
    DeclaredSingles(NodeSenders(p).content);
  }

  lemma {:induction false} PortletsPartDeclares(c: Compilation, nodes: seq<Node>)
    requires Precompiled(c, nodes)
    ensures DeclaredAll(PortletsPart(c, nodes)) == AllPortletNames(c, nodes)
  {
    if nodes != [] {
      assert PortletsPart(c, nodes)[1..] == PortletsPart(c, nodes[1..]);
      PortletsPartDeclares(c, nodes[1..]);
      NodePortletsDeclare(nodes[0], c.precompilation.nodes[nodes[0].id], c.settings.debug);
    }
  }

  lemma {:induction false} SendersPartDeclares(c: Compilation, nodes: seq<Node>)
    requires Precompiled(c, nodes)
    ensures DeclaredAll(SendersPart(c, nodes)) == AllSenderNames(c, nodes)
  {
    if nodes != [] {
      assert SendersPart(c, nodes)[1..] == SendersPart(c, nodes[1..]);
      SendersPartDeclares(c, nodes[1..]);
      NodeSendersDeclare(c.precompilation.nodes[nodes[0].id]);
    }
  }

  // ---------------------------------------------------------------------
  // Loop and cold dsp groups
  // ---------------------------------------------------------------------

  /** The loops of the nodes of a traversal, in its order. */
  function Loops(c: Compilation, t: Traversal): (r: seq<Element>)
    requires forall id :: id in t ==> id in c.precompilation.nodes
    ensures |r| == |t|
    ensures forall i :: 0 <= i < |t| ==> r[i] == c.precompilation.nodes[t[i]].loop
  {
    seq(|t|, i requires 0 <= i < |t| && t[i] in c.precompilation.nodes => c.precompilation.nodes[t[i]].loop)
  }

  /** `for (iterFrame = 0; iterFrame < blockSize; iterFrame++) {` */
  function LoopHeader(g: Globs): string {
    "for (" + g.iterFrame + " = 0; " + g.iterFrame + " < " + g.blockSize + "; " + g.iterFrame + "++) {"
  }

  /**
   * `generateLoop`: for every frame of the block, emit the frame event, run
   * the hot group's node loops in traversal order, then advance the frame.
   */
  function GenerateLoop(c: Compilation): (r: Element)
    requires WellFormed(c)
    ensures r.Sequence? && |r.content| == 5
    ensures r.content[0] == Raw(LoopHeader(c.variableNamesIndex.globs)) && r.content[4] == Raw("}")
    ensures r.content[1] == Call("_commons_emitFrame", c.variableNamesIndex.globs.frame)
    ensures r.content[2] == Sequence(Loops(c, c.precompilation.graph.hotDspGroup.traversal))
    ensures r.content[3] == Raw(c.variableNamesIndex.globs.frame + "++")
  {
    var g := c.variableNamesIndex.globs;
    Sequence([
      Raw(LoopHeader(g)),
      Call("_commons_emitFrame", g.frame),
      Sequence(Loops(c, c.precompilation.graph.hotDspGroup.traversal)),
      Raw(g.frame + "++"),
      Raw("}")])
  }

  /** The loop header counts the frame index up from 0 while it is below the block size, by one. */
  lemma LoopHeaderCounts(g: Globs)
    ensures var h := LoopHeader(g);
      var i := 5 + |g.iterFrame|;
      var j := i + 6 + |g.iterFrame|;
      var k := j + 3 + |g.blockSize|;
      && h[..5] == "for (" && h[5..i] == g.iterFrame && h[i..i + 6] == " = 0; "
      && h[i + 6..j] == g.iterFrame && h[j..j + 3] == " < " && h[j + 3..k] == g.blockSize
      && h[k..k + 2] == "; " && h[k + 2..k + 2 + |g.iterFrame|] == g.iterFrame
  {
    Pieces("for (", g.iterFrame, " = 0; ", g.iterFrame, " < ", g.blockSize, "; ", g.iterFrame, "++) {");
  }

  /** A cold group's function: named from the index, taking `m`, running the group's node loops in order. */
  function ColdFunction(c: Compilation, e: (string, ColdDspGroup)): (r: Element)
    requires e.0 in c.variableNamesIndex.coldDspGroups
    requires forall id :: id in e.1.group.traversal ==> id in c.precompilation.nodes
    ensures r.Func? && r.name == c.variableNamesIndex.coldDspGroups[e.0] && r.args == [MessageArg]
    ensures r.body == Loops(c, e.1.group.traversal)
  {
    Func(c.variableNamesIndex.coldDspGroups[e.0], [MessageArg], "void", Loops(c, e.1.group.traversal))
  }

  /** `generateColdDspFunctions`: one function per cold group, in cold group order. */
  function GenerateColdDspFunctions(c: Compilation): (r: Element)
    requires WellFormed(c)
    ensures r.Sequence? && |r.content| == |c.precompilation.graph.coldDspGroups|
    ensures forall k :: 0 <= k < |r.content| ==> r.content[k] == ColdFunction(c, c.precompilation.graph.coldDspGroups[k])
  {
    var groups := c.precompilation.graph.coldDspGroups;
    Sequence(seq(|groups|, k requires 0 <= k < |groups| && WellFormed(c) => ColdFunction(c, groups[k])))
  }

  /**
   * `generateColdDspInitialization`: a call to each cold group's function with
   * the empty message. It calls every cold function, once, in the order they
   * are declared.
   */
  function GenerateColdDspInitialization(c: Compilation): (r: Element)
    requires WellFormed(c)
    ensures var functions := GenerateColdDspFunctions(c);
      && r.Sequence? && |r.content| == |functions.content|
      && forall k :: 0 <= k < |r.content| ==>
           functions.content[k].Func? &&
           r.content[k] == Call(functions.content[k].name, c.variableNamesIndex.globs.emptyMessage)
  {
    var groups := c.precompilation.graph.coldDspGroups;
    var index := c.variableNamesIndex;
    Sequence(seq(|groups|, k requires 0 <= k < |groups| && WellFormed(c) =>
      Call(index.coldDspGroups[groups[k].0], index.globs.emptyMessage)))
  }

  // ---------------------------------------------------------------------
  // Imports and exports
  // ---------------------------------------------------------------------

  /** `generateImportsExports`: every import, then every export, each list in dependency order. */
  function GenerateImportsExports(
    c: Compilation, generateImport: FuncDef -> Element, generateExport: VariableName -> Element): (r: Element)
    ensures r.Sequence? && |r.content| == 2
    ensures r.content[0].Sequence? && |r.content[0].content| == |c.precompilation.dependencies.imports|
    ensures forall i :: 0 <= i < |r.content[0].content| ==>
      r.content[0].content[i] == generateImport(c.precompilation.dependencies.imports[i])
    ensures r.content[1].Sequence? && |r.content[1].content| == |c.precompilation.dependencies.exports|
    ensures forall i :: 0 <= i < |r.content[1].content| ==>
      r.content[1].content[i] == generateExport(c.precompilation.dependencies.exports[i])
  {
    var imports := c.precompilation.dependencies.imports;
    var exports := c.precompilation.dependencies.exports;
    Sequence([
      Sequence(seq(|imports|, i requires 0 <= i < |imports| => generateImport(imports[i]))),
      Sequence(seq(|exports|, i requires 0 <= i < |exports| => generateExport(exports[i])))])
  }
}
