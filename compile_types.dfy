/**
 * The records the compile pipeline threads through its phases: dsp groups,
 * the per-node precompiled fragments, the variable names index, the
 * precompilation record and the compilation itself.
 *
 * JavaScript objects the code walks with `Object.keys`, `Object.values` or
 * `Object.entries` are kept as sequences in insertion order; objects it only
 * indexes are maps.
 */
module CompileTypes {
  import opened Wrappers
  import opened Ast
  import opened DspGraph

  /** A dsp group: an ordered traversal and the ids of the nodes its computation ends at. */
  datatype DspGroup = DspGroup(traversal: Traversal, outNodesIds: seq<NodeId>)

  /** A cold group as stored in the precompilation: the group plus the connections that trigger it. */
  datatype ColdDspGroup = ColdDspGroup(group: DspGroup, sinkConnections: seq<Connection>)

  datatype StateInitialization = StateInitialization(typeName: string, value: Element)

  /** A message sender: the function's name and the receivers it calls. */
  datatype MessageSender = MessageSender(messageSenderName: VariableName, functionNames: seq<VariableName>)

  /**
   * The capabilities a node implementation offers (`loop`, `messageReceivers`,
   * `initialization`, `state`, `dependencies`); the fragments themselves are
   * produced by code outside this model.
   */
  datatype NodeImplementation = NodeImplementation(
    hasLoop: bool, hasMessageReceivers: bool, hasInitialization: bool, hasState: bool, hasDependencies: bool)

  /** The names a node's generation context starts with. */
  datatype GenerationContext = GenerationContext(
    messageReceivers: seq<(PortletId, VariableName)>,
    signalOuts: seq<(PortletId, VariableName)>,
    messageSenders: seq<(PortletId, VariableName)>,
    signalIns: seq<(PortletId, VariableName)>,
    state: VariableName)

  /** The fragments precompiled for one node. */
  datatype PrecompiledNode = PrecompiledNode(
    nodeImplementation: NodeImplementation,
    generationContext: GenerationContext,
    stateInitialization: Option<StateInitialization>,
    initialization: Element,
    loop: Element,
    signalOuts: seq<VariableName>,
    messageReceivers: seq<(PortletId, FuncDef)>,
    messageSenders: seq<MessageSender>,
    caching: seq<(PortletId, Element)>,
    state: Option<Element>)

  /** A precompiled node implementation: the implementation and its state class and core, once precompiled. */
  datatype PrecompiledImplementation = PrecompiledImplementation(
    nodeImplementation: NodeImplementation,
    stateClass: Option<Element>,
    core: Option<Element>)

  /** The global variables every program declares. */
  datatype Globs = Globs(
    iterFrame: VariableName,
    frame: VariableName,
    blockSize: VariableName,
    sampleRate: VariableName,
    nullSignal: VariableName,
    nullMessageReceiver: VariableName,
    emptyMessage: VariableName)

  datatype NodeVariableNames = NodeVariableNames(state: VariableName, messageReceivers: map<PortletId, VariableName>)

  /** The variable names index: globals, per-node names, cold group functions and io functions. */
  datatype VariableNamesIndex = VariableNamesIndex(
    globs: Globs,
    nodes: map<NodeId, NodeVariableNames>,
    coldDspGroups: map<string, VariableName>,
    ioMessageReceivers: map<NodeId, map<PortletId, VariableName>>,
    ioMessageSenders: map<NodeId, map<PortletId, VariableName>>)

  /** The shared code the program needs: functions to import and names to export, in dependency order. */
  datatype Dependencies = Dependencies(imports: seq<FuncDef>, exports: seq<VariableName>, code: Element)

  datatype PrecompiledGraph = PrecompiledGraph(
    fullTraversal: Traversal,
    hotDspGroup: DspGroup,
    coldDspGroups: seq<(string, ColdDspGroup)>)

  datatype Precompilation = Precompilation(
    variableNamesIndex: VariableNamesIndex,
    nodes: map<NodeId, PrecompiledNode>,
    nodeImplementations: seq<(string, PrecompiledImplementation)>,
    dependencies: Dependencies,
    graph: PrecompiledGraph)

  /** The io points of one node: the portlets exposed to the host. */
  datatype IoSpec = IoSpec(portletIds: seq<PortletId>)

  datatype Settings = Settings(
    debug: bool,
    ioMessageReceivers: seq<(NodeId, IoSpec)>,
    ioMessageSenders: seq<(NodeId, IoSpec)>)

  /** The compilation record the generators read. */
  datatype Compilation = Compilation(
    graph: Graph,
    settings: Settings,
    variableNamesIndex: VariableNamesIndex,
    precompilation: Precompilation)
}
