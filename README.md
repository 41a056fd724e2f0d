# WebPd compiler core, modelled in Dafny

WebPd's compiler turns a Pure Data DSP graph into the source code of an audio
engine, either JavaScript or AssemblyScript compiled to WebAssembly. This
project models the core of that compiler and of the engine it produces, and
proves properties of the model:

- **Variable names** (`VariableNames`). Every inlet, outlet and state
  variable gets a name: the node id, a family marker (`_INS_`, `_OUTS_`,
  `_STATE_`), then the portlet id or local name.
- **Precompilation** (`Precompile`).
  - `initializePrecompilation` builds the starting record. Each node of the
    graph gets its implementation and state name, and nothing else is
    precompiled yet.
  - The orchestrator runs its phases in a fixed order:
    1. node implementations;
    2. dsp groups. The root group is built, then the cold and hot groups.
       Each group's inlinable groups are extracted and their nodes removed
       from the group's traversal. The cold groups are stored under "0",
       "1", …;
    3. io messages, inlets, message outlets and signal outlets;
    4. inline loops, then caching and loops;
    5. each node's state, initialization and message receivers;
    6. the dependencies.
  - The orchestrator is a class. Its trace records every per-node
    precompiler call, in order. The trace is proved equal to a phase-by-phase
    specification, `Trace`, and the ordering and coverage promises are
    proved about that specification.
- **Code generation** (`Generate`). These are pure functions from a
  compilation record to code AST fragments:
  - globals;
  - node state declarations;
  - initializations;
  - io message receivers and senders;
  - portlet declarations, where every message receiver ends with an
    "unsupported message" error;
  - the frame loop;
  - the cold group functions and their initialization;
  - imports and exports.
- **Helpers the tests rely on.** `renderCode` and `countTo` are in
  `FunctionalHelpers`. `normalizeCode` and `makeCompilation` are in
  `TestHelpers`. The line splitting, joining and trimming they share is in
  `Text`.
- **Compiler settings** (`CompileApi`). `validateSettings` checks the
  settings. `generateAccessorSpecs` builds the accessor specs of listened
  inlets.
- **The engine as its host sees it.**
  - `Ports` covers the port functions a module exports and the `read_`/`write_`
    filter.
  - `MessageCodec` covers the message wire format: a datum count, the datum
    tags, the byte offsets, then the payload. Its round trip,
    `Lift(Encode(m)) == Some(m)`, is proved.
  - `Messages` covers messages as mutable slot arrays, filled in datum by
    datum, and the message arrays messages are pushed onto.
  - `Engine` covers the port variables and accessors of a compiled module,
    the host's `ports` object, and a block of frames that calls an inlet
    listener.

Shared records are in `CompileTypes`, `DspGraph`, `Ast`, `EngineSettings`
and `Wrappers`. Object assignment is in `Objects`.

Some code the core calls is not part of this model:

- The dsp group builders (`buildGraphTraversalSignal`, `buildColdDspGroups`,
  `buildHotDspGroup`, `buildInlinableDspGroups`, `buildGroupSinkConnections`)
  are function values the caller supplies (`Precompile.Helpers`).
- `generateVariableNamesIndex` is replaced by an index the caller supplies.
  `InitializePrecompilation` requires that the index names every node.
- The per-node precompilers (`precompileMessageInlet` and the others) are
  recorded as trace events, not run.
- `getNodeImplementation`, `getNodeImplementationsUsedInGraph`,
  `removeNodesFromTraversal` and `isNodeInsideGroup` are given their plain
  meaning:
  - the first registered implementation of a type;
  - a filter of the implementations in registration order;
  - a filter that keeps order;
  - membership in a group's traversal.
- Where the compiler's own source for `validateSettings` is missing, the
  model follows the behaviour its tests require.

JavaScript objects that the code walks with `Object.keys`, `Object.values`
or `Object.entries` are kept as association lists in insertion order.
`object[key] = value` on them is `Objects.Put`: an existing key keeps its
place and takes the new value, a new key goes last, and each key is listed
once. Objects the code only indexes are maps.

## Model

| member | source | states |
|---|---|---|
| VariableNames.InletName | src/variable-names.ts:9-12 | The name is the node id, then `_INS_`, then the inlet id, at exact positions |
| VariableNames.OutletName | src/variable-names.ts:14-17 | The name is the node id, then `_OUTS_`, then the outlet id |
| VariableNames.StateName | src/variable-names.ts:19-22 | The name is the node id, then `_STATE_`, then the local name |
| VariableNames.InletNameInjective | src/variable-names.ts:9-12 | For one node, equal inlet names mean equal inlet ids |
| VariableNames.OutletNameInjective | src/variable-names.ts:14-17 | For one node, equal outlet names mean equal outlet ids |
| VariableNames.StateNameInjective | src/variable-names.ts:19-22 | For one node, equal state names mean equal local names |
| VariableNames.FamiliesDisjoint | src/variable-names.ts:9-22 | An inlet name, an outlet name and a state name of the same node never coincide |
| VariableNames.InletNameInjectiveAcrossNodes | src/variable-names.ts:9-12 | When node ids hold no underscore, an inlet name determines both the node id and the inlet id |
| VariableNames.ForNode | src/variable-names.ts:3-7 | The per-node generators `ins`, `outs` and `state` are the general ones with the node's id bound |
| VariableNames.InletNameExample | src/compile.test.ts:107 | Inlet `inlet1` of `node1` is named `node1_INS_inlet1` |
| Text.Lines | src/test-helpers.ts:17 | Splitting gives at least one piece, and no piece holds a line break |
| Text.LinesOfJoin | src/test-helpers.ts:17-20 | Splitting undoes joining for a non-empty list of single lines |
| Text.NonEmpty | src/test-helpers.ts:19 | The filter keeps exactly the non-empty elements, and no result is empty |
| Text.NonEmptyAppend | src/test-helpers.ts:19 | The filter distributes over concatenation, so order is kept |
| Text.NonEmptyIdempotent | src/test-helpers.ts:19 | A list with no empty element is left unchanged |
| Text.NonEmptyLinesOfJoin | src/test-helpers.ts:19-20 | Dropping the empty lines of a joined text gives the non-empty elements back |
| Text.JoinHasNoBlankLine | src/test-helpers.ts:19-20 | Joined non-empty lines contain no empty line, and the text is empty only for an empty list |
| Text.TrimStart | src/test-helpers.ts:18 | Returns the suffix left after the leading whitespace, which does not start with whitespace |
| Text.TrimEnd | src/test-helpers.ts:18 | Returns the prefix left before the trailing whitespace, which does not end with whitespace |
| Text.TrimmedEdges | src/test-helpers.ts:18 | A trimmed string neither starts nor ends with whitespace |
| Text.TrimIdempotent | src/test-helpers.ts:18 | Trimming twice is trimming once |
| Text.TrimOfLine | src/test-helpers.ts:18 | Trimming a single line gives a single line |
| TestHelpers.TrimAll | src/test-helpers.ts:18 | Element i of the result is element i trimmed, with the length kept |
| TestHelpers.KeptFacts | src/test-helpers.ts:16-19 | The kept lines are single lines, non-empty and already trimmed |
| TestHelpers.NormalizeCode | src/test-helpers.ts:15-21 | The normalised code is empty or has no empty line |
| TestHelpers.NormalizedLines | src/test-helpers.ts:15-21 | The output is empty exactly when no line is kept; otherwise its lines are exactly the kept lines, each trimmed |
| TestHelpers.NormalizeLineThenRest | src/test-helpers.ts:15-21 | A first line is kept trimmed, or dropped when blank, ahead of the normalised rest |
| TestHelpers.NormalizeIdempotent | src/test-helpers.ts:15-21 | Normalising twice is normalising once |
| TestHelpers.MakeCompilation | src/test-helpers.ts:26-43 | Each of the seven fields the caller gives wins over its default, `macros` and `variableNames` included. Without one: empty graph and implementations, bit depth 32 and 2 channels, no port specs or listeners, the default macros, and variable names generated from the resulting graph and implementations |
| FunctionalHelpers.RenderCode | src/functional-helpers.test.ts:37-42 | The rendered code is empty or holds no empty line |
| FunctionalHelpers.RenderLoneValue | src/functional-helpers.test.ts:37-42 | A lone value renders as its non-empty leaves, depth-first, joined by line breaks |
| FunctionalHelpers.RenderedLinesAreNonEmptyLeaves | src/functional-helpers.test.ts:17-22 | The lines of a rendered value are exactly its non-empty leaves, in order |
| FunctionalHelpers.RenderLineThenValue | src/functional-helpers.test.ts:37-42 | A template line followed by a value renders as the line, then the value's non-empty leaves |
| FunctionalHelpers.RenderLineThenLeaves | src/functional-helpers.test.ts:17-22 | When every leaf is a non-empty line, nothing is dropped |
| FunctionalHelpers.NestLeaves | src/functional-helpers.test.ts:17-22 | The leaves of `[a, b, [c, [d, e]]]` are those of a to e, in order |
| FunctionalHelpers.NestOfLeaves | src/functional-helpers.test.ts:17-29 | Nested leaves, text or numbers, flatten to the five leaf texts, and none is dropped |
| FunctionalHelpers.RenderNestedLeaves | src/functional-helpers.test.ts:17-29 | `bla` followed by `[blo, bli, [blu, [ble, bly]]]`, or the same with numbers, renders one leaf per line, depth-first |
| FunctionalHelpers.RenderDropsEmptyLeaves | src/functional-helpers.test.ts:37-42 | Empty strings at any depth leave no empty line: the result is `bla`, `bli`, `bly` |
| FunctionalHelpers.DropEmpties | src/functional-helpers.test.ts:37-42 | Filtering `[x, "", y, "", "", z]` gives `[x, y, z]` |
| FunctionalHelpers.RenderSingleLine | src/functional-helpers.test.ts:31-35 | A template that fills in to one non-empty line renders as that line |
| FunctionalHelpers.FillNumberTwice | src/functional-helpers.test.ts:31-35 | A number interpolated bare and inside an array fills in as its text both times |
| FunctionalHelpers.RenderNumberTwice | src/functional-helpers.test.ts:31-35 | `bla ${0} ${[0]}` renders as `bla 0 0` |
| FunctionalHelpers.CountTo | src/functional-helpers.test.ts:45-49 | `countTo(n)` has length n and element i is i |
| CompileApi.ValidateSettings | src/compile.test.ts:55-77 | Success exactly when audio settings are present and the bit depth is 32 or 64. Target and audio settings are kept, and missing listener specs default to none |
| CompileApi.ValidateValidated | src/compile.test.ts:56-65 | Validating already validated settings succeeds and changes nothing |
| CompileApi.DefaultListenerSpecs | src/compile.test.ts:56-65 | The test's settings validate with empty inlet listener specs |
| CompileApi.RejectedSettings | src/compile.test.ts:67-76 | A bit depth of 666 is rejected, and so are missing audio settings |
| CompileApi.NodeAccessorSpecs | src/compile.test.ts:98-110 | One read-only message-port spec per listed inlet, keyed by its inlet variable name, in order |
| CompileApi.ListenedEntries | src/compile.test.ts:98-110 | One read-only message-port entry per listed (node, inlet) pair, in listing order |
| CompileApi.GenerateAccessorSpecs | src/compile.test.ts:79-111 | The result is an object: each key is listed once, and every value is a read-only message port |
| CompileApi.GeneratedKeysAreListed | src/compile.test.ts:98-110 | Every written key is the inlet name of a listed pair |
| CompileApi.ListedKeysAreGenerated | src/compile.test.ts:98-110 | Every listed pair's inlet name is written, with a read-only message spec |
| CompileApi.AccessorSpecKeys | src/compile.test.ts:98-110 | The object holds a read-only message spec under a key if and only if the key is the inlet name of a listed pair |
| CompileApi.RepeatedPairOneKey | src/compile.test.ts:98-110 | A pair listed twice gives a single key |
| CompileApi.ThreeAccessorSpecs | src/compile.test.ts:98-110 | The test's specs give exactly `node1_INS_inlet1`, `node1_INS_inlet2` and `node2_INS_inlet1` |
| Ports.WasmPortFunctionNames | src/engine-assemblyscript/compile-to-assemblyscript.test.ts:55-101 | Every port function passes the filter. `write_X` exists exactly for writable ports, `read_X` exactly for readable float ports, and `read_X_length`/`read_X_elem` exactly for readable message ports |
| Ports.HostPortNames | src/engine-assemblyscript/assemblyscript-wasm-bindings.test.ts:198-201 | The host's `ports` object has `read_X` exactly when X is readable and `write_X` exactly when it is writable |
| Ports.AllPortFunctionNames | src/engine-assemblyscript/compile-to-assemblyscript.test.ts:41-45 | Every port function of a spec object starts with `read_` or `write_` |
| Ports.AllPortFunctionsMembers | src/engine-assemblyscript/compile-to-assemblyscript.test.ts:90-101 | A name is a port function of the specs if and only if one spec compiles it |
| Ports.CoreExportsAreNotPortFunctions | src/engine-assemblyscript/compile-to-assemblyscript.test.ts:261-286 | No core export or runtime helper passes the `read_`/`write_` filter |
| Ports.PortFunctionsAreFilteredExports | src/engine-assemblyscript/compile-to-assemblyscript.test.ts:41-45 | Filtering a module's exports gives exactly its port functions |
| Ports.ExportsWithoutPorts | src/engine-assemblyscript/compile-to-assemblyscript.test.ts:255-296 | Without port specs, the exports minus the ignored runtime helpers are exactly `CoreExports`, the 15 names the test lists, transcribed; the lemma adds only that those names and the runtime helpers are disjoint |
| Ports.FourPortKinds | src/engine-assemblyscript/compile-to-assemblyscript.test.ts:60-65 | The port functions of r/float, w/messages, rw/float and rw/messages ports |
| Ports.SevenPortFunctions | src/engine-assemblyscript/compile-to-assemblyscript.test.ts:90-101 | The four test ports export exactly the seven port functions the test lists |
| Engine.LiftAll | src/engine-assemblyscript/assemblyscript-wasm-bindings.test.ts:175-178 | Lifting a message array gives one datum list per message |
| Engine.LiftAllSnoc | src/engine-assemblyscript/assemblyscript-wasm-bindings.test.ts:175-178 | Lifting one more message appends its datums, or fails when that message fails |
| Engine.WasmEngine.constructor | src/engine-assemblyscript/compile-to-assemblyscript.test.ts:67-86 | The module holds one variable per port spec, of the port's type |
| Engine.WasmEngine.ReadFloat | src/engine-assemblyscript/compile-to-assemblyscript.test.ts:103-105 | `read_X` succeeds exactly for a readable float port and returns its value |
| Engine.WasmEngine.WriteFloat | src/engine-assemblyscript/compile-to-assemblyscript.test.ts:106-107 | `write_X` succeeds exactly for a writable float port and sets only that variable |
| Engine.WasmEngine.ReadArrayLength | src/engine-assemblyscript/compile-to-assemblyscript.test.ts:109 | `read_X_length` succeeds exactly for a readable message port and returns the array's length |
| Engine.WasmEngine.ReadArrayElem | src/engine-assemblyscript/compile-to-assemblyscript.test.ts:110-117 | `read_X_elem(i)` succeeds exactly for a readable message port and an index in range, and returns message i |
| Engine.WasmEngine.WriteArray | src/engine-assemblyscript/compile-to-assemblyscript.test.ts:119-125 | `write_X` succeeds exactly for a writable message port and replaces only that array |
| Engine.WasmEngine.ReadMessages | src/engine-assemblyscript/assemblyscript-wasm-bindings.test.ts:143-179 | The host read fails on a non-readable port. Otherwise it succeeds exactly when every message lifts, and returns the lifted datums |
| Engine.WasmEngine.WriteMessages | src/engine-assemblyscript/assemblyscript-wasm-bindings.test.ts:181-207 | The host write succeeds exactly for a writable message port. Only that array changes, and it lifts back to the values written |
| Engine.LowerAll | src/engine-assemblyscript/assemblyscript-wasm-bindings.test.ts:202 | A fresh message array holding the lowered values lifts back to them |
| Engine.LowerAndPush | src/engine-assemblyscript/assemblyscript-wasm-bindings.test.ts:202 | Lowering and pushing one message makes the array lift to one more value |
| Engine.WriteThenReadFloat | src/engine-assemblyscript/assemblyscript-wasm-bindings.test.ts:253-254 | Writing then reading a float port returns the value written |
| Engine.WriteThenReadMessages | src/engine-assemblyscript/assemblyscript-wasm-bindings.test.ts:202-206 | Writing then reading a message port from the host returns the messages written |
| Engine.ReplaceArray | src/engine-assemblyscript/compile-to-assemblyscript.test.ts:119-125 | After `write_X(array)`, the length and elements are the new array's |
| Engine.FiringFrames | src/engine-assemblyscript/compile-to-assemblyscript.test.ts:133-139 | At most one firing frame per frame of the block |
| Engine.FiringFramesMembers | src/engine-assemblyscript/compile-to-assemblyscript.test.ts:133-139 | A frame fires exactly when it is in the block and a multiple of the period, and firing frames increase |
| Engine.CallsStep | src/engine-assemblyscript/compile-to-assemblyscript.test.ts:133-139 | One more frame adds one listener call exactly when the generator fires in it |
| Engine.ListenerCalls | src/engine-assemblyscript/compile-to-assemblyscript.test.ts:163-165 | One call per firing frame, each with that frame's single message |
| Engine.RunBlockWithListener | src/engine-assemblyscript/compile-to-assemblyscript.test.ts:128-180 | Running a block frame by frame, the inlet's message array is emptied every frame, and the listener is called once per firing frame with that frame's message |
| Engine.EighteenFrames | src/engine-assemblyscript/compile-to-assemblyscript.test.ts:174-179 | An 18-frame block with period 5 fires on frames 0, 5, 10 and 15 |
| Engine.EighteenFrameBlock | src/engine-assemblyscript/compile-to-assemblyscript.test.ts:174-179 | The listener is then called four times, with the messages of frames 0, 5, 10 and 15 |
| MessageCodec.TemplateOf | src/engine-assemblyscript/assemblyscript-wasm-bindings.test.ts:341 | The template has one entry per datum: a float, or a string of the datum's length |
| MessageCodec.Header | src/engine-assemblyscript/assemblyscript-wasm-bindings.test.ts:343-376 | The header has 1 + n + (n + 1) slots and starts with the datum count |
| MessageCodec.HeaderEntries | src/engine-assemblyscript/assemblyscript-wasm-bindings.test.ts:349-376 | Slot 1 + i holds tag i, and slot n + 1 + i holds offset i |
| MessageCodec.OffsetSteps | src/engine-assemblyscript/assemblyscript-wasm-bindings.test.ts:359-376 | The first offset is the header's byte size, and each next offset adds the previous datum's byte size |
| MessageCodec.LastOffsetIsBlockSize | src/engine-assemblyscript/assemblyscript-wasm-bindings.test.ts:371-376 | The last offset is the byte size of the whole block |
| MessageCodec.PayloadLength | src/engine-assemblyscript/assemblyscript-wasm-bindings.test.ts:378-400 | The payload takes exactly the slots the template reserves |
| MessageCodec.EncodedDatumSlots | src/engine-assemblyscript/assemblyscript-wasm-bindings.test.ts:378-400 | Datum i's slots follow those of the datums before it |
| MessageCodec.EncodedHeader | src/engine-assemblyscript/assemblyscript-wasm-bindings.test.ts:343-376 | Tag i, then offsets i and i + 1 frame datum i's slots |
| MessageCodec.ReadDatums | src/engine-assemblyscript/assemblyscript-wasm-bindings.test.ts:404-425 | Reading the first k datums gives k datums |
| MessageCodec.Lift | src/engine-assemblyscript/assemblyscript-wasm-bindings.test.ts:404-425 | A successful lift gives as many datums as the count slot says |
| MessageCodec.ReadEncodedDatum | src/engine-assemblyscript/assemblyscript-wasm-bindings.test.ts:404-425 | Reading datum i of an encoded message gives datum i back |
| MessageCodec.LiftEncode | src/engine-assemblyscript/assemblyscript-wasm-bindings.test.ts:330-425 | Round trip: lifting an encoded message gives back its datums |
| MessageCodec.EncodeStringThenFloat | src/engine-assemblyscript/assemblyscript-wasm-bindings.test.ts:341-400 | `['bla', 2.3]` encodes as count 2, tags 1 and 0, offsets 24, 36 and 44, the three characters, then the float's two words |
| MessageCodec.EncodeTwoSlotDatum | src/engine-assemblyscript/assemblyscript-wasm-bindings.test.ts:458-483 | A one-datum message of two slots has offsets 16 and 24 |
| MessageCodec.EncodeNulsAndZero | src/engine-assemblyscript/assemblyscript-wasm-bindings.test.ts:442-483 | `'\x00\x00'` and `0` encode to the slot values the test reads |
| Messages.Message.FromTemplate | src/engine-assemblyscript/assemblyscript-wasm-bindings.test.ts:410-413 | A fresh block: the template's header, then a zeroed payload |
| Messages.Message.WriteStringDatum | src/engine-assemblyscript/assemblyscript-wasm-bindings.test.ts:414 | The characters replace the slots at datum i's offset, and nothing else changes |
| Messages.Message.WriteFloatDatum | src/engine-assemblyscript/assemblyscript-wasm-bindings.test.ts:415 | The float's two words replace the slots at datum i's offset, and nothing else changes |
| Messages.FilledStep | src/engine-assemblyscript/assemblyscript-wasm-bindings.test.ts:341 | Writing datum k into a block holding the first k datums gives the block holding k + 1 |
| Messages.WriteNext | src/engine-assemblyscript/assemblyscript-wasm-bindings.test.ts:341 | Writing the next datum by its type extends the filled block by one datum |
| Messages.LowerMessage | src/engine-assemblyscript/assemblyscript-wasm-bindings.test.ts:341-400 | A fresh message whose slots are exactly the encoding of the values |
| Messages.LiftMessage | src/engine-assemblyscript/assemblyscript-wasm-bindings.test.ts:404-425 | A message that lifts holds a count slot, and lifts to as many datums as that slot says |
| Messages.LiftMessageOfEncoding | src/engine-assemblyscript/assemblyscript-wasm-bindings.test.ts:404-425 | A message whose slots encode some datums lifts to exactly those datums |
| Messages.LowerThenLift | src/engine-assemblyscript/assemblyscript-wasm-bindings.test.ts:330-425 | Lowering then lifting gives back the values |
| Messages.WriteThenLift | src/engine-assemblyscript/assemblyscript-wasm-bindings.test.ts:404-425 | A `[STRING 5, FLOAT]` message written with a string and a float lifts to those two values |
| Messages.MessageArray.Create | src/engine-assemblyscript/assemblyscript-wasm-bindings.test.ts:445 | `createMessageArray` makes an empty array |
| Messages.MessageArray.Push | src/engine-assemblyscript/assemblyscript-wasm-bindings.test.ts:446-447 | `pushMessageToArray` appends the message |
| Messages.MessageArray.Get | src/engine-assemblyscript/assemblyscript-wasm-bindings.test.ts:449-456 | Element i is the i-th message in range, and none outside it |
| Messages.PushAll | src/engine-assemblyscript/assemblyscript-wasm-bindings.test.ts:445-456 | After pushing messages onto a fresh array, element i is the i-th message pushed |
| Messages.PushTwoLoweredMessages | src/engine-assemblyscript/assemblyscript-wasm-bindings.test.ts:442-483 | Two lowered messages pushed and read back by index keep the slot values the test expects |
| Messages.ToInt32 | src/engine-assemblyscript/assemblyscript-wasm-bindings.test.ts:292-327 | The stored i32 is in the signed 32-bit range, congruent to the number modulo 2^32, and equal to it when it fits |
| Messages.LowerArrayBufferOfIntegers | src/engine-assemblyscript/assemblyscript-wasm-bindings.test.ts:292-327 | A fresh buffer with one slot per integer, slot i holding integer i as an i32 |
| Messages.LowerSmallIntegers | src/engine-assemblyscript/assemblyscript-wasm-bindings.test.ts:304-326 | 1, 22, 333 and 4444 read back unchanged |
| DspGraph.Sources | src/compile/precompile/index.ts:120 | An inlet with no entry has no sources |
| DspGraph.ToNodes | src/compile/precompile/index.ts:61 | The nodes of a traversal, in its order |
| DspGraph.Values | src/compile/precompile/index.ts:73 | The graph's nodes in key order |
| Generate.GenerateGlobs | src/compile/generate.ts:26-40 | Seven declarations: the frame counters and block size as integers and the sample rate and null signal as floats, all 0; the null message receiver; then the empty message |
| Generate.GlobsDeclarationOrder | src/compile/generate.ts:30-40 | The globals are declared in exactly this order |
| Generate.StatefulNodes | src/compile/generate.ts:62-80 | Only traversal nodes with a state initialization are listed |
| Generate.StatefulNodesComplete | src/compile/generate.ts:62-80 | A traversal node is listed if and only if it has a state initialization |
| Generate.StateDeclarations | src/compile/generate.ts:69-76 | One state constant per listed node, in order |
| Generate.ReduceIsFold | src/compile/generate.ts:62-80 | The left reduction appends exactly the declarations of the reference fold |
| Generate.FoldIsFilterMap | src/compile/generate.ts:62-80 | The fold is a filter of the stateful nodes, then a map to their declarations |
| Generate.GenerateNodeStateDeclarations | src/compile/generate.ts:57-81 | The state declarations are one constant per stateful node of the full traversal, in traversal order |
| Generate.GenerateNodeInitializations | src/compile/generate.ts:83-90 | Every node's initialization once, in full traversal order |
| Generate.GroupsContaining | src/compile/generate.ts:100-104 | At most one id per cold group |
| Generate.GroupsContainingMembers | src/compile/generate.ts:100-104 | A group id is listed if and only if a cold group with that id contains the node |
| Generate.ColdCalls | src/compile/generate.ts:106-108 | One argument-less call per group, to its function name, in order |
| Generate.ContainingGroupsNamed | src/compile/generate.ts:106-108 | Every containing group has a function name in the index |
| Generate.NodeIoReceivers | src/compile/generate.ts:111-125 | One io receiver per exposed inlet, in the order listed |
| Generate.GenerateIoMessageReceivers | src/compile/generate.ts:92-127 | One entry per node with exposed inlets, holding its io receivers |
| Generate.IoReceiver | src/compile/generate.ts:111-125 | An io receiver is the function named in the index for the inlet; it takes `m` and first calls the node's own receiver for that inlet on `m` |
| Generate.IoReceiverBody | src/compile/generate.ts:111-125 | After the node's receiver, an io receiver calls exactly the functions of the cold groups that contain the node, and no other function |
| Generate.ColdCallsOfContaining | src/compile/generate.ts:99-107 | The calls made for the cold groups containing a node are exactly the calls of those groups' functions |
| Generate.NodeIoSenders | src/compile/generate.ts:139-147 | One sender per exposed outlet, built from the io name, node id and outlet id |
| Generate.GenerateIoMessageSenders | src/compile/generate.ts:129-149 | One entry per node with exposed outlets, holding its senders |
| Generate.ThrowNamesNodeAndInlet | src/compile/generate.ts:177-180 | The error names the node type, node id and inlet id at fixed places, and shows the message through the receiver's argument |
| Generate.DebugAddsHint | src/compile/generate.ts:177-180 | Debug mode only inserts the hint before the closing parentheses |
| Generate.ReceiverWithThrow | src/compile/generate.ts:172-183 | The receiver keeps its name |
| Generate.ReceiverEndsWithThrow | src/compile/generate.ts:172-183 | The receiver keeps its signature and body, then throws the error for this node and inlet |
| Generate.SignalOutDeclarations | src/compile/generate.ts:167-169 | Each signal outlet becomes a float variable set to 0, in order |
| Generate.Receivers | src/compile/generate.ts:172-183 | Each message receiver, in order, is followed by its error |
| Generate.SenderFunction | src/compile/generate.ts:191-198 | A sender takes `m` and calls each of its receivers on `m` once, in list order |
| Generate.NodeSenders | src/compile/generate.ts:189-200 | One function per message sender of the node, in order |
| Generate.TraversalNodesPrecompiled | src/compile/generate.ts:159-163 | Every node of the full traversal is in the graph and precompiled |
| Generate.PortletsPart | src/compile/generate.ts:162-185 | For each node, its signal outlets and then its receivers |
| Generate.SendersPart | src/compile/generate.ts:189-200 | For each node, its senders |
| Generate.ReceiversDeclare | src/compile/generate.ts:172-183 | The receivers declare exactly the receiver names, in order |
| Generate.NodePortletsDeclare | src/compile/generate.ts:165-184 | A node's portlet part declares its signal outlets, then its receivers |
| Generate.NodeSendersDeclare | src/compile/generate.ts:189-200 | A node's sender part declares exactly its sender names |
| Generate.PortletsPartDeclares | src/compile/generate.ts:162-185 | The first part declares every node's portlet names, in traversal order |
| Generate.SendersPartDeclares | src/compile/generate.ts:189-200 | The second part declares every node's sender names, in traversal order |
| Generate.GeneratePortletsDeclarations | src/compile/generate.ts:151-202 | Every node of the full traversal is precompiled, and the declared names are all its signal outlets and receivers, in traversal order, followed by all its senders |
| Generate.Loops | src/compile/generate.ts:215 | The loops of a traversal's nodes, in its order |
| Generate.GenerateLoop | src/compile/generate.ts:204-219 | The frame loop header, the frame event, the hot group's node loops in order, the frame increment, then the closing brace |
| Generate.LoopHeaderCounts | src/compile/generate.ts:213 | The header counts the frame index from 0, while below the block size, by one |
| Generate.ColdFunction | src/compile/generate.ts:240-246 | A cold function is named from the index, takes `m`, and runs the group's node loops in order |
| Generate.GenerateColdDspFunctions | src/compile/generate.ts:231-248 | One function per cold group, in cold group order |
| Generate.GenerateColdDspInitialization | src/compile/generate.ts:221-229 | The initialization calls every cold function once, in declaration order, with the empty message |
| Generate.GenerateImportsExports | src/compile/generate.ts:250-258 | Every import, then every export, each list in dependency order |
| Precompile.FlatMapMembers | src/compile/precompile/index.ts:84-97 | An item is in the flattened sequence if and only if some item's piece holds it |
| Precompile.PullingIds | src/compile/precompile/index.ts:73-75 | An id is listed if and only if a node with that id pulls signal |
| Precompile.PullingIdsOne | src/compile/precompile/index.ts:73-75 | One node contributes its id exactly when it pulls signal |
| Precompile.PullingIdsAppend | src/compile/precompile/index.ts:73-75 | The filter distributes over concatenation, so the ids come in the nodes' order, each node contributing at most once |
| Precompile.PullingIdsAt | src/compile/precompile/index.ts:73-75 | An id is listed if and only if the node at some position pulls signal and has that id |
| Precompile.RootDspGroup | src/compile/precompile/index.ts:70-76 | The root group runs the signal traversal of the whole graph; its out nodes are the ids of the graph's signal-pulling nodes, filtered in graph key order |
| Precompile.RootOutNodes | src/compile/precompile/index.ts:70-76 | The root group's out nodes are exactly the graph's signal-pulling nodes, in key order: for any k, those under the first k keys come first, then those under the rest |
| Precompile.RemoveNodes | src/compile/precompile/index.ts:91-94 | A node stays if and only if it was in the traversal and is not removed |
| Precompile.Trim | src/compile/precompile/index.ts:89-94 | A trimmed group keeps its out nodes and exactly its nodes not inlined |
| Precompile.Parents | src/compile/precompile/index.ts:83-97 | Each group is trimmed of its own inlinable groups |
| Precompile.ExtractInlinable | src/compile/precompile/index.ts:83-97 | The loop returns the trimmed groups and the inlinable groups of every group, in order |
| Precompile.InlinedNodesRemoved | src/compile/precompile/index.ts:89-94 | No node of an inlinable group stays in the group it was extracted from |
| Precompile.NatToString | src/compile/precompile/index.ts:101 | A group id is never empty |
| Precompile.NatToStringInjective | src/compile/precompile/index.ts:100-102 | Distinct indexes give distinct group ids |
| Precompile.NatToStringExamples | src/compile/precompile/index.ts:101 | 0, 7 and 12 print as "0", "7" and "12" |
| Objects.Put | src/compile/precompile/index.ts:102-105 | After `object[key] = value`, the object holds that entry |
| Objects.PutAssigned | src/compile/precompile/index.ts:102-105 | After `object[key] = value`, the object also keeps every entry under another key, gains no key but `key`, and still lists each key once |
| Objects.PutAllAssigned | src/compile/precompile/index.ts:100-105 | After a series of assignments, the object holds only entries it had or that were written, has exactly the keys of both, and lists each key once |
| Objects.PutFresh | src/compile/precompile/index.ts:102-105 | A new key is appended last |
| Objects.PutAllDistinct | src/compile/precompile/index.ts:100-105 | Entries with distinct keys, written into an empty object, are listed in writing order |
| Precompile.ColdEntries | src/compile/precompile/index.ts:100-105 | Cold group i is stored under `${i}` with its sink connections |
| Precompile.ColdGroupsNumbered | src/compile/precompile/index.ts:99-107 | The cold ids are distinct, and stored into an empty object they are listed in build order |
| Precompile.ColdAttachEvents | src/compile/precompile/index.ts:106 | The cold group names are registered for "0" up to n - 1, in order |
| Precompile.InletPhaseRanked | src/compile/precompile/index.ts:116-131 | Every inlet call belongs to the inlet phase |
| Precompile.MessageOutletPhaseRanked | src/compile/precompile/index.ts:141-147 | Every message outlet call belongs to the message outlet phase |
| Precompile.SignalOutletPhaseRanked | src/compile/precompile/index.ts:151-157 | Every signal outlet call belongs to the signal outlet phase |
| Precompile.DspPhaseRanked | src/compile/precompile/index.ts:164-169 | Every caching and loop call belongs to the dsp phase |
| Precompile.PhaseRanked | src/compile/precompile/index.ts:59-181 | Phase k makes only calls of rank k |
| Precompile.TraceUpToOrdered | src/compile/precompile/index.ts:59-181 | The first n phases make their calls ordered by phase, all below n |
| Precompile.TraceParts | src/compile/precompile/index.ts:59-181 | The trace is the concatenation of the phases, each written out |
| Precompile.TraceLocates | src/compile/precompile/index.ts:59-181 | A call is in the trace if and only if its own phase makes it |
| Precompile.PhaseOrder | src/compile/precompile/index.ts:59-181 | A call of an earlier phase always comes before a call of a later one |
| Precompile.MessageOutletsAfterInlets | src/compile/precompile/index.ts:139-147 | Every inlet call comes before every message outlet call |
| Precompile.DependenciesLast | src/compile/precompile/index.ts:179-180 | The dependencies are precompiled exactly once, by the last call |
| Precompile.MessageInletsPrecompiled | src/compile/precompile/index.ts:116-131 | A message inlet is precompiled if and only if some node of the full traversal has it |
| Precompile.SignalInletsPrecompiled | src/compile/precompile/index.ts:116-131 | A signal inlet is precompiled if and only if some node of the full traversal has it with no sources |
| Precompile.NodeCallsPrecompiled | src/compile/precompile/index.ts:171-177 | State, initialization and receiver calls are made exactly for the nodes of the full traversal |
| Precompile.EveryNodePrecompiled | src/compile/precompile/index.ts:171-177 | Every node of the full traversal, and no other, gets its state, initialization and receivers precompiled |
| Precompile.InlineLoopPerGroup | src/compile/precompile/index.ts:160-162 | An inline loop is precompiled exactly for the inlinable groups, once per group |
| Precompile.InlineLoopCount | src/compile/precompile/index.ts:160-162 | There is one inline loop call per inlinable group |
| Precompile.RunIsTrace | src/compile/precompile/index.ts:59-181 | What the orchestrator appends, phase after phase, is the trace of the run's inputs |
| Precompile.DspCallNode | src/compile/precompile/index.ts:164-169 | A caching or loop call names a node of the hot or a cold group |
| Precompile.GroupDspCallNode | src/compile/precompile/index.ts:164-169 | A caching or loop call of some groups names a node of one of them |
| Precompile.SignalOutletCallNode | src/compile/precompile/index.ts:151-157 | A signal outlet call names a node of the hot or a cold group |
| Precompile.GroupSignalOutletCallNode | src/compile/precompile/index.ts:151-157 | A signal outlet call of some groups names a node of one of them |
| Precompile.TrimmedNodeKept | src/compile/precompile/index.ts:89-94 | A node of a trimmed group is in the group it came from and not inlined from it |
| Precompile.DspOnlyForKeptNodes | src/compile/precompile/index.ts:159-169 | Caching is precompiled only for nodes left in a hot or cold group after inlining |
| Precompile.SignalOutletsOnlyForKeptNodes | src/compile/precompile/index.ts:149-157 | Signal outlets are precompiled only for nodes left in a hot or cold group after inlining |
| Precompile.AllGroups | src/compile/precompile/index.ts:77-83 | The hot group comes first, then the cold groups |
| Precompile.TrimmedInGraph | src/compile/precompile/index.ts:91-94 | Trimmed groups hold only nodes of the graph |
| Precompile.LookupImplementation | src/compile/precompile/index.ts:199-202 | Succeeds exactly when the type is registered, with a registered implementation of it; fails otherwise with an error naming the type |
| Precompile.InitialNodes | src/compile/precompile/index.ts:196-252 | Succeeds exactly when every node's type is registered, with exactly the given nodes; on failure the error names some node's type |
| Precompile.InitialNodesAreInitial | src/compile/precompile/index.ts:198-251 | Each node starts with its implementation and state name, empty contexts, no state, empty code and nothing precompiled |
| Precompile.UsedImplementations | src/compile/precompile/index.ts:253-271 | Exactly the registered implementations of types the graph uses, with no state class or core yet |
| Precompile.InitializePrecompilation | src/compile/precompile/index.ts:183-286 | Succeeds exactly when every node's type is registered. Then: one initial record per graph node, the given index, the used implementations, empty dependencies and empty hot and cold groups |
| Precompile.UsedTypes | src/compile/precompile/index.ts:255-257 | A type has a used implementation if and only if the graph uses it and it is registered |
| Precompile.UsedImplementationTypes | src/compile/precompile/index.ts:253-271 | When every node's type is registered, the implementation types are exactly the graph's node types |
| Precompile.Precompiler.constructor | src/compile/precompile/index.ts:59-61 | The orchestrator starts from the precompilation's graph, traversal, implementation types and groups, with no call made |
| Precompile.Precompiler.PrecompileImplementations | src/compile/precompile/index.ts:63-67 | The state class, then the core, of every node type, in order |
| Precompile.Precompiler.StoreColdGroups | src/compile/precompile/index.ts:99-107 | Cold group i is stored under `${i}` and its name registered, in order |
| Precompile.Precompiler.PrecompileNodeInlets | src/compile/precompile/index.ts:118-130 | A node's message inlets, and its signal inlets with no source, in inlet order |
| Precompile.Precompiler.PrecompileInlets | src/compile/precompile/index.ts:116-131 | The inlets of every node, node by node |
| Precompile.Precompiler.PrecompileNodeMessageOutlets | src/compile/precompile/index.ts:142-146 | A node's message outlets, in outlet order |
| Precompile.Precompiler.PrecompileMessageOutlets | src/compile/precompile/index.ts:141-147 | The message outlets of every node, node by node |
| Precompile.Precompiler.PrecompileNodeSignalOutlets | src/compile/precompile/index.ts:153-155 | Every outlet of the node, in order |
| Precompile.Precompiler.PrecompileGroupSignalOutlets | src/compile/precompile/index.ts:152-156 | The outlets of every node of the group, in traversal order |
| Precompile.Precompiler.PrecompileSignalOutlets | src/compile/precompile/index.ts:151-157 | The outlets of every group, group by group |
| Precompile.Precompiler.PrecompileInlineLoops | src/compile/precompile/index.ts:160-162 | One inline loop per inlinable group, in order |
| Precompile.Precompiler.PrecompileGroupDsp | src/compile/precompile/index.ts:165-168 | Caching, then loop, of every node of the group |
| Precompile.Precompiler.PrecompileDsp | src/compile/precompile/index.ts:164-169 | Caching and loops of every group, group by group |
| Precompile.Precompiler.PrecompileNodes | src/compile/precompile/index.ts:173-177 | State, initialization and receivers of every node, node by node |
| Precompile.Precompiler.BuildDspGroups | src/compile/precompile/index.ts:69-107 | The hot group is stored trimmed. The trimmed cold groups are stored under numbered ids, and the inlinable groups are returned |
| Precompile.Precompiler.PrecompilePortlets | src/compile/precompile/index.ts:109-157 | The io messages, then inlets, message outlets and signal outlets |
| Precompile.Precompiler.PrecompileDspAndNodes | src/compile/precompile/index.ts:159-180 | Inline loops, dsp, the node calls, then dependencies |
| Precompile.Precompiler.Precompile | src/compile/precompile/index.ts:59-181 | Every phase in order, with the hot group trimmed and the trimmed cold groups numbered; `RunIsTrace` ties the calls to `Trace` |

## Left out

- Compiling an empty graph, the top-level `compile` entry point and the code generators of the targets: their source is not part of this model.
- `generateEmbeddedArrays`: it serialises float arrays as JSON text, and float printing is not modelled.
- `round` in the test helpers: floating-point rounding is not modelled.
- Float datums are two uninterpreted 32-bit words. The IEEE 754 encoding of 64-bit floats and the rounding of `f32` port variables are not modelled. Float port values are real numbers.
- Template whitespace in generated code. The AST keeps the interpolated elements in order, but not the text layout between them.
- The WebAssembly runtime: compiling a module, `configure`, the output block, metadata and `setArray`. They need the AssemblyScript compiler and the WebAssembly runtime.
- `createNamespace` proxies, which throw on reads of missing keys. The model uses plain maps and association lists, and guards lookups with preconditions.
- Integer-like keys. JavaScript lists keys such as "0" or "12" before all other keys, in ascending numeric order, whatever their insertion order. The association lists keep insertion order for every key. So the order of io receivers and senders, of `Object.values(graph)` (and with it the root group's out nodes) and of port specs differs from the source's when node ids or port names are numeric strings. Cold group ids "0", "1", … are inserted in ascending order, so their order is the same.
- CompileApi.GenerateAccessorSpecs: the source takes the engine's variable names as an argument and reads each inlet's name there. The model names inlets with `VariableNames.InletName` directly, so it does not capture a node or inlet missing from that index.
- `makeCompilation` with a field explicitly set to `undefined`. A partial record is modelled as present or absent fields only.
- Aliasing. The dsp group objects the source mutates through shared references, and the messages it pushes into arrays, are modelled as values. The trimmed groups are stored where the aliases would make them visible.
- Precompile.LookupImplementation: the error text "unknown node type …" is chosen by the model, because the source of `getNodeImplementation` is not part of this model.
- Precompile.InitializePrecompilation: `generateVariableNamesIndex` is replaced by an index the caller supplies. The function requires that the index names every node of the graph.
- Precompile.Precompiler.Precompile: the builders' results are assumed to hold only nodes of the graph (`GroupsInGraph`). The per-node precompilers are recorded as calls, and their effect on the record is not modelled.
- Precompile.PhaseRanked: the trace specification functions return no call for a group node missing from the graph. The methods require every node to be present.
- Generate.IoReceiverBody: cold group functions are declared with one argument `m`, but io receivers call them with none. The model follows the code as written.
- Precompile.Precompiler.PrecompileNodeSignalOutlets: every outlet of every kept node gets the signal outlet precompiler, including message outlets. The model follows the code as written.
- MessageCodec.Lift: a malformed block (a wrong count, offsets out of range) lifts to a failure. What the engine does with such a block is not modelled.
- Engine.RunBlockWithListener: the generator node and the listener are modelled for the one graph shape of the listener example, not for an arbitrary compiled graph.
- CompileApi.ValidateSettings: the source of `validateSettings` is not part of this model. Its contract follows what the tests require: a missing or unsupported bit depth is rejected, and missing listener specs become empty.
