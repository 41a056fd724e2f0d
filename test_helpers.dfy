/**
 * Helpers the tests use: `normalizeCode`, which puts generated code in a
 * canonical form for comparison, and `makeCompilation`, which completes a
 * partial compilation record with defaults.
 */
module TestHelpers {
  import opened Wrappers
  import opened Text
  import DspGraph
  import EngineSettings

  /** `lines.map((line) => line.trim())` */
  function TrimAll(ls: seq<string>): (r: seq<string>)
    ensures |r| == |ls|
    ensures forall i :: 0 <= i < |ls| ==> r[i] == Trim(ls[i])
  {
    seq(|ls|, i requires 0 <= i < |ls| => Trim(ls[i]))
  }

  lemma TrimAllCons(x: string, ls: seq<string>)
    ensures TrimAll([x] + ls) == [Trim(x)] + TrimAll(ls)
  {
    var l, r := TrimAll([x] + ls), [Trim(x)] + TrimAll(ls);
    assert |l| == |r|;
    forall i | 0 <= i < |l| ensures l[i] == r[i] {
      if i > 0 { assert ([x] + ls)[i] == ls[i - 1]; }
    }
  }

  /** The lines `normalizeCode` keeps: every line trimmed, the empty ones dropped. */
  function Kept(raw: string): seq<string> {
    NonEmpty(TrimAll(Lines(raw)))
  }

  lemma KeptFacts(raw: string)
    ensures AllLines(Kept(raw))
    ensures forall i :: 0 <= i < |Kept(raw)| ==> Kept(raw)[i] != ""
    ensures forall i :: 0 <= i < |Kept(raw)| ==> Trim(Kept(raw)[i]) == Kept(raw)[i]
  {
    var ls := Lines(raw);
    forall i | 0 <= i < |ls|
      ensures IsLine(TrimAll(ls)[i]) && Trim(TrimAll(ls)[i]) == TrimAll(ls)[i]
    {
      TrimOfLine(ls[i]);
      TrimIdempotent(ls[i]);
    }
    NonEmptyLines(TrimAll(ls));
    forall i | 0 <= i < |Kept(raw)|
      ensures Trim(Kept(raw)[i]) == Kept(raw)[i]
    {
      var x := Kept(raw)[i];
      assert x in Kept(raw);
      var j :| 0 <= j < |TrimAll(ls)| && TrimAll(ls)[j] == x;
    }
  }

  /**
   * `normalizeCode(rawCode)`: split on line breaks, trim every line, drop
   * the empty ones and join the rest. The result has no empty line.
   */
  function NormalizeCode(raw: string): (r: string)
    ensures r == "" || forall l :: l in Lines(r) ==> l != ""
  {
    KeptFacts(raw);
    JoinHasNoBlankLine(Kept(raw));
    Join(Kept(raw))
  }

  /** The lines of the output are exactly the kept lines, so none is blank and each is trimmed. */
  lemma NormalizedLines(raw: string)
    ensures NormalizeCode(raw) == "" <==> Kept(raw) == []
    ensures Kept(raw) != [] ==> Lines(NormalizeCode(raw)) == Kept(raw)
    ensures forall l :: l in Lines(NormalizeCode(raw)) ==> Trim(l) == l
  {
    KeptFacts(raw);
    JoinHasNoBlankLine(Kept(raw));
    if Kept(raw) != [] {
      LinesOfJoin(Kept(raw));
    } else {
      assert Lines("") == [""];
      assert Trim("") == "";
    }
  }

  /**
   * Order: a first line is kept trimmed (or dropped when blank) ahead of
   * whatever the rest of the text normalises to.
   */
  lemma NormalizeLineThenRest(a: string, b: string)
    requires IsLine(a)
    ensures NormalizeCode(a + "\n" + b) ==
      if Trim(a) == "" then NormalizeCode(b)
      else if NormalizeCode(b) == "" then Trim(a)
      else Trim(a) + "\n" + NormalizeCode(b)
  {
    LinesAfterLine(a, b);
    var rest := TrimAll(Lines(b));
    TrimAllCons(a, Lines(b));
    NonEmptyAppend([Trim(a)], rest);
    assert ([Trim(a)] + rest)[1..] == rest;
    NormalizedLines(b);
    if Trim(a) != "" && Kept(b) != [] {
      JoinCons(Trim(a), Kept(b));
    } else if Trim(a) != "" {
      assert Kept(a + "\n" + b) == [Trim(a)];
    }
  }

  /** Normalising twice is normalising once. */
  lemma NormalizeIdempotent(raw: string)
    ensures NormalizeCode(NormalizeCode(raw)) == NormalizeCode(raw)
  {
    var k := Kept(raw);
    KeptFacts(raw);
    NormalizedLines(raw);
    if k == [] {
      assert Lines("") == [""];
      assert TrimAll([""]) == [""];
      assert NonEmpty([""]) == [];
    } else {
      assert TrimAll(k) == k;
      NonEmptyIdempotent(k);
    }
  }

  // ---------------------------------------------------------------------
  // makeCompilation
  // ---------------------------------------------------------------------

  datatype AudioSettings = AudioSettings(bitDepth: int, channelCount: int)

  /**
   * The compilation record of the test helpers. Node implementations,
   * message listeners, macros and the variable names index are uninterpreted here
   * (type parameters I, L, M and V).
   */
  datatype Compilation<I, L, M, V> = Compilation(
    graph: DspGraph.Graph,
    nodeImplementations: map<string, I>,
    audioSettings: AudioSettings,
    portSpecs: map<string, EngineSettings.PortSpec>,
    messageListenerSpecs: map<string, L>,
    macros: M,
    variableNames: V)

  /** `Partial<Compilation>`: any field may be left out. */
  datatype PartialCompilation<I, L, M, V> = PartialCompilation(
    graph: Option<DspGraph.Graph>,
    nodeImplementations: Option<map<string, I>>,
    audioSettings: Option<AudioSettings>,
    portSpecs: Option<map<string, EngineSettings.PortSpec>>,
    messageListenerSpecs: Option<map<string, L>>,
    macros: Option<M>,
    variableNames: Option<V>)

  const EmptyGraph: DspGraph.Graph := DspGraph.Graph([], map[])

  const DefaultAudioSettings: AudioSettings := AudioSettings(32, 2)

  /**
   * `makeCompilation(compilation)`: the defaults, then every field the
   * caller gave, which wins because the spread comes last. The default
   * variable names are generated (by `generateVariableNames`, a parameter
   * here) from the graph and implementations in use. `macros` is the
   * default macros module.
   */
  function MakeCompilation<I, L, M, V>(
    p: PartialCompilation<I, L, M, V>,
    macros: M,
    generateVariableNames: (map<string, I>, DspGraph.Graph) -> V): (r: Compilation<I, L, M, V>)
    ensures p.graph.Some? ==> r.graph == p.graph.value
    ensures p.graph.None? ==> r.graph == EmptyGraph
    ensures p.nodeImplementations.Some? ==> r.nodeImplementations == p.nodeImplementations.value
    ensures p.nodeImplementations.None? ==> r.nodeImplementations == map[]
    ensures p.audioSettings.Some? ==> r.audioSettings == p.audioSettings.value
    ensures p.audioSettings.None? ==> r.audioSettings.bitDepth == 32 && r.audioSettings.channelCount == 2
    ensures r.portSpecs == if p.portSpecs.Some? then p.portSpecs.value else map[]
    ensures r.messageListenerSpecs == if p.messageListenerSpecs.Some? then p.messageListenerSpecs.value else map[]
    ensures r.macros == if p.macros.Some? then p.macros.value else macros
    ensures p.variableNames.Some? ==> r.variableNames == p.variableNames.value
    ensures p.variableNames.None? ==> r.variableNames == generateVariableNames(r.nodeImplementations, r.graph)
  {
    var nodeImplementations := p.nodeImplementations.GetOr(map[]);
    var graph := p.graph.GetOr(EmptyGraph);
    var variableNames := generateVariableNames(nodeImplementations, graph);
    Compilation(
      graph,
      nodeImplementations,
      p.audioSettings.GetOr(DefaultAudioSettings),
      p.portSpecs.GetOr(map[]),
      p.messageListenerSpecs.GetOr(map[]),
      p.macros.GetOr(macros),
      p.variableNames.GetOr(variableNames))
  }
}
