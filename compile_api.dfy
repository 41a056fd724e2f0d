/**
 * The compiler's public helpers around the compile entry point: validation
 * of the user's settings, and the accessor specs generated for the inlets
 * the host listens to.
 */
module CompileApi {
  import opened Wrappers
  import opened EngineSettings
  import opened Objects
  import VariableNames

  datatype Target = JavaScript | AssemblyScript

  datatype ChannelCount = ChannelCount(inputs: nat, outputs: nat)

  datatype AudioSettings = AudioSettings(channelCount: ChannelCount, bitDepth: int)

  /** An inlet listener spec: a node id and the ids of its listened inlets. */
  type InletListenerSpecs = seq<(string, seq<string>)>

  /** The settings as the caller hands them over: `audioSettings` may be missing, `inletListenerSpecs` is optional. */
  datatype CompilerSettings = CompilerSettings(
    target: Target,
    audioSettings: Option<AudioSettings>,
    inletListenerSpecs: Option<InletListenerSpecs>)

  /** Settings once validated: every field present. */
  datatype ValidatedSettings = ValidatedSettings(
    target: Target,
    audioSettings: AudioSettings,
    inletListenerSpecs: InletListenerSpecs)

  predicate SupportedBitDepth(bitDepth: int) {
    bitDepth == 32 || bitDepth == 64
  }

  /**
   * `validateSettings`: settings without audio settings, or with a bit depth
   * other than 32 or 64, are rejected; otherwise the inlet listener specs
   * default to none.
   */
  function ValidateSettings(s: CompilerSettings): (r: Result<ValidatedSettings, string>)
    ensures r.Success? <==> s.audioSettings.Some? && SupportedBitDepth(s.audioSettings.value.bitDepth)
    ensures r.Success? ==> r.value.target == s.target && Some(r.value.audioSettings) == s.audioSettings
    ensures r.Success? && s.inletListenerSpecs.None? ==> r.value.inletListenerSpecs == []
    ensures r.Success? && s.inletListenerSpecs.Some? ==> r.value.inletListenerSpecs == s.inletListenerSpecs.value
  {
    match s.audioSettings
    case None => Failure("audioSettings missing")
    case Some(audio) =>
      if !SupportedBitDepth(audio.bitDepth) then Failure("invalid bitDepth")
      else Success(ValidatedSettings(s.target, audio, s.inletListenerSpecs.GetOr([])))
  }

  /** The settings a validated record stands for, every optional field given. */
  function AsGiven(v: ValidatedSettings): CompilerSettings {
    CompilerSettings(v.target, Some(v.audioSettings), Some(v.inletListenerSpecs))
  }

  /** Validation is idempotent: validated settings pass again, unchanged. */
  lemma ValidateValidated(s: CompilerSettings)
    requires ValidateSettings(s).Success?
    ensures ValidateSettings(AsGiven(ValidateSettings(s).value)) == ValidateSettings(s)
  {
  }

  /** The settings of the validation test: no listener specs given, so none after validation. */
  lemma DefaultListenerSpecs()
    ensures ValidateSettings(CompilerSettings(AssemblyScript, Some(AudioSettings(ChannelCount(2, 2), 32)), None))
      == Success(ValidatedSettings(AssemblyScript, AudioSettings(ChannelCount(2, 2), 32), []))
  {
  }

  /** A bit depth of 666 is rejected, and so are settings that lack audio settings altogether. */
  lemma RejectedSettings(target: Target, channels: ChannelCount, specs: Option<InletListenerSpecs>)
    ensures ValidateSettings(CompilerSettings(target, Some(AudioSettings(channels, 666)), specs)).Failure?
    ensures ValidateSettings(CompilerSettings(target, None, specs)).Failure?
  {
  }

  /** The accessor spec of a listened inlet: a message port the host reads. */
  const ListenerAccessor: PortSpec := PortSpec(Read, MessagesPort)

  /** The accessor specs of one node's listened inlets, in the order listed. */
  function NodeAccessorSpecs(nodeId: string, inletIds: seq<string>): (r: seq<(string, PortSpec)>)
    ensures |r| == |inletIds|
    ensures forall i :: 0 <= i < |r| ==> r[i] == (VariableNames.InletName(nodeId, inletIds[i]), ListenerAccessor)
  {
    seq(|inletIds|, i requires 0 <= i < |inletIds| => (VariableNames.InletName(nodeId, inletIds[i]), ListenerAccessor))
  }

  /** The number of listened inlets. */
  function ListenedCount(specs: InletListenerSpecs): nat {
    if specs == [] then 0 else |specs[0].1| + ListenedCount(specs[1..])
  }

  /** The entries written for the listed (node, inlet) pairs, in listing order. */
  function ListenedEntries(specs: InletListenerSpecs): (r: seq<(string, PortSpec)>)
    ensures |r| == ListenedCount(specs)
    ensures forall e :: e in r ==> e.1 == ListenerAccessor
  {
    if specs == [] then []
    else NodeAccessorSpecs(specs[0].0, specs[0].1) + ListenedEntries(specs[1..])
  }

  /**
   * `generateAccessorSpecs`: an object keyed by inlet variable name, written
   * once per listened (node, inlet) pair in listing order; a pair listed
   * twice gives one key.
   */
  function GenerateAccessorSpecs(specs: InletListenerSpecs): (r: seq<(string, PortSpec)>)
    ensures DistinctKeys(r)
    ensures forall e :: e in r ==> e.1 == ListenerAccessor
  {
    PutAllAssigned([], ListenedEntries(specs));
    PutAll([], ListenedEntries(specs))
  }

  /** The keys the specs name: the inlet name of every listed (node, inlet) pair. */
  ghost predicate ListedKey(specs: InletListenerSpecs, key: string) {
    exists k, j :: 0 <= k < |specs| && 0 <= j < |specs[k].1| && key == VariableNames.InletName(specs[k].0, specs[k].1[j])
  }

  /** Every written key is the inlet name of a listed pair. */
  lemma {:induction false} GeneratedKeysAreListed(specs: InletListenerSpecs, e: (string, PortSpec))
    requires e in ListenedEntries(specs)
    ensures ListedKey(specs, e.0)
  {
    var head := NodeAccessorSpecs(specs[0].0, specs[0].1);
    if e in head {
      var j :| 0 <= j < |head| && head[j] == e;
      assert e.0 == VariableNames.InletName(specs[0].0, specs[0].1[j]);
    } else {
      GeneratedKeysAreListed(specs[1..], e);
      var k, j :| 0 <= k < |specs[1..]| && 0 <= j < |specs[1..][k].1| &&
        e.0 == VariableNames.InletName(specs[1..][k].0, specs[1..][k].1[j]);
      assert specs[1..][k] == specs[k + 1];
    }
  }

  /** The inlet name of every listed pair is written. */
  lemma {:induction false} ListedKeysAreGenerated(specs: InletListenerSpecs, k: nat, j: nat)
    requires k < |specs| && j < |specs[k].1|
    ensures (VariableNames.InletName(specs[k].0, specs[k].1[j]), ListenerAccessor) in ListenedEntries(specs)
  {
    if k == 0 {
      assert NodeAccessorSpecs(specs[0].0, specs[0].1)[j] == (VariableNames.InletName(specs[k].0, specs[k].1[j]), ListenerAccessor);
    } else {
      ListedKeysAreGenerated(specs[1..], k - 1, j);
      assert specs[1..][k - 1] == specs[k];
    }
  }

  /**
   * The object holds a read-only message spec under `key` exactly when `key`
   * is the inlet name of a listed pair; it holds nothing else.
   */
  lemma AccessorSpecKeys(specs: InletListenerSpecs, key: string)
    ensures (key, ListenerAccessor) in GenerateAccessorSpecs(specs) <==> ListedKey(specs, key)
  {
    var entries := ListenedEntries(specs);
    var r := GenerateAccessorSpecs(specs);
    PutAllAssigned([], entries);
    if (key, ListenerAccessor) in r {
      assert HasKey(r, key);
      var e :| e in entries && e.0 == key;
      GeneratedKeysAreListed(specs, e);
    }
    if ListedKey(specs, key) {
      var k, j :| 0 <= k < |specs| && 0 <= j < |specs[k].1| && key == VariableNames.InletName(specs[k].0, specs[k].1[j]);
      ListedKeysAreGenerated(specs, k, j);
      assert HasKey(entries, key);
      var e :| e in r && e.0 == key;
      assert e == (key, ListenerAccessor);
    }
  }

  /** The same (node, inlet) pair listed twice gives a single key. */
  lemma RepeatedPairOneKey()
    ensures GenerateAccessorSpecs([("node1", ["inlet1", "inlet1"])]) == [("node1_INS_inlet1", PortSpec(Read, MessagesPort))]
  {
    var entries := ListenedEntries([("node1", ["inlet1", "inlet1"])]);
    assert VariableNames.InletName("node1", "inlet1") == "node1_INS_inlet1";
    assert entries == [("node1_INS_inlet1", ListenerAccessor), ("node1_INS_inlet1", ListenerAccessor)];
    assert entries[..1] == [("node1_INS_inlet1", ListenerAccessor)];
    assert entries[..1][..0] == [];
    var one := ("node1_INS_inlet1", ListenerAccessor);
    assert PutAll([], entries[..1]) == Put([], one.0, one.1) == [one];
    assert PutAll([], entries) == Put([one], one.0, one.1) == [one];
  }

  /** The accessor specs of the test: two listened inlets on `node1`, one on `node2`. */
  lemma ThreeAccessorSpecs()
    ensures GenerateAccessorSpecs([("node1", ["inlet1", "inlet2"]), ("node2", ["inlet1"])]) == [
      ("node1_INS_inlet1", PortSpec(Read, MessagesPort)),
      ("node1_INS_inlet2", PortSpec(Read, MessagesPort)),
      ("node2_INS_inlet1", PortSpec(Read, MessagesPort))]
  {
    var specs := [("node1", ["inlet1", "inlet2"]), ("node2", ["inlet1"])];
    var entries := ListenedEntries(specs);
    assert specs[1..] == [("node2", ["inlet1"])];
    assert specs[1..][1..] == [];
    assert VariableNames.InletName("node1", "inlet1") == "node1_INS_inlet1";
    assert VariableNames.InletName("node1", "inlet2") == "node1_INS_inlet2";
    assert VariableNames.InletName("node2", "inlet1") == "node2_INS_inlet1";
    assert NodeAccessorSpecs("node1", ["inlet1", "inlet2"]) ==
      [("node1_INS_inlet1", ListenerAccessor), ("node1_INS_inlet2", ListenerAccessor)];
    assert NodeAccessorSpecs("node2", ["inlet1"]) == [("node2_INS_inlet1", ListenerAccessor)];
    assert entries == [
      ("node1_INS_inlet1", ListenerAccessor), ("node1_INS_inlet2", ListenerAccessor), ("node2_INS_inlet1", ListenerAccessor)];
    PutAllDistinct(entries);
  }
}
