/**
 * The names a compiled engine exports. Every port spec gives the WebAssembly
 * module its accessor functions (`read_X`, `read_X_length`, `read_X_elem`,
 * `write_X`), and gives the host-side engine object its `ports` entries
 * (`read_X`, `write_X`). Beside those, the module always exports the same
 * core functions, plus the runtime helpers the AssemblyScript compiler adds.
 */
module Ports {
  import opened EngineSettings

  predicate StartsWith(s: string, prefix: string) {
    |prefix| <= |s| && s[..|prefix|] == prefix
  }

  /** A name the port-function filter keeps: it starts with `read_` or `write_`. */
  predicate IsPortFunctionName(s: string) {
    StartsWith(s, "read_") || StartsWith(s, "write_")
  }

  lemma StartsWithConcat(prefix: string, rest: string)
    ensures StartsWith(prefix + rest, prefix)
  {
    assert (prefix + rest)[..|prefix|] == prefix;
  }

  /**
   * The WebAssembly functions compiled for port `name`: a readable float port
   * gets `read_X`, a readable message-array port gets `read_X_length` and
   * `read_X_elem`, and a writable port of either type gets `write_X`.
   */
  function WasmPortFunctions(name: string, spec: PortSpec): seq<string> {
    var readers :=
      if !spec.access.CanRead() then []
      else if spec.portType == FloatPort then ["read_" + name]
      else ["read_" + name + "_length", "read_" + name + "_elem"];
    var writes := if spec.access.CanWrite() then ["write_" + name] else [];
    readers + writes
  }

  /**
   * Every compiled port function passes the `read_`/`write_` filter, `write_X`
   * is compiled exactly for writable ports, `read_X` exactly for readable
   * float ports, and the `_length`/`_elem` pair exactly for readable
   * message-array ports.
   */
  lemma WasmPortFunctionNames(name: string, spec: PortSpec)
    ensures forall f :: f in WasmPortFunctions(name, spec) ==> IsPortFunctionName(f)
    ensures ("write_" + name in WasmPortFunctions(name, spec)) <==> spec.access.CanWrite()
    ensures spec.portType == FloatPort ==> (("read_" + name in WasmPortFunctions(name, spec)) <==> spec.access.CanRead())
    ensures spec.portType == MessagesPort ==> ("read_" + name !in WasmPortFunctions(name, spec))
    ensures spec.portType == MessagesPort ==>
      (("read_" + name + "_length" in WasmPortFunctions(name, spec)) <==> spec.access.CanRead()) &&
      (("read_" + name + "_elem" in WasmPortFunctions(name, spec)) <==> spec.access.CanRead())
  {
    StartsWithConcat("read_", name);
    StartsWithConcat("read_", name + "_length");
    StartsWithConcat("read_", name + "_elem");
    StartsWithConcat("write_", name);
    assert "read_" + name + "_length" == "read_" + (name + "_length");
    assert "read_" + name + "_elem" == "read_" + (name + "_elem");
    ReadWriteNamesDiffer(name, name);
    ReadWriteNamesDiffer(name + "_length", name);
    ReadWriteNamesDiffer(name + "_elem", name);
    assert |"read_" + name + "_length"| != |"read_" + name|;
    assert |"read_" + name + "_elem"| != |"read_" + name|;
  }

  /** A `read_` name is never a `write_` name: they differ in their first character. */
  lemma ReadWriteNamesDiffer(a: string, b: string)
    ensures "read_" + a != "write_" + b
  {
    assert ("read_" + a)[0] == 'r' && ("write_" + b)[0] == 'w';
  }

  /** The host engine's `ports` entries: `read_X` when readable, `write_X` when writable, whatever the type. */
  function HostPortNames(name: string, spec: PortSpec): (r: seq<string>)
    ensures ("read_" + name in r) <==> spec.access.CanRead()
    ensures ("write_" + name in r) <==> spec.access.CanWrite()
    ensures |r| <= 2
  {
    ReadWriteNamesDiffer(name, name);
    (if spec.access.CanRead() then ["read_" + name] else [])
    + (if spec.access.CanWrite() then ["write_" + name] else [])
  }

  /** The port functions of a whole port-spec object, given as its entries, in entry order. */
  function AllPortFunctions(specs: seq<(string, PortSpec)>): seq<string> {
    if specs == [] then []
    else AllPortFunctions(specs[..|specs| - 1]) + WasmPortFunctions(specs[|specs| - 1].0, specs[|specs| - 1].1)
  }

  /** Every port function of the specs passes the `read_`/`write_` filter. */
  lemma {:induction false} AllPortFunctionNames(specs: seq<(string, PortSpec)>)
    ensures forall f :: f in AllPortFunctions(specs) ==> IsPortFunctionName(f)
  {
    if specs != [] {
      AllPortFunctionNames(specs[..|specs| - 1]);
      WasmPortFunctionNames(specs[|specs| - 1].0, specs[|specs| - 1].1);
    }
  }

  /** A name is a port function of the specs exactly when one of the specs compiles it. */
  lemma {:induction false} AllPortFunctionsMembers(specs: seq<(string, PortSpec)>, f: string)
    ensures f in AllPortFunctions(specs) <==> exists i :: 0 <= i < |specs| && f in WasmPortFunctions(specs[i].0, specs[i].1)
  {
    if specs != [] {
      var init := specs[..|specs| - 1];
      AllPortFunctionsMembers(init, f);
      if f in AllPortFunctions(init) {
        var i :| 0 <= i < |init| && f in WasmPortFunctions(init[i].0, init[i].1);
        assert specs[i] == init[i];
      }
      if exists i :: 0 <= i < |specs| && f in WasmPortFunctions(specs[i].0, specs[i].1) {
        var i :| 0 <= i < |specs| && f in WasmPortFunctions(specs[i].0, specs[i].1);
        if i < |init| {
          assert specs[i] == init[i];
        }
      }
    }
  }

  /** The functions every engine module exports. */
  const CoreExports: set<string> := {
    "configure", "loop", "setArray", "memory",
    "MESSAGE_DATUM_TYPE_FLOAT", "MESSAGE_DATUM_TYPE_STRING",
    "createMessage", "getMessageDatumTypes", "createMessageArray", "pushMessageToArray",
    "writeStringDatum", "writeFloatDatum", "readStringDatum", "readFloatDatum",
    "__new"
  }

  /** Runtime helpers the AssemblyScript compiler adds besides `__new`. */
  const RuntimeHelpers: set<string> := {"__collect", "__pin", "__rtti_base", "__unpin"}

  /** The export names of a compiled engine module. */
  function ModuleExports(specs: seq<(string, PortSpec)>): set<string> {
    CoreExports + RuntimeHelpers + set f | f in AllPortFunctions(specs)
  }

  /** A name whose first character is neither 'r' nor 'w' is no port function. */
  lemma NeitherReadNorWrite(f: string)
    requires |f| > 0 && f[0] != 'r' && f[0] != 'w'
    ensures !IsPortFunctionName(f)
  {
    assert |f| < 5 || f[..5][0] == f[0];
    assert |f| < 6 || f[..6][0] == f[0];
  }

  /** A name with no underscore at index 4 or 5 is no port function. */
  lemma NoUnderscoreAfterVerb(f: string)
    requires |f| > 5 && f[4] != '_' && f[5] != '_'
    ensures !IsPortFunctionName(f)
  {
    assert f[..5][4] == f[4] && f[..6][5] == f[5];
  }

  lemma CoreExportsAreNotPortFunctions()
    ensures forall f :: f in CoreExports + RuntimeHelpers ==> !IsPortFunctionName(f)
  {
    forall f | f in CoreExports + RuntimeHelpers
      ensures !IsPortFunctionName(f)
    {
      if f in {"readStringDatum", "readFloatDatum", "writeStringDatum", "writeFloatDatum"} {
        NoUnderscoreAfterVerb(f);
      } else {
        NeitherReadNorWrite(f);
      }
    }
  }

  /** The port functions are exactly the exports the `read_`/`write_` filter keeps. */
  lemma PortFunctionsAreFilteredExports(specs: seq<(string, PortSpec)>)
    ensures (set f | f in ModuleExports(specs) && IsPortFunctionName(f)) == set f | f in AllPortFunctions(specs)
  {
    CoreExportsAreNotPortFunctions();
    AllPortFunctionNames(specs);
  }

  /** Without port specs, the exports minus the ignored runtime helpers are exactly the core exports. */
  lemma ExportsWithoutPorts()
    ensures ModuleExports([]) - RuntimeHelpers == CoreExports
  {
    assert "__new" !in RuntimeHelpers;
    assert CoreExports !! RuntimeHelpers;
  }

  /** The four port kinds of the engine test and the seven functions they export. */
  lemma FourPortKinds(a: string, b: string, c: string, d: string)
    ensures WasmPortFunctions(a, PortSpec(Read, FloatPort)) == ["read_" + a]
    ensures WasmPortFunctions(b, PortSpec(Write, MessagesPort)) == ["write_" + b]
    ensures WasmPortFunctions(c, PortSpec(ReadWrite, FloatPort)) == ["read_" + c, "write_" + c]
    ensures WasmPortFunctions(d, PortSpec(ReadWrite, MessagesPort)) ==
      ["read_" + d + "_length", "read_" + d + "_elem", "write_" + d]
  {
  }

  lemma AllPortFunctionsSnoc(specs: seq<(string, PortSpec)>, e: (string, PortSpec))
    ensures AllPortFunctions(specs + [e]) == AllPortFunctions(specs) + WasmPortFunctions(e.0, e.1)
  {
    assert (specs + [e])[..|specs|] == specs;
  }

  /** Those four ports together export exactly seven port functions. */
  lemma SevenPortFunctions(a: string, b: string, c: string, d: string)
    ensures AllPortFunctions([(a, PortSpec(Read, FloatPort)), (b, PortSpec(Write, MessagesPort)),
                              (c, PortSpec(ReadWrite, FloatPort)), (d, PortSpec(ReadWrite, MessagesPort))])
      == ["read_" + a, "write_" + b, "read_" + c, "write_" + c,
          "read_" + d + "_length", "read_" + d + "_elem", "write_" + d]
  {
    var ea, eb, ec, ed := (a, PortSpec(Read, FloatPort)), (b, PortSpec(Write, MessagesPort)),
                          (c, PortSpec(ReadWrite, FloatPort)), (d, PortSpec(ReadWrite, MessagesPort));
    FourPortKinds(a, b, c, d);
    assert AllPortFunctions([ea]) == ["read_" + a] by {
      AllPortFunctionsSnoc([], ea);
      assert [] + [ea] == [ea];
    }
    assert AllPortFunctions([ea, eb]) == ["read_" + a, "write_" + b] by {
      AllPortFunctionsSnoc([ea], eb);
      assert [ea] + [eb] == [ea, eb];
    }
    assert AllPortFunctions([ea, eb, ec]) == ["read_" + a, "write_" + b, "read_" + c, "write_" + c] by {
      AllPortFunctionsSnoc([ea, eb], ec);
      assert [ea, eb] + [ec] == [ea, eb, ec];
    }
    AllPortFunctionsSnoc([ea, eb, ec], ed);
    assert [ea, eb, ec] + [ed] == [ea, eb, ec, ed];
  }
}
