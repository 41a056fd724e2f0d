/**
 * A compiled engine as its host sees it: the port variables the module
 * declares, the accessor functions compiled for its port specs, the host's
 * `ports` object that lowers and lifts message arrays across the boundary,
 * and the frame loop that calls inlet listeners.
 */
module Engine {
  import opened Wrappers
  import opened EngineSettings
  import opened MessageCodec
  import opened Messages

  /** The datums of every message of an array, in order; None when one of them is malformed. */
  function LiftAll(ms: seq<Message>): (r: Option<seq<seq<Datum>>>)
    reads set m | m in ms
    reads set m | m in ms :: m.data
    ensures r.Some? ==> |r.value| == |ms|
  {
    if ms == [] then Some([])
    else
      match LiftAll(ms[..|ms| - 1])
      case None => None
      case Some(prev) =>
        match LiftMessage(ms[|ms| - 1])
        case None => None
        case Some(d) => Some(prev + [d])
  }

  lemma LiftAllSnoc(ms: seq<Message>, m: Message)
    ensures LiftAll(ms + [m]) ==
      match LiftAll(ms)
      case None => None
      case Some(prev) =>
        match LiftMessage(m)
        case None => None
        case Some(d) => Some(prev + [d])
  {
    assert (ms + [m])[..|ms|] == ms;
  }

  /** When a prefix of an array does not lift, neither does the array. */
  lemma {:induction false} LiftAllPrefixNone(ms: seq<Message>, k: nat)
    requires k <= |ms| && LiftAll(ms[..k]).None?
    ensures LiftAll(ms).None?
    decreases |ms|
  {
    if k < |ms| {
      assert ms[..|ms| - 1][..k] == ms[..k];
      LiftAllPrefixNone(ms[..|ms| - 1], k);
    } else {
      assert ms[..k] == ms;
    }
  }

  /**
   * The module's port variables and the accessors compiled for its port
   * specs. A float port holds a float; a message-array port holds an array of
   * messages.
   */
  class WasmEngine {
    const portSpecs: map<string, PortSpec>
    var floats: map<string, real>
    var arrays: map<string, seq<Message>>

    /** Each port has a variable of its type, and there are no other variables. */
    ghost predicate Valid()
      reads this
    {
      && (forall name :: name in floats <==> name in portSpecs && portSpecs[name].portType == FloatPort)
      && (forall name :: name in arrays <==> name in portSpecs && portSpecs[name].portType == MessagesPort)
    }

    /** Port `name` has type t and the module compiled its read accessor(s). */
    predicate Readable(name: string, t: PortType) {
      name in portSpecs && portSpecs[name].portType == t && portSpecs[name].access.CanRead()
    }

    /** Port `name` has type t and the module compiled `write_<name>`. */
    predicate Writable(name: string, t: PortType) {
      name in portSpecs && portSpecs[name].portType == t && portSpecs[name].access.CanWrite()
    }

    constructor (portSpecs: map<string, PortSpec>, floats: map<string, real>, arrays: map<string, seq<Message>>)
      requires forall name :: name in floats <==> name in portSpecs && portSpecs[name].portType == FloatPort
      requires forall name :: name in arrays <==> name in portSpecs && portSpecs[name].portType == MessagesPort
      ensures Valid()
      ensures this.portSpecs == portSpecs && this.floats == floats && this.arrays == arrays
    {
      this.portSpecs := portSpecs;
      this.floats := floats;
      this.arrays := arrays;
    }

    /** `read_<name>()` of a float port; fails when the module has no such export. */
    method ReadFloat(name: string) returns (r: Result<real, string>)
      requires Valid()
      ensures r.Success? <==> Readable(name, FloatPort)
      ensures r.Success? ==> r.value == floats[name]
    {
      if Readable(name, FloatPort) {
        r := Success(floats[name]);
      } else {
        r := Failure("read_" + name + " is not a function");
      }
    }

    /** `write_<name>(value)` of a float port: the variable takes the value. */
    method WriteFloat(name: string, v: real) returns (r: Result<(), string>)
      requires Valid()
      modifies this
      ensures Valid()
      ensures r.Success? <==> Writable(name, FloatPort)
      ensures floats == if r.Success? then old(floats)[name := v] else old(floats)
      ensures arrays == old(arrays)
    {
      if Writable(name, FloatPort) {
        floats := floats[name := v];
        r := Success(());
      } else {
        r := Failure("write_" + name + " is not a function");
      }
    }

    /** `read_<name>_length()` of a message-array port. */
    method ReadArrayLength(name: string) returns (r: Result<nat, string>)
      requires Valid()
      ensures r.Success? <==> Readable(name, MessagesPort)
      ensures r.Success? ==> r.value == |arrays[name]|
    {
      if Readable(name, MessagesPort) {
        r := Success(|arrays[name]|);
      } else {
        r := Failure("read_" + name + "_length is not a function");
      }
    }

    /** `read_<name>_elem(i)`: message i of the array; an index out of range fails (the failure stands for the runtime abort). */
    method ReadArrayElem(name: string, i: int) returns (r: Result<Message, string>)
      requires Valid()
      ensures r.Success? <==> Readable(name, MessagesPort) && 0 <= i < |arrays[name]|
      ensures r.Success? ==> r.value == arrays[name][i]
    {
      if !Readable(name, MessagesPort) {
        r := Failure("read_" + name + "_elem is not a function");
      } else if 0 <= i < |arrays[name]| {
        r := Success(arrays[name][i]);
      } else {
        r := Failure("index out of range");
      }
    }

    /** `write_<name>(array)` of a message-array port: the variable takes the whole new array. */
    method WriteArray(name: string, ms: seq<Message>) returns (r: Result<(), string>)
      requires Valid()
      modifies this
      ensures Valid()
      ensures r.Success? <==> Writable(name, MessagesPort)
      ensures arrays == if r.Success? then old(arrays)[name := ms] else old(arrays)
      ensures floats == old(floats)
    {
      if Writable(name, MessagesPort) {
        arrays := arrays[name := ms];
        r := Success(());
      } else {
        r := Failure("write_" + name + " is not a function");
      }
    }

    /**
     * The host's `ports.read_<name>()` of a message-array port: read the
     * length, then lift every element in turn.
     */
    method ReadMessages(name: string) returns (r: Result<seq<seq<Datum>>, string>)
      requires Valid()
      ensures !Readable(name, MessagesPort) ==> r.Failure?
      ensures Readable(name, MessagesPort) ==> (r.Success? <==> LiftAll(arrays[name]).Some?)
      ensures r.Success? ==> LiftAll(arrays[name]) == Some(r.value)
    {
      var len := ReadArrayLength(name);
      if len.Failure? {
        return Failure(len.error);
      }
      var values: seq<seq<Datum>> := [];
      for i := 0 to len.value
        invariant LiftAll(arrays[name][..i]) == Some(values)
      {
        var m := ReadArrayElem(name, i);
        var d := LiftMessage(m.value);
        LiftAllSnoc(arrays[name][..i], m.value);
        assert arrays[name][..i + 1] == arrays[name][..i] + [m.value];
        if d.None? {
          LiftAllPrefixNone(arrays[name], i + 1);
          return Failure("malformed message");
        }
        values := values + [d.value];
      }
      assert arrays[name][..len.value] == arrays[name];
      r := Success(values);
    }

    /**
     * The host's `ports.write_<name>(messages)`: lower every message, push it
     * onto a fresh message array, then hand the array to `write_<name>`.
     */
    method WriteMessages(name: string, values: seq<seq<Datum>>) returns (r: Result<(), string>)
      requires Valid()
      modifies this
      ensures Valid()
      ensures r.Success? <==> Writable(name, MessagesPort)
      ensures floats == old(floats)
      ensures r.Failure? ==> arrays == old(arrays)
      ensures r.Success? ==> name in arrays && arrays == old(arrays)[name := arrays[name]]
      ensures r.Success? ==> LiftAll(arrays[name]) == Some(values)
    {
      if !Writable(name, MessagesPort) {
        return Failure("write_" + name + " is not a function");
      }
      var arr := LowerAll(values);
      r := WriteArray(name, arr.messages);
    }
  }

  /** Lowers every message of `values` and pushes it onto a fresh message array. */
  method LowerAll(values: seq<seq<Datum>>) returns (arr: MessageArray)
    ensures fresh(arr)
    ensures LiftAll(arr.messages) == Some(values)
  {
    arr := new MessageArray.Create();
    for i := 0 to |values|
      invariant fresh(arr)
      invariant LiftAll(arr.messages) == Some(values[..i])
    {
      LowerAndPush(arr, values[i], values[..i]);
      assert values[..i + 1] == values[..i] + [values[i]];
    }
    assert values[..|values|] == values;
  }

  /** Lowers one message and pushes it: the array now lifts to one more message. */
  method LowerAndPush(arr: MessageArray, v: seq<Datum>, ghost prior: seq<seq<Datum>>)
    requires LiftAll(arr.messages) == Some(prior)
    modifies arr
    ensures LiftAll(arr.messages) == Some(prior + [v])
  {
    var m := LowerMessage(v);
    LiftEncode(v);
    LiftAllSnoc(arr.messages, m);
    arr.Push(m);
  }

  /** Writing a float port then reading it gives the value written. */
  method WriteThenReadFloat(e: WasmEngine, name: string, v: real) returns (r: Result<real, string>)
    requires e.Valid() && e.Writable(name, FloatPort) && e.Readable(name, FloatPort)
    modifies e
    ensures r == Success(v)
  {
    var w := e.WriteFloat(name, v);
    r := e.ReadFloat(name);
  }

  /** Writing a message-array port from the host then reading it gives the messages written. */
  method WriteThenReadMessages(e: WasmEngine, name: string, values: seq<seq<Datum>>)
    returns (r: Result<seq<seq<Datum>>, string>)
    requires e.Valid() && e.Writable(name, MessagesPort) && e.Readable(name, MessagesPort)
    modifies e
    ensures r == Success(values)
  {
    var w := e.WriteMessages(name, values);
    r := e.ReadMessages(name);
  }

  /** `write_<name>` on a message-array port replaces the whole array: length and elements are the new ones. */
  method ReplaceArray(e: WasmEngine, name: string, ms: seq<Message>) returns (len: Result<nat, string>)
    requires e.Valid() && e.Writable(name, MessagesPort) && e.Readable(name, MessagesPort)
    modifies e
    ensures len == Success(|ms|)
    ensures name in e.arrays && e.arrays[name] == ms
  {
    var w := e.WriteArray(name, ms);
    len := e.ReadArrayLength(name);
  }

  // ---------------------------------------------------------------------
  // Inlet listeners
  // ---------------------------------------------------------------------

  /** The frames of a block, in order, at which a node firing every `period` frames fires. */
  function FiringFrames(blockSize: nat, period: nat): (r: seq<nat>)
    requires period > 0
    ensures |r| <= blockSize
  {
    if blockSize == 0 then []
    else FiringFrames(blockSize - 1, period) + (if (blockSize - 1) % period == 0 then [blockSize - 1] else [])
  }

  /** A frame fires exactly when it lies in the block and is a multiple of the period; firing frames increase. */
  lemma {:induction false} FiringFramesMembers(blockSize: nat, period: nat)
    requires period > 0
    ensures forall f: nat :: f in FiringFrames(blockSize, period) <==> f < blockSize && f % period == 0
    ensures forall i, j :: 0 <= i < j < |FiringFrames(blockSize, period)| ==>
      FiringFrames(blockSize, period)[i] < FiringFrames(blockSize, period)[j]
  {
    if blockSize > 0 {
      var before := FiringFrames(blockSize - 1, period);
      FiringFramesMembers(blockSize - 1, period);
      forall i | 0 <= i < |before|
        ensures before[i] < blockSize - 1
      {
        assert before[i] in before;
      }
    }
  }

  lemma FiringStep(frame: nat, period: nat)
    requires period > 0
    ensures FiringFrames(frame + 1, period) ==
      FiringFrames(frame, period) + (if frame % period == 0 then [frame] else [])
  {
  }

  /** One more frame adds one listener call exactly when the generator fires in it. */
  lemma CallsStep<M>(frame: nat, period: nat, messageAt: nat -> M)
    requires period > 0
    ensures ListenerCalls(FiringFrames(frame + 1, period), messageAt) ==
      ListenerCalls(FiringFrames(frame, period), messageAt) + (if frame % period == 0 then [[messageAt(frame)]] else [])
  {
    FiringStep(frame, period);
    if frame % period == 0 {
      ListenerCallsSnoc(FiringFrames(frame, period), frame, messageAt);
    }
  }

  lemma ListenerCallsSnoc<M>(frames: seq<nat>, f: nat, messageAt: nat -> M)
    ensures ListenerCalls(frames + [f], messageAt) == ListenerCalls(frames, messageAt) + [[messageAt(f)]]
  {
    assert (frames + [f])[..|frames|] == frames;
  }

  /** One listener call per firing frame, each with the one message the inlet received in that frame. */
  function ListenerCalls<M>(frames: seq<nat>, messageAt: nat -> M): (r: seq<seq<M>>)
    ensures |r| == |frames|
    ensures forall i :: 0 <= i < |frames| ==> r[i] == [messageAt(frames[i])]
  {
    if frames == [] then [] else ListenerCalls(frames[..|frames| - 1], messageAt) + [[messageAt(frames[|frames| - 1])]]
  }

  /**
   * One block of `blockSize` frames. A generator node sends `messageAt(frame)`
   * to a listened inlet on frames where `frame % period == 0`; the inlet's
   * message array is emptied every frame, and at the end of a frame in which
   * it received messages its listener is called with them.
   */
  method RunBlockWithListener<M>(blockSize: nat, period: nat, messageAt: nat -> M) returns (called: seq<seq<M>>)
    requires period > 0
    ensures called == ListenerCalls(FiringFrames(blockSize, period), messageAt)
  {
    called := [];
    var frame: nat := 0;
    while frame < blockSize
      invariant frame <= blockSize
      invariant called == ListenerCalls(FiringFrames(frame, period), messageAt)
    {
      var inlet: seq<M> := [];
      if frame % period == 0 {
        inlet := inlet + [messageAt(frame)];
        assert inlet == [messageAt(frame)];
      }
      CallsStep(frame, period, messageAt);
      if |inlet| > 0 {
        called := called + [inlet];
      }
      frame := frame + 1;
    }
  }

  /** Five frames after a multiple of 5, exactly that multiple has been added. */
  lemma FiveMoreFrames(n: nat)
    requires n % 5 == 0
    ensures FiringFrames(n + 5, 5) == FiringFrames(n, 5) + [n]
  {
    assert FiringFrames(n + 1, 5) == FiringFrames(n, 5) + [n];
    assert FiringFrames(n + 2, 5) == FiringFrames(n + 1, 5);
    assert FiringFrames(n + 3, 5) == FiringFrames(n + 2, 5);
    assert FiringFrames(n + 4, 5) == FiringFrames(n + 3, 5);
  }

  /** An 18-frame block with a generator firing every 5 frames fires on frames 0, 5, 10 and 15. */
  lemma EighteenFrames()
    ensures FiringFrames(18, 5) == [0, 5, 10, 15]
  {
    assert FiringFrames(0, 5) == [];
    assert FiringFrames(5, 5) == [0] by { FiveMoreFrames(0); }
    assert FiringFrames(10, 5) == [0, 5] by { FiveMoreFrames(5); }
    assert FiringFrames(15, 5) == [0, 5, 10] by { FiveMoreFrames(10); }
    assert FiringFrames(16, 5) == [0, 5, 10, 15] by { FiringStep(15, 5); }
    FiringStep(16, 5);
    FiringStep(17, 5);
  }

  /** ... so the listener is called four times, each time with that frame's message. */
  lemma EighteenFrameBlock<M>(messageAt: nat -> M)
    ensures ListenerCalls(FiringFrames(18, 5), messageAt) ==
      [[messageAt(0)], [messageAt(5)], [messageAt(10)], [messageAt(15)]]
  {
    EighteenFrames();
  }
}
