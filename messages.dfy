/**
 * Messages as the engine stores them: a block of 32-bit slots laid out as
 * MessageCodec describes, allocated from a template and then filled in datum
 * by datum; and message arrays, which messages are pushed onto.
 */
module Messages {
  import opened Wrappers
  import opened MessageCodec

  /** First slot of datum i: its byte offset over the slot size. */
  function DatumSlot(t: Template, i: nat): (r: nat)
    requires i <= |t|
    ensures INT_ARRAY_BYTES_PER_ELEMENT * r == Offset(t, i)
    ensures i < |t| ==> r + EntrySlots(t[i]) <= HeaderSlots(|t|) + PayloadSlots(t)
  {
    if i < |t| then PayloadSlotsPrefix(t, i); HeaderSlots(|t|) + PayloadSlots(t[..i])
    else HeaderSlots(|t|) + PayloadSlots(t[..i])
  }

  /** `s` with the slots from p on replaced by `xs`. */
  function Splice(s: seq<int>, p: nat, xs: seq<int>): (r: seq<int>)
    requires p + |xs| <= |s|
    ensures |r| == |s|
    ensures forall j :: 0 <= j < |s| ==> r[j] == if p <= j < p + |xs| then xs[j - p] else s[j]
  {
    s[..p] + xs + s[p + |xs|..]
  }

  lemma {:induction false} PayloadSlotsPrefix(t: Template, i: nat)
    requires i < |t|
    ensures PayloadSlots(t[..i]) + EntrySlots(t[i]) <= PayloadSlots(t)
    decreases |t|
  {
    if i == |t| - 1 {
      assert t[..|t| - 1] == t[..i];
    } else {
      var init := t[..|t| - 1];
      assert init[..i] == t[..i] && init[i] == t[i];
      PayloadSlotsPrefix(init, i);
    }
  }

  /** Slot j of a block allocated for t once the first i tags and offsets are written. */
  function HeaderSoFar(t: Template, i: nat, j: int): int
    requires i <= |t| + 1
  {
    if j == 0 then |t|
    else if 1 <= j < 1 + i && j <= |t| then Tag(t[j - 1])
    else if |t| + 1 <= j < |t| + 1 + i then Offset(t, j - |t| - 1)
    else 0
  }

  /** Once every tag and offset is written, the block is the empty block. */
  lemma BlockFromHeader(t: Template, a: seq<int>)
    requires |a| == HeaderSlots(|t|) + PayloadSlots(t)
    requires forall j :: 0 <= j < |a| ==> a[j] == HeaderSoFar(t, |t| + 1, j)
    ensures a == EmptyBlock(t)
    ensures a[..HeaderSlots(|t|)] == Header(t)
  {
    var n := |t|;
    var h := Header(t);
    HeaderEntries(t);
    forall j | 0 <= j < HeaderSlots(n)
      ensures a[j] == h[j]
    {
      assert a[j] == HeaderSoFar(t, n + 1, j);
      if 1 <= j <= n {
        assert h[1 + (j - 1)] == Tag(t[j - 1]);
      } else if n + 1 <= j {
        assert h[n + 1 + (j - n - 1)] == Offset(t, j - n - 1);
      }
    }
    assert forall j :: HeaderSlots(n) <= j < |a| ==> a[j] == 0;
    HeadThenZeros(a, h);
  }

  /** A sequence that agrees with h on h's slots and is 0 after them is h followed by zeros. */
  lemma HeadThenZeros(a: seq<int>, h: seq<int>)
    requires |h| <= |a|
    requires forall j :: 0 <= j < |h| ==> a[j] == h[j]
    requires forall j :: |h| <= j < |a| ==> a[j] == 0
    ensures a[..|h|] == h
    ensures a == h + Zeros(|a| - |h|)
  {
    ZeroTail(a, |h|);
    assert a == a[..|h|] + a[|h|..];
  }

  lemma ZeroTail(a: seq<int>, k: nat)
    requires k <= |a|
    requires forall j :: k <= j < |a| ==> a[j] == 0
    ensures a[k..] == Zeros(|a| - k)
  {
    var z := a[k..];
    assert forall j :: 0 <= j < |z| ==> z[j] == a[k + j];
  }

  /** In a block that starts with t's header, slot |t| + 1 + i holds datum i's offset. */
  lemma HeaderOffset(t: Template, s: seq<int>, i: nat)
    requires HeaderSlots(|t|) <= |s| && s[..HeaderSlots(|t|)] == Header(t) && i < |t|
    ensures s[0] == |t| && s[|t| + 1 + i] == Offset(t, i)
  {
    HeaderEntries(t);
    assert s[|t| + 1 + i] == s[..HeaderSlots(|t|)][|t| + 1 + i];
  }

  class Message {
    /** The slots (`dataView`, read and written as i32 values). */
    var data: array<int>
    /** The template the message was allocated with. */
    ghost var template: Template

    /** The block is as large as the template asks and starts with its header. */
    ghost predicate Valid()
      reads this, data
    {
      && data.Length == HeaderSlots(|template|) + PayloadSlots(template)
      && data[..HeaderSlots(|template|)] == Header(template)
    }

    /** `Message.fromTemplate(template)`: the header written, the payload zeroed. */
    constructor FromTemplate(t: Template)
      ensures Valid() && template == t
      ensures data[..] == EmptyBlock(t)
      ensures fresh(data)
    {
      var n := |t|;
      var a := new int[HeaderSlots(n) + PayloadSlots(t)](_ => 0);
      a[0] := n;
      var offset := INT_ARRAY_BYTES_PER_ELEMENT * HeaderSlots(n);
      assert t[..0] == [];
      for i := 0 to n + 1
        invariant i <= n ==> offset == Offset(t, i)
        invariant forall j :: 0 <= j < a.Length ==> a[j] == HeaderSoFar(t, i, j)
      {
        if i < n {
          a[1 + i] := Tag(t[i]);
        }
        a[n + 1 + i] := offset;
        if i < n {
          OffsetSteps(t, i);
          offset := offset + EntryBytes(t[i]);
        }
      }
      BlockFromHeader(t, a[..]);
      data := a;
      template := t;
    }

    /** `writeStringDatum(message, i, value)`: the characters go to the slots datum i's offset points at. */
    method WriteStringDatum(i: nat, cs: seq<CodeUnit>)
      requires Valid() && i < |template| && template[i] == StringEntry(|cs|)
      modifies data
      ensures Valid() && template == old(template)
      ensures data[..] == Splice(old(data[..]), DatumSlot(template, i), cs)
    {
      HeaderOffset(template, data[..], i);
      var start := data[data[0] + 1 + i] / INT_ARRAY_BYTES_PER_ELEMENT;
      PayloadSlotsPrefix(template, i);
      ghost var before := data[..];
      for k := 0 to |cs|
        invariant forall j :: 0 <= j < data.Length ==> data[j] == if start <= j < start + k then cs[j - start] else before[j]
      {
        data[start + k] := cs[k];
      }
      assert data[..HeaderSlots(|template|)] == before[..HeaderSlots(|template|)];
    }

    /** `writeFloatDatum(message, i, value)`: the float's 8 bytes go where datum i's offset points. */
    method WriteFloatDatum(i: nat, f: Float64)
      requires Valid() && i < |template| && template[i] == FloatEntry
      modifies data
      ensures Valid() && template == old(template)
      ensures data[..] == Splice(old(data[..]), DatumSlot(template, i), [f.hi, f.lo])
    {
      HeaderOffset(template, data[..], i);
      var start := data[data[0] + 1 + i] / INT_ARRAY_BYTES_PER_ELEMENT;
      PayloadSlotsPrefix(template, i);
      ghost var before := data[..];
      data[start] := f.hi;
      data[start + 1] := f.lo;
      assert data[..HeaderSlots(|template|)] == before[..HeaderSlots(|template|)];
    }
  }

  /** Payload slots of m not yet written after its first k datums. */
  function Room(m: seq<Datum>, k: nat): (r: nat)
    requires k <= |m|
    ensures r + |Payload(m[..k])| == PayloadSlots(TemplateOf(m))
  {
    PayloadLength(m[..k]);
    PayloadLength(m);
    PayloadPrefix(m, k);
    PayloadSlots(TemplateOf(m)) - |Payload(m[..k])|
  }

  /** The block after the first k datums of m are written into a block allocated for m. */
  function Filled(m: seq<Datum>, k: nat): seq<int>
    requires k <= |m|
  {
    Header(TemplateOf(m)) + Payload(m[..k]) + Zeros(Room(m, k))
  }

  lemma FilledEnds(m: seq<Datum>)
    ensures Filled(m, 0) == EmptyBlock(TemplateOf(m))
    ensures Filled(m, |m|) == Encode(m)
  {
    assert m[..0] == [];
    assert m[..|m|] == m;
    PayloadLength(m);
  }

  /** Datum k's first slot follows the header and the datums before it, and the datum fits the block. */
  lemma SlotOfDatum(m: seq<Datum>, k: nat)
    requires k < |m|
    ensures DatumSlot(TemplateOf(m), k) == HeaderSlots(|m|) + |Payload(m[..k])|
    ensures |Payload(m[..k])| + |DatumSlots(m[k])| <= PayloadSlots(TemplateOf(m))
  {
    var t := TemplateOf(m);
    TemplatePrefix(m, k);
    PayloadLength(m[..k]);
    assert t[k] == EntryOf(m[k]);
  }

  /** Writing datum k into a block that holds the first k datums gives the block holding k + 1. */
  lemma FilledStep(m: seq<Datum>, k: nat)
    requires k < |m|
    ensures Splice(Filled(m, k), DatumSlot(TemplateOf(m), k), DatumSlots(m[k])) == Filled(m, k + 1)
  {
    var ds := DatumSlots(m[k]);
    PayloadStep(m, k);
    SlotOfDatum(m, k);
    SpliceAfterWritten(Filled(m, k), Filled(m, k + 1), Header(TemplateOf(m)), Payload(m[..k]), ds,
      Payload(m[..k + 1]), Room(m, k), Room(m, k + 1), DatumSlot(TemplateOf(m), k));
  }

  /** SpliceIntoZeros, for blocks given by their parts. */
  lemma SpliceAfterWritten(f0: seq<int>, f1: seq<int>, h: seq<int>, pk: seq<int>, ds: seq<int>, pk1: seq<int>,
                           r0: nat, r1: nat, slot: nat)
    requires f0 == h + pk + Zeros(r0) && f1 == h + pk1 + Zeros(r1)
    requires pk1 == pk + ds && r0 == r1 + |ds| && slot == |h| + |pk|
    ensures slot + |ds| <= |f0|
    ensures Splice(f0, slot, ds) == f1
  {
    SpliceIntoZeros(h, pk, ds, r1);
  }

  /** Writing into the zeroed part right after the written part extends the written part. */
  lemma SpliceIntoZeros(h: seq<int>, p: seq<int>, ds: seq<int>, z: nat)
    ensures Splice(h + p + Zeros(z + |ds|), |h| + |p|, ds) == h + (p + ds) + Zeros(z)
  {
    var a := Splice(h + p + Zeros(z + |ds|), |h| + |p|, ds);
    var b := h + (p + ds) + Zeros(z);
    assert forall j :: 0 <= j < |a| ==> a[j] == b[j];
  }

  /** Writes datum k of m, by its type, into a block that holds the first k datums. */
  method WriteNext(msg: Message, m: seq<Datum>, k: nat)
    requires k < |m|
    requires msg.Valid() && msg.template == TemplateOf(m) && msg.data[..] == Filled(m, k)
    modifies msg.data
    ensures msg.Valid() && msg.template == TemplateOf(m) && msg.data[..] == Filled(m, k + 1)
  {
    FilledStep(m, k);
    match m[k]
    case StringDatum(cs) =>
      msg.WriteStringDatum(k, cs);
    case FloatDatum(f) =>
      msg.WriteFloatDatum(k, f);
  }

  /** `lowerMessage(values)`: allocate from the values' template, then write each datum in turn. */
  method LowerMessage(m: seq<Datum>) returns (msg: Message)
    ensures fresh(msg) && fresh(msg.data)
    ensures msg.Valid() && msg.template == TemplateOf(m)
    ensures msg.data[..] == Encode(m)
  {
    msg := new Message.FromTemplate(TemplateOf(m));
    FilledEnds(m);
    for k := 0 to |m|
      invariant fresh(msg.data)
      invariant msg.Valid() && msg.template == TemplateOf(m)
      invariant msg.data[..] == Filled(m, k)
    {
      WriteNext(msg, m, k);
    }
  }

  /** `liftMessage(message)`: the datums a message holds, as many as its count slot says. */
  function LiftMessage(msg: Message): (r: Option<seq<Datum>>)
    reads msg, msg.data
    ensures r.Some? ==> msg.data.Length > 0 && |r.value| == msg.data[0]
  {
    Lift(msg.data[..])
  }

  /** A message whose slots encode some datums lifts to exactly those datums. */
  lemma LiftMessageOfEncoding(msg: Message, m: seq<Datum>)
    requires msg.data[..] == Encode(m)
    ensures LiftMessage(msg) == Some(m)
  {
    LiftEncode(m);
  }

  /** Lowering then lifting gives back the values. */
  method LowerThenLift(m: seq<Datum>) returns (r: Option<seq<Datum>>)
    ensures r == Some(m)
  {
    var msg := LowerMessage(m);
    r := LiftMessage(msg);
    LiftMessageOfEncoding(msg, m);
  }

  /**
   * A message allocated from the template [STRING 5, FLOAT], written with a
   * 5-character string and a float, lifts to those two values.
   */
  method WriteThenLift(s: seq<CodeUnit>, f: Float64) returns (r: Option<seq<Datum>>)
    requires |s| == 5
    ensures r == Some([StringDatum(s), FloatDatum(f)])
  {
    var msg := new Message.FromTemplate([StringEntry(5), FloatEntry]);
    var m := [StringDatum(s), FloatDatum(f)];
    assert TemplateOf(m) == [StringEntry(5), FloatEntry];
    FilledEnds(m);
    FilledStep(m, 0);
    msg.WriteStringDatum(0, s);
    FilledStep(m, 1);
    msg.WriteFloatDatum(1, f);
    r := LiftMessage(msg);
    LiftMessageOfEncoding(msg, m);
  }

  /** A message array (`Message[]` in the engine). */
  class MessageArray {
    var messages: seq<Message>

    /** `createMessageArray()` */
    constructor Create()
      ensures messages == []
    {
      messages := [];
    }

    /** `pushMessageToArray(messageArray, message)` */
    method Push(m: Message)
      modifies this
      ensures messages == old(messages) + [m]
    {
      messages := messages + [m];
    }

    /** `messageArray[index]`, None out of range. */
    function Get(i: int): (r: Option<Message>)
      reads this
      ensures 0 <= i < |messages| ==> r == Some(messages[i])
      ensures !(0 <= i < |messages|) ==> r == None
    {
      if 0 <= i < |messages| then Some(messages[i]) else None
    }
  }

  /** Element i of an array built by pushes is the i-th message pushed. */
  method PushAll(ms: seq<Message>) returns (arr: MessageArray)
    ensures fresh(arr)
    ensures arr.messages == ms
    ensures forall i :: 0 <= i < |ms| ==> arr.Get(i) == Some(ms[i])
  {
    arr := new MessageArray.Create();
    for k := 0 to |ms|
      invariant arr.messages == ms[..k]
    {
      arr.Push(ms[k]);
      assert ms[..k + 1] == ms[..k] + [ms[k]];
    }
    assert ms[..|ms|] == ms;
  }

  /**
   * Two messages lowered, pushed onto a fresh message array and read back by
   * index: the two-NUL string and the float 0 keep their layouts.
   */
  method PushTwoLoweredMessages() returns (d1: seq<int>, d2: seq<int>)
    ensures d1 == [1, MESSAGE_DATUM_TYPE_STRING, 16, 24, 0, 0]
    ensures d2 == [1, MESSAGE_DATUM_TYPE_FLOAT, 16, 24, 0, 0]
  {
    var m1 := LowerMessage([StringDatum([0, 0])]);
    var m2 := LowerMessage([FloatDatum(Float64(0, 0))]);
    var arr := new MessageArray.Create();
    arr.Push(m1);
    arr.Push(m2);
    var g1 := arr.Get(0);
    var g2 := arr.Get(1);
    EncodeNulsAndZero();
    d1 := g1.value.data[..];
    d2 := g2.value.data[..];
  }

  // ---------------------------------------------------------------------
  // Arrays of integers
  // ---------------------------------------------------------------------

  const TWO_POW_31: int := 0x8000_0000
  const TWO_POW_32: int := 0x1_0000_0000

  /** A JavaScript number stored as an i32: taken modulo 2^32, read back signed. */
  function ToInt32(x: int): (r: int)
    ensures -TWO_POW_31 <= r < TWO_POW_31
    ensures (r - x) % TWO_POW_32 == 0
    ensures -TWO_POW_31 <= x < TWO_POW_31 ==> r == x
  {
    (x + TWO_POW_31) % TWO_POW_32 - TWO_POW_31
  }

  /** `lowerArrayBufferOfIntegers(integers)`: a fresh buffer with one i32 slot per integer. */
  method LowerArrayBufferOfIntegers(ints: seq<int>) returns (buf: array<int>)
    ensures fresh(buf)
    ensures buf.Length == |ints|
    ensures forall i :: 0 <= i < |ints| ==> buf[i] == ToInt32(ints[i])
  {
    buf := new int[|ints|];
    for i := 0 to |ints|
      invariant forall j :: 0 <= j < i ==> buf[j] == ToInt32(ints[j])
    {
      buf[i] := ToInt32(ints[i]);
    }
  }

  /** Integers that fit in 32 bits read back unchanged, as 1, 22, 333 and 4444 do. */
  method LowerSmallIntegers() returns (r: seq<int>)
    ensures r == [1, 22, 333, 4444]
  {
    var buf := LowerArrayBufferOfIntegers([1, 22, 333, 4444]);
    r := buf[..];
  }
}
