/**
 * The message wire format shared by the engine and its host. A message is a
 * block of 4-byte slots:
 *
 *   [count] [tag] x count [offset] x (count + 1) [payload]
 *
 * Tags are MESSAGE_DATUM_TYPE_FLOAT (0) or MESSAGE_DATUM_TYPE_STRING (1).
 * Offsets are byte positions in the block: the first is the header's byte
 * size, each next one adds the previous datum's size, the last is the end of
 * the payload. A string datum takes one slot (4 bytes) per UTF-16 code unit,
 * a float datum 8 bytes, which the model keeps as two uninterpreted 32-bit words.
 */
module MessageCodec {
  import opened Wrappers

  const MESSAGE_DATUM_TYPE_FLOAT: int := 0
  const MESSAGE_DATUM_TYPE_STRING: int := 1
  /** Bytes in one slot (`INT_ARRAY_BYTES_PER_ELEMENT`). */
  const INT_ARRAY_BYTES_PER_ELEMENT: nat := 4
  /** Bytes in a float datum (`Float64Array.BYTES_PER_ELEMENT`). */
  const FLOAT_DATUM_BYTES: nat := 8
  /** Bytes per character of a string datum. */
  const CHAR_BYTES: nat := 4

  /** A UTF-16 code unit, as `charCodeAt` returns it. */
  type CodeUnit = c: int | 0 <= c < 0x1_0000

  /** The 8 bytes of a 64-bit float, as the two 32-bit words the slots hold. */
  datatype Float64 = Float64(hi: int, lo: int)

  datatype Datum = FloatDatum(f: Float64) | StringDatum(chars: seq<CodeUnit>)

  /** An entry of a message template: a float, or a string of a given length. */
  datatype TemplateEntry = FloatEntry | StringEntry(length: nat)

  type Template = seq<TemplateEntry>

  function EntryOf(d: Datum): TemplateEntry {
    match d
    case FloatDatum(_) => FloatEntry
    case StringDatum(cs) => StringEntry(|cs|)
  }

  /** The template a list of datums is lowered with. */
  function TemplateOf(m: seq<Datum>): (t: Template)
    ensures |t| == |m|
    ensures forall i :: 0 <= i < |m| ==> t[i] == EntryOf(m[i])
  {
    if m == [] then [] else TemplateOf(m[..|m| - 1]) + [EntryOf(m[|m| - 1])]
  }

  /** Slots a datum of this entry takes. */
  function EntrySlots(e: TemplateEntry): nat {
    match e
    case FloatEntry => FLOAT_DATUM_BYTES / INT_ARRAY_BYTES_PER_ELEMENT
    case StringEntry(len) => len * CHAR_BYTES / INT_ARRAY_BYTES_PER_ELEMENT
  }

  /** Bytes a datum of this entry takes: 8 for a float, 4 per character for a string. */
  function EntryBytes(e: TemplateEntry): nat {
    match e
    case FloatEntry => FLOAT_DATUM_BYTES
    case StringEntry(len) => len * CHAR_BYTES
  }

  /** Payload slots of a whole template. */
  function PayloadSlots(t: Template): nat {
    if t == [] then 0 else PayloadSlots(t[..|t| - 1]) + EntrySlots(t[|t| - 1])
  }

  /** Header slots of an n-datum message: the count, n tags, n + 1 offsets. */
  function HeaderSlots(n: nat): nat {
    2 * n + 2
  }

  function Tag(e: TemplateEntry): int {
    if e.FloatEntry? then MESSAGE_DATUM_TYPE_FLOAT else MESSAGE_DATUM_TYPE_STRING
  }

  /** Byte offset of datum i, for i from 0 to |t| (the end of the payload). */
  function Offset(t: Template, i: nat): nat
    requires i <= |t|
  {
    INT_ARRAY_BYTES_PER_ELEMENT * (HeaderSlots(|t|) + PayloadSlots(t[..i]))
  }

  /** The header: count, tags, offsets. */
  function Header(t: Template): (h: seq<int>)
    ensures |h| == HeaderSlots(|t|)
    ensures h[0] == |t|
  {
    [|t|] + seq(|t|, i requires 0 <= i < |t| => Tag(t[i])) + seq(|t| + 1, i requires 0 <= i <= |t| => Offset(t, i))
  }

  /** The header holds tag i at slot 1 + i and offset i at slot |t| + 1 + i. */
  lemma HeaderEntries(t: Template)
    ensures forall i :: 0 <= i < |t| ==> Header(t)[1 + i] == Tag(t[i])
    ensures forall i :: 0 <= i <= |t| ==> Header(t)[|t| + 1 + i] == Offset(t, i)
  {
  }

  function Zeros(n: nat): (z: seq<int>)
    ensures |z| == n && forall i :: 0 <= i < n ==> z[i] == 0
  {
    seq(n, _ => 0)
  }

  /** A freshly allocated block: the header, then a zeroed payload. */
  function EmptyBlock(t: Template): seq<int> {
    Header(t) + Zeros(PayloadSlots(t))
  }

  function DatumSlots(d: Datum): (s: seq<int>)
    ensures |s| == EntrySlots(EntryOf(d))
  {
    match d
    case FloatDatum(f) => [f.hi, f.lo]
    case StringDatum(cs) => cs
  }

  function Payload(m: seq<Datum>): seq<int> {
    if m == [] then [] else Payload(m[..|m| - 1]) + DatumSlots(m[|m| - 1])
  }

  /** The block a list of datums lowers to. */
  function Encode(m: seq<Datum>): seq<int> {
    Header(TemplateOf(m)) + Payload(m)
  }

  // ---------------------------------------------------------------------
  // Layout facts
  // ---------------------------------------------------------------------

  /** Offsets as the format describes them: header size first, then one datum size at a time. */
  lemma OffsetSteps(t: Template, i: nat)
    requires i < |t|
    ensures Offset(t, 0) == INT_ARRAY_BYTES_PER_ELEMENT * HeaderSlots(|t|)
    ensures Offset(t, i + 1) == Offset(t, i) + EntryBytes(t[i])
  {
    assert t[..0] == [];
    assert t[..i + 1][..i] == t[..i];
  }

  /** The last offset is the byte size of the whole block. */
  lemma LastOffsetIsBlockSize(t: Template)
    ensures Offset(t, |t|) == INT_ARRAY_BYTES_PER_ELEMENT * |EmptyBlock(t)|
  {
    assert t[..|t|] == t;
  }

  lemma {:induction false} PayloadLength(m: seq<Datum>)
    ensures |Payload(m)| == PayloadSlots(TemplateOf(m))
  {
    if m != [] {
      PayloadLength(m[..|m| - 1]);
      assert TemplateOf(m)[..|m| - 1] == TemplateOf(m[..|m| - 1]);
    }
  }

  lemma TemplatePrefix(m: seq<Datum>, i: nat)
    requires i <= |m|
    ensures TemplateOf(m)[..i] == TemplateOf(m[..i])
  {
  }

  lemma PayloadStep(m: seq<Datum>, i: nat)
    requires i < |m|
    ensures Payload(m[..i + 1]) == Payload(m[..i]) + DatumSlots(m[i])
  {
    assert m[..i + 1][..i] == m[..i];
  }

  /** The payload of a prefix is a prefix of the payload. */
  lemma {:induction false} PayloadPrefix(m: seq<Datum>, j: nat)
    requires j <= |m|
    ensures |Payload(m[..j])| <= |Payload(m)|
    ensures Payload(m)[..|Payload(m[..j])|] == Payload(m[..j])
    decreases |m| - j
  {
    if j == |m| {
      assert m[..j] == m;
    } else {
      PayloadPrefix(m, j + 1);
      PayloadStep(m, j);
    }
  }

  /** A slice of the part after position h is a slice of the whole, shifted by h. */
  lemma SliceAfter(s: seq<int>, h: nat, rest: seq<int>, p: nat, q: nat)
    requires h <= |s| && s[h..] == rest && p <= q <= |rest|
    ensures s[h + p..h + q] == rest[p..q]
  {
    var a := s[h + p..h + q];
    var b := rest[p..q];
    assert forall k :: 0 <= k < |a| ==> a[k] == b[k];
  }

  /** In an encoded message, datum i's slots follow those of the datums before it. */
  lemma EncodedDatumSlots(m: seq<Datum>, i: nat)
    requires i < |m|
    ensures HeaderSlots(|m|) + |Payload(m[..i])| + |DatumSlots(m[i])| <= |Encode(m)|
    ensures Encode(m)[HeaderSlots(|m|) + |Payload(m[..i])|..HeaderSlots(|m|) + |Payload(m[..i])| + |DatumSlots(m[i])|]
      == DatumSlots(m[i])
  {
    var p := |Payload(m[..i])|;
    var ds := DatumSlots(m[i]);
    PayloadPrefix(m, i + 1);
    PayloadStep(m, i);
    var pay := Payload(m);
    assert pay[..p + |ds|] == Payload(m[..i]) + ds;
    assert pay[p..p + |ds|] == ds;
    SliceAfter(Encode(m), HeaderSlots(|m|), pay, p, p + |ds|);
  }

  /** The header of an encoded message: tag i, and offsets i and i + 1 around datum i. */
  lemma EncodedHeader(m: seq<Datum>, i: nat)
    requires i < |m|
    ensures |Encode(m)| >= HeaderSlots(|m|)
    ensures Encode(m)[1 + i] == Tag(EntryOf(m[i]))
    ensures Encode(m)[|m| + 1 + i] == INT_ARRAY_BYTES_PER_ELEMENT * (HeaderSlots(|m|) + |Payload(m[..i])|)
    ensures Encode(m)[|m| + 2 + i] == Encode(m)[|m| + 1 + i] + INT_ARRAY_BYTES_PER_ELEMENT * |DatumSlots(m[i])|
  {
    var t := TemplateOf(m);
    PayloadLength(m[..i]);
    PayloadLength(m[..i + 1]);
    TemplatePrefix(m, i);
    TemplatePrefix(m, i + 1);
    PayloadStep(m, i);
    HeaderEntries(t);
    assert Encode(m)[|m| + 1 + i] == Header(t)[|m| + 1 + i] == Offset(t, i);
    assert Encode(m)[|m| + 2 + i] == Header(t)[|m| + 1 + (i + 1)] == Offset(t, i + 1);
  }

  // ---------------------------------------------------------------------
  // Lifting
  // ---------------------------------------------------------------------

  /** Reads datum i of an n-datum block; None when the header does not describe it. */
  function ReadDatum(s: seq<int>, n: nat, i: nat): Option<Datum>
    requires |s| >= HeaderSlots(n) && i < n
  {
    var tag := s[1 + i];
    var start := s[n + 1 + i];
    var end := s[n + 2 + i];
    if start < 0 || start % 4 != 0 || end % 4 != 0 || end < start || end / 4 > |s| then None
    else if tag == MESSAGE_DATUM_TYPE_FLOAT then
      if start / 4 + 2 <= |s| then Some(FloatDatum(Float64(s[start / 4], s[start / 4 + 1]))) else None
    else if tag == MESSAGE_DATUM_TYPE_STRING then
      var cs := s[start / 4..end / 4];
      if forall k :: 0 <= k < |cs| ==> 0 <= cs[k] < 0x1_0000 then Some(StringDatum(cs)) else None
    else None
  }

  /** The first k datums of an n-datum block. */
  function ReadDatums(s: seq<int>, n: nat, k: nat): (r: Option<seq<Datum>>)
    requires |s| >= HeaderSlots(n) && k <= n
    ensures r.Some? ==> |r.value| == k
  {
    if k == 0 then Some([])
    else
      match ReadDatums(s, n, k - 1)
      case None => None
      case Some(prev) =>
        match ReadDatum(s, n, k - 1)
        case None => None
        case Some(d) => Some(prev + [d])
  }

  /** `liftMessage`: the datums of a block, or None when its header is malformed. */
  function Lift(s: seq<int>): (r: Option<seq<Datum>>)
    ensures r.Some? ==> |s| > 0 && |r.value| == s[0]
  {
    if |s| == 0 || s[0] < 0 || |s| < HeaderSlots(s[0]) then None
    else ReadDatums(s, s[0], s[0])
  }

  /** A header entry pair that frames a datum's slots reads back as that datum. */
  lemma ReadFramedDatum(s: seq<int>, n: nat, i: nat, d: Datum, q: nat)
    requires |s| >= HeaderSlots(n) && i < n
    requires s[1 + i] == Tag(EntryOf(d))
    requires s[n + 1 + i] == INT_ARRAY_BYTES_PER_ELEMENT * q
    requires s[n + 2 + i] == s[n + 1 + i] + INT_ARRAY_BYTES_PER_ELEMENT * |DatumSlots(d)|
    requires q + |DatumSlots(d)| <= |s| && s[q..q + |DatumSlots(d)|] == DatumSlots(d)
    ensures ReadDatum(s, n, i) == Some(d)
  {
    match d
    case FloatDatum(f) =>
      assert s[q..q + 2][0] == s[q] && s[q..q + 2][1] == s[q + 1];
    case StringDatum(cs) =>
  }

  /** Reading datum i of an encoded message gives datum i back. */
  lemma ReadEncodedDatum(m: seq<Datum>, i: nat)
    requires i < |m|
    ensures |Encode(m)| >= HeaderSlots(|m|)
    ensures ReadDatum(Encode(m), |m|, i) == Some(m[i])
  {
    EncodedHeader(m, i);
    EncodedDatumSlots(m, i);
    ReadFramedDatum(Encode(m), |m|, i, m[i], HeaderSlots(|m|) + |Payload(m[..i])|);
  }

  /** When every datum reads back, the first k datums read back. */
  lemma {:induction false} ReadAllDatums(s: seq<int>, n: nat, m: seq<Datum>, k: nat)
    requires |s| >= HeaderSlots(n) && k <= n && |m| == n
    requires forall i :: 0 <= i < n ==> ReadDatum(s, n, i) == Some(m[i])
    ensures ReadDatums(s, n, k) == Some(m[..k])
  {
    if k > 0 {
      ReadAllDatums(s, n, m, k - 1);
      assert m[..k] == m[..k - 1] + [m[k - 1]];
    }
  }

  /** Round trip: lifting a lowered message gives back its datums. */
  lemma LiftEncode(m: seq<Datum>)
    ensures Lift(Encode(m)) == Some(m)
  {
    var s := Encode(m);
    assert |s| >= HeaderSlots(|m|) && s[0] == |m|;
    forall i | 0 <= i < |m|
      ensures ReadDatum(s, |m|, i) == Some(m[i])
    {
      ReadEncodedDatum(m, i);
    }
    ReadAllDatums(s, |m|, m, |m|);
    assert m[..|m|] == m;
  }

  // ---------------------------------------------------------------------
  // Layouts of particular messages
  // ---------------------------------------------------------------------

  /** A header is its count, then its tags, then its offsets. */
  lemma HeaderParts(t: Template, tags: seq<int>, offsets: seq<int>)
    requires |tags| == |t| && |offsets| == |t| + 1
    requires forall i :: 0 <= i < |t| ==> tags[i] == Tag(t[i])
    requires forall i :: 0 <= i <= |t| ==> offsets[i] == Offset(t, i)
    ensures Header(t) == [|t|] + tags + offsets
  {
    HeaderEntries(t);
    var h := Header(t);
    var g := [|t|] + tags + offsets;
    assert forall j :: 0 <= j < |h| ==> h[j] == g[j];
  }

  /** A 3-character string then a float: 6 header slots, offsets 24, 36 and 44 bytes. */
  lemma EncodeStringThenFloat(a: CodeUnit, b: CodeUnit, c: CodeUnit, f: Float64)
    ensures Encode([StringDatum([a, b, c]), FloatDatum(f)]) == [2, 1, 0, 24, 36, 44, a, b, c, f.hi, f.lo]
  {
    var m := [StringDatum([a, b, c]), FloatDatum(f)];
    var t := TemplateOf(m);
    assert t == [StringEntry(3), FloatEntry];
    assert t[..0] == [] && t[..1] == [StringEntry(3)] && t[..2] == t;
    assert PayloadSlots(t[..1]) == 3;
    assert PayloadSlots(t) == 5;
    HeaderParts(t, [1, 0], [24, 36, 44]);
    var first := m[..1];
    assert first == [StringDatum([a, b, c])] && first[..0] == [];
    assert Payload(first) == Payload([]) + [a, b, c];
    assert Payload(m) == Payload(first) + [f.hi, f.lo];
  }

  /** One datum, string or float, of two slots: offsets 16 and 24 bytes. */
  lemma EncodeTwoSlotDatum(d: Datum)
    requires |DatumSlots(d)| == 2
    ensures Encode([d]) == [1, Tag(EntryOf(d)), 16, 24] + DatumSlots(d)
  {
    var t := TemplateOf([d]);
    assert t == [EntryOf(d)];
    assert t[..0] == [] && t[..1] == t;
    assert PayloadSlots(t) == 2;
    HeaderParts(t, [Tag(EntryOf(d))], [16, 24]);
    var m := [d];
    assert m[..0] == [];
    assert Payload(m) == Payload([]) + DatumSlots(d);
  }

  /** The string of two NUL characters, and the float 0 (all bits clear). */
  lemma EncodeNulsAndZero()
    ensures Encode([StringDatum([0, 0])]) == [1, MESSAGE_DATUM_TYPE_STRING, 16, 24, 0, 0]
    ensures Encode([FloatDatum(Float64(0, 0))]) == [1, MESSAGE_DATUM_TYPE_FLOAT, 16, 24, 0, 0]
  {
    EncodeTwoSlotDatum(StringDatum([0, 0]));
    EncodeTwoSlotDatum(FloatDatum(Float64(0, 0)));
  }
}
