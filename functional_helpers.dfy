/**
 * `renderCode` and `countTo`. The tagged template `renderCode` fills a
 * template with interpolated values (code text, numbers, or arrays of those
 * nested to any depth), puts every leaf of an array on its own line,
 * depth-first, and drops the empty lines of the result.
 */
module FunctionalHelpers {
  import opened Text

  /** The decimal text `${n}` of a number: never empty, one line. */
  type NumberText = s: string | |s| > 0 && IsLine(s) witness "0"

  /** A value interpolated into a `renderCode` template. */
  datatype CodeLines =
    | Code(text: string)
    | Num(rendered: NumberText)
    | Many(items: seq<CodeLines>)

  /** The leaves of a value, depth-first, left to right. */
  function Flatten(c: CodeLines): seq<string>
    decreases c
  {
    match c
    case Code(t) => [t]
    case Num(n) => [n]
    case Many(items) => FlattenAll(items)
  }

  function FlattenAll(items: seq<CodeLines>): seq<string>
    decreases items
  {
    if items == [] then [] else Flatten(items[0]) + FlattenAll(items[1..])
  }

  /** The text a value contributes to the template: its leaves, one per line. */
  function RenderValue(c: CodeLines): string {
    Join(Flatten(c))
  }

  /** The template pieces with the rendered values in between. */
  function Interleave(strings: seq<string>, values: seq<CodeLines>): string
    requires |strings| == |values| + 1
  {
    if values == [] then strings[0]
    else strings[0] + RenderValue(values[0]) + Interleave(strings[1..], values[1..])
  }

  /**
   * renderCode`s0${v0}s1...`: the filled-in template without its empty
   * lines. A tagged template always has one more piece than values.
   */
  function RenderCode(strings: seq<string>, values: seq<CodeLines>): (r: string)
    requires |strings| == |values| + 1
    ensures r == "" || forall l :: l in Lines(r) ==> l != ""
  {
    var kept := NonEmpty(Lines(Interleave(strings, values)));
    NonEmptyLines(Lines(Interleave(strings, values)));
    JoinHasNoBlankLine(kept);
    Join(kept)
  }

  /** No leaf of the value holds a line break of its own. */
  predicate SingleLineLeaves(c: CodeLines) {
    AllLines(Flatten(c))
  }

  /**
   * A lone interpolated value renders as its non-empty leaves, depth-first,
   * one per line: empty strings at any depth give no line.
   */
  lemma RenderLoneValue(c: CodeLines)
    requires SingleLineLeaves(c)
    ensures RenderCode(["", ""], [c]) == Join(NonEmpty(Flatten(c)))
  {
    assert Interleave(["", ""], [c]) == RenderValue(c);
    NonEmptyLinesOfJoin(Flatten(c));
  }

  /** The lines of the rendering of a lone value are exactly its non-empty leaves. */
  lemma RenderedLinesAreNonEmptyLeaves(c: CodeLines)
    requires SingleLineLeaves(c)
    requires NonEmpty(Flatten(c)) != []
    ensures Lines(RenderCode(["", ""], [c])) == NonEmpty(Flatten(c))
  {
    RenderLoneValue(c);
    NonEmptyLines(Flatten(c));
    LinesOfJoin(NonEmpty(Flatten(c)));
  }

  /** A first line of template text, then a value on the following lines. */
  lemma RenderLineThenValue(p: string, c: CodeLines)
    requires IsLine(p) && SingleLineLeaves(c)
    ensures RenderCode([p + "\n", ""], [c]) == Join(NonEmpty([p] + Flatten(c)))
  {
    assert Interleave([p + "\n", ""], [c]) == p + "\n" + RenderValue(c);
    LinesAfterLine(p, RenderValue(c));
    LinesOfLine(p);
    NonEmptyAppend(Lines(p), Lines(RenderValue(c)));
    NonEmptyLinesOfJoin(Flatten(c));
    NonEmptyAppend([p], Flatten(c));
  }

  /** When every leaf is a non-empty line, nothing is dropped. */
  lemma RenderLineThenLeaves(p: string, c: CodeLines)
    requires IsLine(p) && p != "" && SingleLineLeaves(c) && NonEmpty(Flatten(c)) == Flatten(c)
    ensures RenderCode([p + "\n", ""], [c]) == Join([p] + Flatten(c))
  {
    RenderLineThenValue(p, c);
    NonEmptyAppend([p], Flatten(c));
  }

  lemma FlattenAllCons(c: CodeLines, rest: seq<CodeLines>)
    ensures FlattenAll([c] + rest) == Flatten(c) + FlattenAll(rest)
  {
    assert ([c] + rest)[1..] == rest;
  }

  /** The leaves of three values in a row. */
  lemma FlattenThree(a: CodeLines, b: CodeLines, c: CodeLines)
    ensures FlattenAll([a, b, c]) == Flatten(a) + Flatten(b) + Flatten(c)
  {
    FlattenAllCons(a, [b, c]);
    FlattenAllCons(b, [c]);
    FlattenAllCons(c, []);
  }

  lemma FlattenTwo(a: CodeLines, b: CodeLines)
    ensures FlattenAll([a, b]) == Flatten(a) + Flatten(b)
  {
    FlattenAllCons(a, [b]);
    FlattenAllCons(b, []);
  }

  /** A leaf that renders as one non-empty line: a number, or one line of code text. */
  predicate IsLeaf(c: CodeLines) {
    c.Num? || (c.Code? && c.text != "" && IsLine(c.text))
  }

  function LeafText(c: CodeLines): string
    requires IsLeaf(c)
  {
    if c.Num? then c.rendered else c.text
  }

  /** The nesting used in the renderCode examples: `[a, b, [c, [d, e]]]`. */
  function Nest(a: CodeLines, b: CodeLines, c: CodeLines, d: CodeLines, e: CodeLines): CodeLines {
    Many([a, b, Many([c, Many([d, e])])])
  }

  lemma NestLeaves(a: CodeLines, b: CodeLines, c: CodeLines, d: CodeLines, e: CodeLines)
    ensures Flatten(Nest(a, b, c, d, e)) == Flatten(a) + Flatten(b) + Flatten(c) + Flatten(d) + Flatten(e)
  {
    FlattenTwo(d, e);
    FlattenTwo(c, Many([d, e]));
    FlattenThree(a, b, Many([c, Many([d, e])]));
  }

  lemma NestOfLeaves(a: CodeLines, b: CodeLines, c: CodeLines, d: CodeLines, e: CodeLines)
    requires IsLeaf(a) && IsLeaf(b) && IsLeaf(c) && IsLeaf(d) && IsLeaf(e)
    ensures Flatten(Nest(a, b, c, d, e)) == [LeafText(a), LeafText(b), LeafText(c), LeafText(d), LeafText(e)]
    ensures SingleLineLeaves(Nest(a, b, c, d, e))
    ensures NonEmpty(Flatten(Nest(a, b, c, d, e))) == Flatten(Nest(a, b, c, d, e))
  {
    NestLeaves(a, b, c, d, e);
    var ls := Flatten(Nest(a, b, c, d, e));
    assert |ls| == 5;
    assert ls[0] == LeafText(a) && ls[1] == LeafText(b) && ls[2] == LeafText(c);
    assert ls[3] == LeafText(d) && ls[4] == LeafText(e);
    KeptLines([LeafText(a), LeafText(b), LeafText(c), LeafText(d), LeafText(e)]);
  }

  lemma KeptLines(ls: seq<string>)
    requires forall i :: 0 <= i < |ls| ==> ls[i] != "" && IsLine(ls[i])
    ensures AllLines(ls) && NonEmpty(ls) == ls
  {
    NonEmptyIdempotent(ls);
  }

  /**
   * renderCode`bla\n${['blo', 'bli', ['blu', ['ble', 'bly']]]}`, and the same with
   * numbers among the leaves: every leaf of the nested arrays gets its own
   * line, depth-first, after the template's first line.
   */
  lemma RenderNestedLeaves(p: string, a: CodeLines, b: CodeLines, c: CodeLines, d: CodeLines, e: CodeLines)
    requires IsLine(p) && p != ""
    requires IsLeaf(a) && IsLeaf(b) && IsLeaf(c) && IsLeaf(d) && IsLeaf(e)
    ensures RenderCode([p + "\n", ""], [Nest(a, b, c, d, e)])
      == Join([p, LeafText(a), LeafText(b), LeafText(c), LeafText(d), LeafText(e)])
  {
    NestOfLeaves(a, b, c, d, e);
    RenderLineThenLeaves(p, Nest(a, b, c, d, e));
  }

  /**
   * renderCode`bla\n${['', 'bli', ['', ['', 'bly']]]}`: the empty strings at
   * every depth leave no empty line behind.
   */
  lemma RenderDropsEmptyLeaves(p: string, b: CodeLines, e: CodeLines)
    requires IsLine(p) && p != ""
    requires IsLeaf(b) && IsLeaf(e)
    ensures RenderCode([p + "\n", ""], [Nest(Code(""), b, Code(""), Code(""), e)])
      == Join([p, LeafText(b), LeafText(e)])
  {
    var v := Nest(Code(""), b, Code(""), Code(""), e);
    NestLeaves(Code(""), b, Code(""), Code(""), e);
    assert [p] + Flatten(v) == [p, "", LeafText(b), "", "", LeafText(e)];
    RenderLineThenValue(p, v);
    DropEmpties(p, LeafText(b), LeafText(e));
  }

  lemma DropEmpties(x: string, y: string, z: string)
    requires x != "" && y != "" && z != ""
    ensures NonEmpty([x, "", y, "", "", z]) == [x, y, z]
  {
    var l := [x, "", y, "", "", z];
    assert l[5..][1..] == [];
    assert NonEmpty(l[5..]) == [z];
    assert l[4..][1..] == l[5..];
    assert l[3..][1..] == l[4..];
    assert NonEmpty(l[3..]) == [z];
    assert l[2..][1..] == l[3..];
    assert NonEmpty(l[2..]) == [y, z];
    assert l[1..][1..] == l[2..];
    assert NonEmpty(l[1..]) == [y, z];
  }

  /** A template that fills in to one non-empty line renders as that line. */
  lemma RenderSingleLine(strings: seq<string>, values: seq<CodeLines>)
    requires |strings| == |values| + 1
    requires IsLine(Interleave(strings, values)) && Interleave(strings, values) != ""
    ensures RenderCode(strings, values) == Interleave(strings, values)
  {
    var line := Interleave(strings, values);
    LinesOfLine(line);
    assert [line][1..] == [];
    assert NonEmpty([line]) == [line];
  }

  lemma FillNumberTwice(p: string, n: NumberText)
    ensures Interleave([p + " ", " ", ""], [Num(n), Many([Num(n)])]) == p + " " + n + " " + n
  {
    var one := [Num(n)];
    assert one[1..] == [];
    assert FlattenAll(one) == Flatten(one[0]) + FlattenAll(one[1..]);
    assert Flatten(Many(one)) == [n];
    assert Interleave(["", ""], [Many(one)]) == n;
    assert Interleave([" ", ""], [Many(one)]) == " " + n;
  }

  /** renderCode`bla ${0} ${[0]}`: a number is rendered, bare and inside an array. */
  lemma RenderNumberTwice(p: string, n: NumberText)
    requires IsLine(p)
    ensures RenderCode([p + " ", " ", ""], [Num(n), Many([Num(n)])]) == p + " " + n + " " + n
  {
    FillNumberTwice(p, n);
    assert IsLine(p + " " + n + " " + n);
    RenderSingleLine([p + " ", " ", ""], [Num(n), Many([Num(n)])]);
  }

  /** countTo(n): the integers 0 to n - 1, in order. */
  function CountTo(n: nat): (r: seq<nat>)
    ensures |r| == n
    ensures forall i :: 0 <= i < n ==> r[i] == i
  {
    if n == 0 then [] else CountTo(n - 1) + [n - 1]
  }
}
