/**
 * Line-level string helpers shared by the code renderer and by the code
 * normaliser of the test helpers: splitting on '\n' the way
 * `String.prototype.split('\n')` does, joining with '\n' the way
 * `Array.prototype.join('\n')` does, dropping empty lines and trimming.
 */
module Text {

  /** A string that holds no line break. */
  predicate IsLine(s: string) {
    '\n' !in s
  }

  /** All elements are single lines. */
  predicate AllLines(ls: seq<string>) {
    forall i :: 0 <= i < |ls| ==> IsLine(ls[i])
  }

  /** The index of the first line break of `s`, or `|s|` when it has none. */
  function FirstBreak(s: string): (k: nat)
    ensures k <= |s| && IsLine(s[..k])
    ensures k < |s| ==> s[k] == '\n'
  {
    if s == [] || s[0] == '\n' then 0 else 1 + FirstBreak(s[1..])
  }

  /** `s.split('\n')`: the empty string splits into one empty line. */
  function Lines(s: string): (r: seq<string>)
    ensures |r| >= 1
    ensures AllLines(r)
    decreases |s|
  {
    var k := FirstBreak(s);
    if k == |s| then [s] else [s[..k]] + Lines(s[k + 1..])
  }

  /** `ls.join('\n')`. */
  function Join(ls: seq<string>): string {
    if |ls| == 0 then ""
    else if |ls| == 1 then ls[0]
    else ls[0] + "\n" + Join(ls[1..])
  }

  /** Joining a head onto a non-empty rest puts one line break between them. */
  lemma JoinCons(x: string, rest: seq<string>)
    requires rest != []
    ensures Join([x] + rest) == x + "\n" + Join(rest)
  {
    assert ([x] + rest)[1..] == rest;
  }

  /** `ls.filter((line) => !!line.length)`. */
  function NonEmpty(ls: seq<string>): (r: seq<string>)
    ensures forall i :: 0 <= i < |r| ==> r[i] != ""
    ensures forall x :: x in r <==> x in ls && x != ""
  {
    if ls == [] then []
    else if ls[0] == "" then NonEmpty(ls[1..])
    else [ls[0]] + NonEmpty(ls[1..])
  }

  /** The first break is the first position holding '\n'. */
  lemma FirstBreakUnique(s: string, k: nat)
    requires k <= |s| && IsLine(s[..k]) && (k < |s| ==> s[k] == '\n')
    ensures FirstBreak(s) == k
  {
    var f := FirstBreak(s);
    assert forall i :: 0 <= i < k ==> s[..k][i] == s[i];
    assert forall i :: 0 <= i < f ==> s[..f][i] == s[i];
  }

  lemma LinesOfLine(s: string)
    requires IsLine(s)
    ensures Lines(s) == [s]
  {
    FirstBreakUnique(s, |s|);
    assert s[..|s|] == s;
  }

  /** A line followed by a line break splits off as the first line. */
  lemma LinesAfterLine(a: string, b: string)
    requires IsLine(a)
    ensures Lines(a + "\n" + b) == [a] + Lines(b)
  {
    var s := a + "\n" + b;
    assert s[..|a|] == a;
    FirstBreakUnique(s, |a|);
    assert s[|a| + 1..] == b;
  }

  /** Splitting undoes joining, provided no element holds a line break. */
  lemma {:induction false} LinesOfJoin(ls: seq<string>)
    requires |ls| >= 1 && AllLines(ls)
    ensures Lines(Join(ls)) == ls
  {
    if |ls| == 1 {
      LinesOfLine(ls[0]);
    } else {
      LinesAfterLine(ls[0], Join(ls[1..]));
      LinesOfJoin(ls[1..]);
      assert ls == [ls[0]] + ls[1..];
    }
  }

  lemma {:induction false} NonEmptyAppend(a: seq<string>, b: seq<string>)
    ensures NonEmpty(a + b) == NonEmpty(a) + NonEmpty(b)
  {
    if a == [] {
      assert a + b == b;
    } else {
      assert (a + b)[0] == a[0];
      assert (a + b)[1..] == a[1..] + b;
      NonEmptyAppend(a[1..], b);
      if a[0] != "" {
        assert NonEmpty(a + b) == [a[0]] + NonEmpty(a[1..] + b);
      }
    }
  }

  lemma {:induction false} NonEmptyIdempotent(ls: seq<string>)
    requires forall i :: 0 <= i < |ls| ==> ls[i] != ""
    ensures NonEmpty(ls) == ls
  {
    if ls != [] {
      NonEmptyIdempotent(ls[1..]);
    }
  }

  lemma {:induction false} NonEmptyLines(ls: seq<string>)
    requires AllLines(ls)
    ensures AllLines(NonEmpty(ls))
  {
    if ls != [] {
      NonEmptyLines(ls[1..]);
    }
  }

  /**
   * Dropping the empty lines of a joined text gives back the non-empty
   * elements, whether or not the list was empty.
   */
  lemma NonEmptyLinesOfJoin(ls: seq<string>)
    requires AllLines(ls)
    ensures NonEmpty(Lines(Join(ls))) == NonEmpty(ls)
  {
    if ls == [] {
      assert Lines("") == [""];
    } else {
      LinesOfJoin(ls);
    }
  }

  /** A joined list of non-empty lines has no empty line (or is empty). */
  lemma JoinHasNoBlankLine(ls: seq<string>)
    requires AllLines(ls)
    requires forall i :: 0 <= i < |ls| ==> ls[i] != ""
    ensures Join(ls) == "" || forall l :: l in Lines(Join(ls)) ==> l != ""
    ensures Join(ls) == "" <==> ls == []
  {
    if ls != [] {
      LinesOfJoin(ls);
      if |ls| > 1 {
        assert |Join(ls)| > 0;
      }
    }
  }

  // ---------------------------------------------------------------------
  // Trimming
  // ---------------------------------------------------------------------

  /**
   * ECMAScript WhiteSpace and LineTerminator code points: what
   * `String.prototype.trim` removes (section 22.1.3.32 of ECMA-262).
   */
  predicate IsWhitespace(c: char) {
    || c == '\t' || c == '\U{000B}' || c == '\U{000C}' || c == ' ' || c == '\U{00A0}' || c == '\U{FEFF}'
    || c == '\n' || c == '\r' || c == '\U{2028}' || c == '\U{2029}'
    || c == '\U{1680}' || ('\U{2000}' <= c <= '\U{200A}') || c == '\U{202F}' || c == '\U{205F}' || c == '\U{3000}'
  }

  function TrimStart(s: string): (r: string)
    ensures |r| <= |s| && r == s[|s| - |r|..]
    ensures r == [] || !IsWhitespace(r[0])
    ensures forall i :: 0 <= i < |s| - |r| ==> IsWhitespace(s[i])
  {
    if s == [] || !IsWhitespace(s[0]) then s else TrimStart(s[1..])
  }

  function TrimEnd(s: string): (r: string)
    ensures |r| <= |s| && r == s[..|r|]
    ensures r == [] || !IsWhitespace(r[|r| - 1])
    ensures forall i :: |r| <= i < |s| ==> IsWhitespace(s[i])
  {
    if s == [] || !IsWhitespace(s[|s| - 1]) then s else TrimEnd(s[..|s| - 1])
  }

  /** `s.trim()`: the longest slice of `s` that neither starts nor ends with whitespace. */
  function Trim(s: string): (r: string) {
    TrimEnd(TrimStart(s))
  }

  lemma TrimmedEdges(s: string)
    ensures Trim(s) == [] || (!IsWhitespace(Trim(s)[0]) && !IsWhitespace(Trim(s)[|Trim(s)| - 1]))
  {
    var t := TrimStart(s);
    if Trim(s) != [] {
      assert Trim(s)[0] == t[0];
    }
  }

  lemma TrimIdempotent(s: string)
    ensures Trim(Trim(s)) == Trim(s)
  {
    TrimmedEdges(s);
  }

  /** A slice of a single line is a single line. */
  lemma SliceOfLine(s: string, i: nat, j: nat)
    requires IsLine(s) && i <= j <= |s|
    ensures IsLine(s[i..j])
  {
    assert forall k :: 0 <= k < j - i ==> s[i..j][k] == s[i + k];
  }

  lemma TrimOfLine(s: string)
    requires IsLine(s)
    ensures IsLine(Trim(s))
  {
    var t := TrimStart(s);
    SliceOfLine(s, |s| - |t|, |s|);
    SliceOfLine(t, 0, |Trim(s)|);
  }
}
