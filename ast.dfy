/**
 * The code AST the generators build: raw code, variable and constant
 * declarations, function definitions and sequences of those. A template
 * such as Func(name, args, type)`...` becomes a `Func` whose body lists the
 * interpolated elements in order; the whitespace between interpolations
 * carries no meaning and is not kept.
 */
module Ast {
  import opened Wrappers

  type VariableName = string

  /** A function parameter: `Var('Message', 'm')` in an argument list. */
  datatype Param = Param(typeName: string, name: VariableName)

  datatype Element =
    | Raw(code: string)
    | Var(typeName: string, name: VariableName, value: Option<Element>)
    | ConstVar(typeName: string, name: VariableName, init: Element)
    | Func(name: VariableName, args: seq<Param>, returnType: string, body: seq<Element>)
    | Sequence(content: seq<Element>)

  /** The function definition a `Func` element denotes. */
  datatype FuncDef = FuncDef(name: VariableName, args: seq<Param>, returnType: string, body: seq<Element>)

  function FuncOf(f: FuncDef): Element {
    Func(f.name, f.args, f.returnType, f.body)
  }

  /** The single message argument every message handler takes. */
  const MessageArg: Param := Param("Message", "m")

  /** A variable declared with an initial value given as code. */
  function VarInit(typeName: string, name: VariableName, code: string): Element {
    Var(typeName, name, Some(Raw(code)))
  }

  /** The call statement `name(arg)`. */
  function Call(name: VariableName, arg: string): Element {
    Raw(name + "(" + arg + ")")
  }

  /**
   * The names an element declares at its own level, in order: a variable,
   * a constant or a function declares its name, a sequence whatever its
   * items declare, raw code nothing. Function bodies are not entered.
   */
  function Declared(e: Element): seq<VariableName>
    decreases e, 1
  {
    match e
    case Raw(_) => []
    case Var(_, name, _) => [name]
    case ConstVar(_, name, _) => [name]
    case Func(name, _, _, _) => [name]
    case Sequence(content) => DeclaredAll(content)
  }

  function DeclaredAll(es: seq<Element>): seq<VariableName>
    decreases es, 0
  {
    if es == [] then [] else Declared(es[0]) + DeclaredAll(es[1..])
  }

  /** Declared names distribute over concatenation. */
  lemma {:induction false} DeclaredAllAppend(a: seq<Element>, b: seq<Element>)
    ensures DeclaredAll(a + b) == DeclaredAll(a) + DeclaredAll(b)
  {
    if a == [] {
      assert a + b == b;
    } else {
      assert (a + b)[1..] == a[1..] + b;
      DeclaredAllAppend(a[1..], b);
    }
  }

  /** A single declaration: a variable, a constant or a function. */
  predicate IsDeclaration(e: Element) {
    e.Var? || e.ConstVar? || e.Func?
  }

  /** The name a single declaration declares. */
  function NameOf(e: Element): VariableName
    requires IsDeclaration(e)
  {
    e.name
  }

  /** A list of single declarations declares their names, in order. */
  lemma {:induction false} DeclaredSingles(es: seq<Element>)
    requires forall i :: 0 <= i < |es| ==> IsDeclaration(es[i])
    ensures |DeclaredAll(es)| == |es|
    ensures forall i :: 0 <= i < |es| ==> DeclaredAll(es)[i] == NameOf(es[i])
  {
    if es != [] {
      DeclaredSingles(es[1..]);
    }
  }

  /** A sequence of two elements declares what the first declares, then what the second does. */
  lemma DeclaredPair(x: Element, y: Element)
    ensures Declared(Sequence([x, y])) == Declared(x) + Declared(y)
  {
    assert [x, y][1..] == [y];
    assert DeclaredAll([y]) == Declared(y) + DeclaredAll([]);
  }
}
