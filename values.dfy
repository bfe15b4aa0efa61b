/**
 * The value part of the style-sheet object model (lib/CSSValueList.php):
 * sizes, bare identifiers, separator-joined value lists (CSSValueList,
 * CSSRuleValueList) and named function calls (CSSFunction).
 */
module Values {
  import opened Wrappers

  /** A PHP number. `==` compares magnitudes; `===` also compares the kind. */
  datatype Num = Int(i: int) | Float(f: real) {
    function Magnitude(): real {
      match this
      case Int(i) => i as real
      case Float(f) => f
    }
  }

  /** A CSSSize: magnitude, optional unit and the colour-component flag. */
  datatype Size = Size(size: Num, unit: Option<string>, isColorComponent: bool)

  /** A CSS value as it appears in a rule or inside another value list. */
  datatype Value =
    | SizeValue(size: Size)
    | Ident(text: string)
    | List(separator: string, items: seq<Value>)
    | Func(name: string, separator: string, args: seq<Value>)
  {
    /** `instanceof CSSValueList`: plain lists and function calls (colours included). */
    predicate IsValueList() {
      List? || Func?
    }

    function ListSeparator(): string
      requires IsValueList()
    {
      if List? then separator else this.separator
    }

    function ListComponents(): seq<Value>
      requires IsValueList()
    {
      if List? then items else args
    }
  }

  /** PHP's implode: the parts with `sep` between neighbours. */
  function Join(sep: string, parts: seq<string>): string
  {
    if |parts| == 0 then ""
    else if |parts| == 1 then parts[0]
    else parts[0] + sep + Join(sep, parts[1..])
  }

  /** The text of a value; how a CSSSize prints is given by `sizeText`. */
  function Render(v: Value, sizeText: Size -> string): string
  {
    match v
    case SizeValue(s) => sizeText(s)
    case Ident(t) => t
    case List(sep, items) => Join(sep, RenderAll(items, sizeText))
    case Func(name, sep, args) => name + "(" + Join(sep, RenderAll(args, sizeText)) + ")"
  }

  function RenderAll(vs: seq<Value>, sizeText: Size -> string): (texts: seq<string>)
    ensures |texts| == |vs|
  {
    seq(|vs|, i requires 0 <= i < |vs| => Render(vs[i], sizeText))
  }

  /** Index of the first `c` in `s`, or |s| when there is none. */
  function IndexOf(s: string, c: char): (k: nat)
    ensures k <= |s|
    ensures k < |s| <==> c in s
    ensures k < |s| ==> s[k] == c
    ensures forall j | 0 <= j < k :: s[j] != c
  {
    if |s| == 0 then 0
    else if s[0] == c then 0
    else 1 + IndexOf(s[1..], c)
  }

  /** Cutting a text at every `c`, the inverse of joining with the one-character separator [c]. */
  function Split(s: string, c: char): (parts: seq<string>)
    ensures |parts| >= 1
    decreases |s|
  {
    var k := IndexOf(s, c);
    if k == |s| then [s]
    else [s[..k]] + Split(s[k + 1..], c)
  }

  lemma IndexOfAfterPrefix(p: string, c: char, rest: string)
    requires c !in p
    ensures IndexOf(p + [c] + rest, c) == |p|
  {
    var s := p + [c] + rest;
    assert s[|p|] == c;
  }

  /**
   * Rendering a list with a one-character separator that occurs in no
   * component text can be undone: cutting the text at the separator gives
   * back the component texts.
   */
  lemma {:induction false} SplitJoin(parts: seq<string>, c: char)
    requires |parts| >= 1
    requires forall i | 0 <= i < |parts| :: c !in parts[i]
    ensures Split(Join([c], parts), c) == parts
  {
    var p := parts[0];
    if |parts| == 1 {
      assert IndexOf(p, c) == |p|;
    } else {
      var rest := Join([c], parts[1..]);
      var s := p + [c] + rest;
      assert Join([c], parts) == s;
      IndexOfAfterPrefix(p, c, rest);
      assert s[..|p|] == p;
      assert s[|p| + 1..] == rest;
      calc {
        Split(s, c);
        [p] + Split(rest, c);
        { SplitJoin(parts[1..], c); }
        [p] + parts[1..];
        parts;
      }
    }
  }

  /** Joining after appending one part adds the separator and that part at the end. */
  lemma {:induction false} JoinAppend(sep: string, parts: seq<string>, last: string)
    requires |parts| >= 1
    ensures Join(sep, parts + [last]) == Join(sep, parts) + sep + last
  {
    if |parts| == 1 {
      assert (parts + [last])[1..] == [last];
    } else {
      assert (parts + [last])[1..] == parts[1..] + [last];
      JoinAppend(sep, parts[1..], last);
    }
  }

  /** Rendering of a component list after one more component has been appended. */
  lemma RenderAllAppend(vs: seq<Value>, v: Value, sep: string, sizeText: Size -> string)
    ensures Join(sep, RenderAll(vs + [v], sizeText)) ==
            if vs == [] then Render(v, sizeText)
            else Join(sep, RenderAll(vs, sizeText)) + sep + Render(v, sizeText)
  {
    assert RenderAll(vs + [v], sizeText) == RenderAll(vs, sizeText) + [Render(v, sizeText)];
    if vs != [] {
      JoinAppend(sep, RenderAll(vs, sizeText), Render(v, sizeText));
    }
  }

  /**
   * A function call's text can be read back: when the name holds no `(`,
   * the first `(` ends the name, the last character is `)`, and between
   * them stand the arguments joined by the separator.
   */
  lemma FunctionTextParses(name: string, sep: string, args: seq<Value>, sizeText: Size -> string)
    requires '(' !in name
    ensures var t := Render(Func(name, sep, args), sizeText);
            && IndexOf(t, '(') == |name|
            && t[..|name|] == name
            && t[|t| - 1] == ')'
            && t[|name| + 1..|t| - 1] == Join(sep, RenderAll(args, sizeText))
  {
    var inner := Join(sep, RenderAll(args, sizeText));
    var t := Render(Func(name, sep, args), sizeText);
    assert t == name + ['('] + (inner + ")");
    IndexOfAfterPrefix(name, '(', inner + ")");
  }

  /** What a CSSValueList constructor receives: a PHP array, or any single value. */
  datatype Components = Array(items: seq<Value>) | Single(value: Value)

  /**
   * The components a CSSValueList starts with: another value list with the
   * same separator is flattened, a non-array becomes a one-element list.
   */
  function InitialComponents(arg: Components, sep: string): seq<Value>
  {
    match arg
    case Single(v) =>
      if v.IsValueList() && v.ListSeparator() == sep then v.ListComponents() else [v]
    case Array(items) => items
  }

  /** CSSValueList: components joined by a separator, edited in place. */
  class ValueList {
    var components: seq<Value>
    var separator: string

    constructor (arg: Components, sep: string)
      ensures separator == sep
      ensures arg.Array? ==> components == arg.items
      ensures arg.Single? && arg.value.List? && arg.value.separator == sep ==> components == arg.value.items
      ensures arg.Single? && arg.value.Func? && arg.value.separator == sep ==> components == arg.value.args
      ensures arg.Single? && !(arg.value.IsValueList() && arg.value.ListSeparator() == sep) ==>
                components == [arg.value]
    {
      components := InitialComponents(arg, sep);
      separator := sep;
    }

    /** The list as a value of the tree. */
    function AsValue(): Value
      reads this
    {
      List(separator, components)
    }

    method AddListComponent(v: Value)
      modifies this
      ensures components == old(components) + [v]
      ensures separator == old(separator)
    {
      components := components + [v];
    }

    /** implode: the components' texts with the separator between neighbours. */
    function ToString(sizeText: Size -> string): (text: string)
      reads this
      ensures text == Join(separator, RenderAll(components, sizeText))
    {
      Render(AsValue(), sizeText)
    }
  }

  /** CSSFunction: a name and an argument list whose separator starts as `,`. */
  class Function {
    var name: string
    const arguments: ValueList

    constructor (name: string, args: Components)
      ensures this.name == name && fresh(arguments)
      ensures arguments.separator == ","
      ensures arguments.components == InitialComponents(args, ",")
    {
      this.name := name;
      arguments := new ValueList(args, ",");
    }

    function AsValue(): Value
      reads this, arguments
    {
      Func(name, arguments.separator, arguments.components)
    }

    /** `name(args)`, the arguments joined by the list's separator. */
    function ToString(sizeText: Size -> string): (text: string)
      reads this, arguments
      ensures text == name + "(" + arguments.ToString(sizeText) + ")"
    {
      Render(AsValue(), sizeText)
    }
  }
}
