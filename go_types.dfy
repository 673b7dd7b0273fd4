/**
 * The Go extractor's view of type expressions: the parts of Go's syntax tree
 * it looks at, how it renders a type back to text, how it flattens parameter
 * and result lists, and its heuristic for spotting generic types.
 */
module GoTypes {
  import opened Text

  /** The direction of a channel type, as `ast.ChanDir` gives it. */
  datatype ChanDir = Send | Recv | SendRecv

  /** The expression nodes the renderer distinguishes. `Nil` is a missing
      expression (an array type without a length is a slice); `Other` is any
      other node, such as a literal or a call. */
  datatype Expr =
    | Nil
    | Ident(name: string)
    | Star(x: Expr)
    | ArrayType(len: Expr, elt: Expr)
    | MapType(key: Expr, value: Expr)
    | ChanType(dir: ChanDir, value: Expr)
    | Selector(x: Expr, sel: string)
    | Index(x: Expr, index: Expr)
    | IndexList(x: Expr, indices: seq<Expr>)
    | FuncType(sig: FuncSig)
    | InterfaceType(methods: FieldList)
    | StructType(fields: FieldList)
    | Other(kind: string)

  /** One entry of a field list: the names it declares (none for an embedded
      or unnamed entry), its type and its raw tag. */
  datatype Field = Field(names: seq<string>, ty: Expr, tag: Option<string>)

  /** A field list, or the nil list. */
  datatype FieldList = NoList | List(fields: seq<Field>)

  /** A function type: type parameters, parameters and results. */
  datatype FuncSig = FuncSig(typeParams: FieldList, params: FieldList, results: FieldList)

  datatype ParamInfo = ParamInfo(name: string, ty: string)

  /** The text of a type expression. */
  function ExprToString(e: Expr): string
    decreases e, 2
  {
    match e
    case Nil => ""
    case Ident(name) => name
    case Star(x) => "*" + ExprToString(x)
    case ArrayType(len, elt) =>
      if len.Nil? then "[]" + ExprToString(elt)
      else "[" + ExprToString(len) + "]" + ExprToString(elt)
    case MapType(k, v) => "map[" + ExprToString(k) + "]" + ExprToString(v)
    case ChanType(dir, v) =>
      (match dir
       case Send => "chan<- "
       case Recv => "<-chan "
       case SendRecv => "chan ") + ExprToString(v)
    case Selector(x, sel) => ExprToString(x) + "." + sel
    case Index(x, i) => ExprToString(x) + "[" + ExprToString(i) + "]"
    case IndexList(x, idx) => ExprToString(x) + "[" + Join(ExprStrings(idx), ", ") + "]"
    case FuncType(sig) =>
      "func(" + Join(ParamTexts(ParamsOf(sig.params)), ", ") + ") " + ReturnTypeOf(sig.results)
    case InterfaceType(_) => "interface{}"
    case StructType(_) => "struct{}"
    case Other(_) => "unknown"
  }

  /** Each composite type opens with its own Go syntax when rendered. */
  lemma ExprToStringOpens(x: Expr, y: Expr, sig: FuncSig)
    ensures StartsWith(ExprToString(Star(x)), "*")
    ensures StartsWith(ExprToString(ArrayType(Nil, y)), "[]") && StartsWith(ExprToString(ArrayType(x, y)), "[")
    ensures StartsWith(ExprToString(MapType(x, y)), "map[")
    ensures StartsWith(ExprToString(ChanType(Send, y)), "chan<- ")
    ensures StartsWith(ExprToString(ChanType(Recv, y)), "<-chan ")
    ensures StartsWith(ExprToString(ChanType(SendRecv, y)), "chan ")
    ensures StartsWith(ExprToString(FuncType(sig)), "func(")
  {
    OpensWith("*", ExprToString(x));
    OpensWith("[]", ExprToString(y));
    if x.Nil? {
      OpensWith("[]", ExprToString(y));
    } else {
      OpensWith("[", ExprToString(x) + "]" + ExprToString(y));
    }
    OpensWith("map[", ExprToString(x) + "]" + ExprToString(y));
    OpensWith("chan<- ", ExprToString(y));
    OpensWith("<-chan ", ExprToString(y));
    OpensWith("chan ", ExprToString(y));
    OpensWith("func(", Join(ParamTexts(ParamsOf(sig.params)), ", ") + ") " + ReturnTypeOf(sig.results));
  }

  /** A selector ends with its selected name, and the index forms with `]`. */
  lemma ExprToStringCloses(x: Expr, y: Expr, name: string, idx: seq<Expr>)
    ensures EndsWith(ExprToString(Selector(x, name)), "." + name)
    ensures EndsWith(ExprToString(Index(x, y)), "]") && EndsWith(ExprToString(IndexList(x, idx)), "]")
  {
    ClosesWith(ExprToString(x), "." + name);
    ClosesWith(ExprToString(x) + "[" + ExprToString(y), "]");
    ClosesWith(ExprToString(x) + "[" + Join(ExprStrings(idx), ", "), "]");
  }

  /** A missing expression is empty, an identifier is its name, and the node
      kinds the renderer does not spell out collapse to fixed words. */
  lemma ExprToStringWords(name: string, fl: FieldList, kind: string)
    ensures ExprToString(Nil) == "" && ExprToString(Ident(name)) == name
    ensures ExprToString(InterfaceType(fl)) == "interface{}" && ExprToString(StructType(fl)) == "struct{}"
    ensures ExprToString(Other(kind)) == "unknown"
  {
  }

  lemma OpensWith(p: string, x: string)
    ensures StartsWith(p + x, p)
  {
    assert (p + x)[..|p|] == p;
  }

  lemma ClosesWith(x: string, p: string)
    ensures EndsWith(x + p, p)
  {
    assert (x + p)[|x|..] == p;
  }

  /** The texts of a sequence of expressions, in order. */
  function ExprStrings(es: seq<Expr>): (r: seq<string>)
    ensures |r| == |es|
    ensures forall i :: 0 <= i < |es| ==> r[i] == ExprToString(es[i])
    decreases es, 1
  {
    if es == [] then [] else [ExprToString(es[0])] + ExprStrings(es[1..])
  }

  /** A parameter as a function type prints it: `name type`, or the type
      alone when the parameter is unnamed. */
  function ParamText(p: ParamInfo): string {
    if p.name != "" then p.name + " " + p.ty else p.ty
  }

  function ParamTexts(ps: seq<ParamInfo>): (r: seq<string>)
    ensures |r| == |ps|
    ensures forall i :: 0 <= i < |ps| ==> r[i] == ParamText(ps[i])
  {
    if ps == [] then [] else [ParamText(ps[0])] + ParamTexts(ps[1..])
  }

  /** The parameters one field contributes: one per name, all sharing the
      field's type, or a single unnamed one. */
  function FieldParams(f: Field): (r: seq<ParamInfo>)
    ensures |r| == if f.names == [] then 1 else |f.names|
    decreases f, 2
  {
    var ty := ExprToString(f.ty);
    if f.names == [] then [ParamInfo("", ty)]
    else NamedParams(f.names, ty)
  }

  function NamedParams(names: seq<string>, ty: string): (r: seq<ParamInfo>)
    ensures |r| == |names|
    ensures forall i :: 0 <= i < |names| ==> r[i] == ParamInfo(names[i], ty)
  {
    if names == [] then [] else [ParamInfo(names[0], ty)] + NamedParams(names[1..], ty)
  }

  /** The parameters of a list of fields, field by field. */
  function FieldsParams(fs: seq<Field>): seq<ParamInfo>
    decreases fs, 1
  {
    if fs == [] then [] else FieldsParams(fs[..|fs| - 1]) + FieldParams(fs[|fs| - 1])
  }

  /** The flattened parameter list; the nil list has none. */
  function ParamsOf(fl: FieldList): seq<ParamInfo>
    decreases fl, 3
  {
    match fl
    case NoList => []
    case List(fs) => FieldsParams(fs)
  }

  /** The type texts of a list of fields, one per entry whatever its names. */
  function FieldTypes(fs: seq<Field>): (r: seq<string>)
    ensures |r| == |fs|
    ensures forall i :: 0 <= i < |fs| ==> r[i] == ExprToString(fs[i].ty)
    decreases fs, 1
  {
    if fs == [] then [] else FieldTypes(fs[..|fs| - 1]) + [ExprToString(fs[|fs| - 1].ty)]
  }

  /** The text of a result list: `void` when there is none, the type itself
      for one result, and the types in parentheses otherwise. */
  function ReturnTypeOf(fl: FieldList): string
    decreases fl, 3
  {
    match fl
    case NoList => "void"
    case List(fs) =>
      if fs == [] then "void"
      else
        var types := FieldTypes(fs);
        if |types| == 1 then types[0] else "(" + Join(types, ", ") + ")"
  }

  predicate IsPointerType(e: Expr) { e.Star? }

  predicate IsSliceType(e: Expr) { e.ArrayType? && e.len.Nil? }

  predicate IsMapType(e: Expr) { e.MapType? }

  predicate IsChanType(e: Expr) { e.ChanType? }

  /** The heuristic for a generic type: brackets, but not a slice or a map. */
  predicate ContainsGenerics(s: string) {
    HasChar(s, '[') && HasChar(s, ']') && !StartsWith(s, "[]") && !StartsWith(s, "map[")
  }

  /** Go's `extractParams`: the parameters field by field, each name of a
      field sharing its type, an unnamed field giving one unnamed parameter. */
  method ExtractParams(params: FieldList) returns (result: seq<ParamInfo>)
    ensures result == ParamsOf(params)
  {
    if params.NoList? {
      return [];
    }
    var fs := params.fields;
    result := [];
    for k := 0 to |fs|
      invariant result == FieldsParams(fs[..k])
    {
      FieldsParamsStep(fs, k);
      var paramType := ExprToString(fs[k].ty);
      if |fs[k].names| == 0 {
        result := result + [ParamInfo("", paramType)];
      } else {
        result := AppendNamedParams(result, fs[k].names, paramType);
      }
    }
    assert fs[..|fs|] == fs;
  }

  lemma FieldsParamsStep(fs: seq<Field>, k: nat)
    requires k < |fs|
    ensures FieldsParams(fs[..k + 1]) == FieldsParams(fs[..k]) + FieldParams(fs[k])
  {
    assert fs[..k + 1][..k] == fs[..k];
  }

  /** The inner loop of `extractParams`: one parameter per name of a field. */
  method AppendNamedParams(start: seq<ParamInfo>, names: seq<string>, ty: string)
    returns (result: seq<ParamInfo>)
    ensures result == start + NamedParams(names, ty)
  {
    result := start;
    for j := 0 to |names|
      invariant result == start + NamedParams(names[..j], ty)
    {
      NamedParamsAppend(names[..j], names[j], ty);
      assert names[..j + 1] == names[..j] + [names[j]];
      result := result + [ParamInfo(names[j], ty)];
    }
    assert names[..|names|] == names;
  }

  lemma NamedParamsAppend(names: seq<string>, name: string, ty: string)
    ensures NamedParams(names + [name], ty) == NamedParams(names, ty) + [ParamInfo(name, ty)]
  {
  }

  /** Go's `extractReturnType`. */
  method ExtractReturnType(results: FieldList) returns (r: string)
    ensures r == ReturnTypeOf(results)
  {
    if results.NoList? || |results.fields| == 0 {
      return "void";
    }
    var fs := results.fields;
    var types: seq<string> := [];
    for k := 0 to |fs|
      invariant types == FieldTypes(fs[..k])
    {
      assert fs[..k + 1][..k] == fs[..k];
      types := types + [ExprToString(fs[k].ty)];
    }
    assert fs[..|fs|] == fs;
    if |types| == 1 {
      return types[0];
    }
    return "(" + Join(types, ", ") + ")";
  }

  /** Whether a function type looks generic: it declares type parameters, or
      a parameter type or its result text passes the generics heuristic. */
  predicate GenericsInFunc(sig: FuncSig) {
    (sig.typeParams.List? && |sig.typeParams.fields| > 0) ||
    (exists p :: p in ParamsOf(sig.params) && ContainsGenerics(p.ty)) ||
    ContainsGenerics(ReturnTypeOf(sig.results))
  }

  /** Go's `containsGenericsInFunc`, which stops at the first generic parameter. */
  method ContainsGenericsInFunc(sig: FuncSig) returns (r: bool)
    ensures r == GenericsInFunc(sig)
  {
    if sig.typeParams.List? && |sig.typeParams.fields| > 0 {
      return true;
    }
    var params := ExtractParams(sig.params);
    for k := 0 to |params|
      invariant forall j :: 0 <= j < k ==> !ContainsGenerics(params[j].ty)
    {
      if ContainsGenerics(params[k].ty) {
        return true;
      }
    }
    var returnType := ExtractReturnType(sig.results);
    return ContainsGenerics(returnType);
  }

  /** Parameters keep the order of the fields: the list for more fields
      extends the list for fewer. */
  lemma ParamsAppend(fs: seq<Field>, f: Field)
    ensures ParamsOf(List(fs + [f])) == ParamsOf(List(fs)) + FieldParams(f)
  {
    assert (fs + [f])[..|fs|] == fs;
  }

  /** A field with names gives one parameter per name, in order, all with the
      field's type; a field without names gives one unnamed parameter. */
  lemma FieldParamsMeans(f: Field)
    ensures f.names == [] ==> FieldParams(f) == [ParamInfo("", ExprToString(f.ty))]
    ensures forall i :: 0 <= i < |f.names| ==>
      FieldParams(f)[i] == ParamInfo(f.names[i], ExprToString(f.ty))
  {
  }

  /** The number of parameters is the number of names, counting an unnamed
      field as one. */
  function ParamCount(fs: seq<Field>): nat {
    if fs == [] then 0
    else ParamCount(fs[..|fs| - 1]) + (if fs[|fs| - 1].names == [] then 1 else |fs[|fs| - 1].names|)
  }

  lemma {:induction false} ParamsCounted(fs: seq<Field>)
    ensures |ParamsOf(List(fs))| == ParamCount(fs)
    decreases |fs|
  {
    if fs != [] {
      ParamsCounted(fs[..|fs| - 1]);
    }
  }

  /** The result text: `void` for no results, the one type for a single
      result entry (even one that names several results of that type), and
      the parenthesised list otherwise. */
  lemma ReturnTypeCases(fl: FieldList)
    ensures fl.NoList? || fl.fields == [] ==> ReturnTypeOf(fl) == "void"
    ensures fl.List? && |fl.fields| == 1 ==> ReturnTypeOf(fl) == ExprToString(fl.fields[0].ty)
    ensures fl.List? && |fl.fields| >= 2 ==>
      ReturnTypeOf(fl) == "(" + Join(FieldTypes(fl.fields), ", ") + ")" &&
      StartsWith(ReturnTypeOf(fl), "(") && EndsWith(ReturnTypeOf(fl), ")")
  {
    if fl.List? && |fl.fields| >= 2 {
      var t := ReturnTypeOf(fl);
      assert t[..1] == "(";
      assert t[|t| - 1..] == ")";
    }
  }

  /** Slices and maps never pass the generics heuristic. */
  lemma SliceAndMapNotGeneric(e: Expr)
    requires IsSliceType(e) || IsMapType(e)
    ensures !ContainsGenerics(ExprToString(e))
  {
    var s := ExprToString(e);
    if IsSliceType(e) {
      assert s[..2] == "[]";
    } else {
      assert s[..4] == "map[";
    }
  }

  /** An array with a literal length renders as `[unknown]E` and does pass
      the heuristic: the fixed-size array counts as generic. */
  lemma FixedArrayCountsAsGeneric(len: Expr, elt: Expr)
    requires len.Other?
    ensures ExprToString(ArrayType(len, elt)) == "[unknown]" + ExprToString(elt)
    ensures ContainsGenerics(ExprToString(ArrayType(len, elt)))
  {
    assert ExprToString(ArrayType(len, elt)) == "[unknown]" + ExprToString(elt);
    UnknownLengthIsGeneric(ExprToString(elt));
  }

  /** Text opening with `[unknown]` passes the heuristic. */
  lemma UnknownLengthIsGeneric(rest: string)
    ensures ContainsGenerics("[unknown]" + rest)
  {
    var s := "[unknown]" + rest;
    assert s[0] == '[' && s[8] == ']' && s[1] == 'u';
  }

  /** A named type instantiated with a type argument passes the heuristic. */
  lemma InstantiationIsGeneric(name: string, arg: Expr)
    requires name != [] && name != "map"
    requires forall i :: 0 <= i < |name| ==> IsWordChar(name[i])
    ensures ContainsGenerics(ExprToString(Index(Ident(name), arg)))
  {
    assert ExprToString(Index(Ident(name), arg)) == name + "[" + ExprToString(arg) + "]";
    BracketedIsGeneric(name, ExprToString(arg));
  }

  /** A word other than `map` followed by a bracketed text passes the heuristic. */
  lemma BracketedIsGeneric(name: string, inner: string)
    requires name != [] && name != "map"
    requires forall i :: 0 <= i < |name| ==> IsWordChar(name[i])
    ensures ContainsGenerics(name + "[" + inner + "]")
  {
    var s := name + "[" + inner + "]";
    assert s[|name|] == '[' && s[|s| - 1] == ']';
    assert s[0] == name[0];
    assert '[' in s && ']' in s;
    assert !StartsWith(s, "map[") by {
      if |name| >= 4 {
        assert s[3] == name[3];
      } else if |name| < 3 {
        assert s[|name|] == '[';
      } else {
        assert s[..3] == name;
      }
    }
  }
}
