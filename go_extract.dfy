/**
 * The Go extractor's declaration handlers. The syntax-tree walk is given as
 * the sequence of nodes it visits; each type spec, function declaration and
 * const/var declaration appends entries to the metadata, and a method with a
 * receiver is also attached to the struct it belongs to.
 */
module GoExtract {
  import opened Text
  import opened GoTypes

  datatype FieldInfo = FieldInfo(
    name: string, ty: string, tag: string, exported: bool,
    isPointer: bool, isSlice: bool, isMap: bool, isChan: bool, isGeneric: bool)

  datatype MethodInfo = MethodInfo(
    name: string, parameters: seq<ParamInfo>, returnType: string, exported: bool, isGeneric: bool)

  datatype ReceiverInfo = ReceiverInfo(name: string, ty: string)

  datatype EmbedInfo = EmbedInfo(ty: string, isPointer: bool, isGeneric: bool)

  datatype StructInfo = StructInfo(
    name: string, kind: string, fields: seq<FieldInfo>, methods: seq<MethodInfo>, embeds: seq<EmbedInfo>)

  datatype InterfaceInfo = InterfaceInfo(
    name: string, kind: string, methods: seq<MethodInfo>, embeds: seq<string>)

  datatype FunctionInfo = FunctionInfo(
    name: string, parameters: seq<ParamInfo>, returnType: string, exported: bool)

  datatype MethodWithReceiver = MethodWithReceiver(
    name: string, receiver: ReceiverInfo, parameters: seq<ParamInfo>, returnType: string, exported: bool)

  /** A constant or a variable (the two records have the same fields); an
      empty type or value is one that was not set. */
  datatype ValueInfo = ValueInfo(name: string, ty: string, value: string, exported: bool)

  datatype ImportInfo = ImportInfo(path: string, alias: string, name: string)

  datatype TypeInfo = TypeInfo(name: string, kind: string, underlyingType: string)

  /** The syntax nodes the handlers look at. */
  datatype TypeSpec = TypeSpec(name: string, ty: Expr)

  datatype FuncDecl = FuncDecl(name: string, recv: FieldList, sig: FuncSig)

  datatype Token = ConstTok | VarTok | TypeTok | ImportTok

  datatype Spec = ValueSpec(names: seq<string>, ty: Expr, values: seq<Expr>) | OtherSpec

  datatype GenDecl = GenDecl(tok: Token, specs: seq<Spec>)

  datatype Node = TypeSpecNode(ts: TypeSpec) | FuncDeclNode(fd: FuncDecl) | GenDeclNode(gd: GenDecl) | OtherNode

  /** An import as parsed: its alias, if any, and its quoted path literal. */
  datatype ImportSpec = ImportSpec(alias: Option<string>, pathLit: string)

  /** A parsed file: its package, its imports and the nodes of its syntax
      tree in the order the walk visits them. */
  datatype GoFile = GoFile(packageName: string, imports: seq<ImportSpec>, nodes: seq<Node>)

  /** Go's `ast.IsExported` on ASCII names: the name starts with an upper-case letter. */
  predicate IsExported(name: string) { name != [] && IsUpper(name[0]) }

  /** `strings.Trim(s, c)` for one character: every leading and trailing `c` removed. */
  function TrimChar(s: string, c: char): (r: string)
    ensures |r| <= |s|
    ensures r == [] || (r[0] != c && r[|r| - 1] != c)
    decreases |s|
  {
    if s == [] then []
    else if s[0] == c then TrimChar(s[1..], c)
    else if s[|s| - 1] == c then TrimChar(s[..|s| - 1], c)
    else s
  }

  /** `filepath.Base`: the last element of a slash-separated path; `.` for
      the empty path and `/` for a path of slashes only. */
  function Base(path: string): (r: string)
    ensures r != []
  {
    if path == [] then "."
    else
      var p := TrimTrailingSlashes(path);
      if p == [] then "/"
      else match LastIndexOf(p, '/')
        case None => p
        case Some(k) => if k + 1 == |p| then "/" else p[k + 1..]
  }

  function TrimTrailingSlashes(s: string): (r: string)
    ensures |r| <= |s| && r == s[..|r|]
    ensures r == [] || r[|r| - 1] != '/'
    ensures forall j :: |r| <= j < |s| ==> s[j] == '/'
  {
    if s != [] && s[|s| - 1] == '/' then TrimTrailingSlashes(s[..|s| - 1]) else s
  }

  /** One import: the path without its quotes, and as name the alias if one
      is given, else the last element of the path. */
  function ImportOf(imp: ImportSpec): ImportInfo {
    var path := TrimChar(imp.pathLit, '"');
    match imp.alias
    case Some(a) => ImportInfo(path, a, a)
    case None => ImportInfo(path, "", Base(path))
  }

  function ImportsOf(imps: seq<ImportSpec>): (r: seq<ImportInfo>)
    ensures |r| == |imps|
    ensures forall i :: 0 <= i < |imps| ==> r[i] == ImportOf(imps[i])
  {
    if imps == [] then [] else ImportsOf(imps[..|imps| - 1]) + [ImportOf(imps[|imps| - 1])]
  }

  /** The field entries of a struct: one per name of every named entry. */
  function NamedFieldInfos(names: seq<string>, f: Field): (r: seq<FieldInfo>)
    ensures |r| == |names|
    ensures forall i :: 0 <= i < |names| ==> r[i] == FieldInfoOf(names[i], f)
  {
    if names == [] then []
    else NamedFieldInfos(names[..|names| - 1], f) + [FieldInfoOf(names[|names| - 1], f)]
  }

  function FieldInfoOf(name: string, f: Field): FieldInfo {
    var ty := ExprToString(f.ty);
    FieldInfo(name, ty, match f.tag case Some(t) => TrimChar(t, '`') case None => "", IsExported(name),
              IsPointerType(f.ty), IsSliceType(f.ty), IsMapType(f.ty), IsChanType(f.ty), ContainsGenerics(ty))
  }

  function EmbedOf(f: Field): EmbedInfo {
    EmbedInfo(ExprToString(f.ty), IsPointerType(f.ty), ContainsGenerics(ExprToString(f.ty)))
  }

  function StructFields(fs: seq<Field>): seq<FieldInfo> {
    if fs == [] then []
    else
      var f := fs[|fs| - 1];
      StructFields(fs[..|fs| - 1]) + (if f.names == [] then [] else NamedFieldInfos(f.names, f))
  }

  function StructEmbeds(fs: seq<Field>): seq<EmbedInfo> {
    if fs == [] then []
    else
      var f := fs[|fs| - 1];
      StructEmbeds(fs[..|fs| - 1]) + (if f.names == [] then [EmbedOf(f)] else [])
  }

  function FieldsOf(fl: FieldList): seq<Field> {
    match fl
    case NoList => []
    case List(fs) => fs
  }

  /** The struct a struct type spec records. */
  function StructOf(name: string, fl: FieldList): StructInfo {
    StructInfo(name, "struct", StructFields(FieldsOf(fl)), [], StructEmbeds(FieldsOf(fl)))
  }

  function MethodInfoOf(name: string, sig: FuncSig): MethodInfo {
    MethodInfo(name, ParamsOf(sig.params), ReturnTypeOf(sig.results), IsExported(name), GenericsInFunc(sig))
  }

  /** The methods one interface entry declares: one per name, when its type
      is a function type, and none otherwise. */
  function EntryMethods(names: seq<string>, ty: Expr): seq<MethodInfo> {
    if names == [] || !ty.FuncType? then []
    else EntryMethods(names[..|names| - 1], ty) + [MethodInfoOf(names[|names| - 1], ty.sig)]
  }

  function InterfaceMethods(fs: seq<Field>): seq<MethodInfo> {
    if fs == [] then []
    else InterfaceMethods(fs[..|fs| - 1]) + EntryMethods(fs[|fs| - 1].names, fs[|fs| - 1].ty)
  }

  function InterfaceEmbeds(fs: seq<Field>): seq<string> {
    if fs == [] then []
    else
      var f := fs[|fs| - 1];
      InterfaceEmbeds(fs[..|fs| - 1]) + (if f.names == [] then [ExprToString(f.ty)] else [])
  }

  function InterfaceOf(name: string, fl: FieldList): InterfaceInfo {
    InterfaceInfo(name, "interface", InterfaceMethods(FieldsOf(fl)), InterfaceEmbeds(FieldsOf(fl)))
  }

  /** What the extractor has collected so far. */
  datatype Snapshot = Snapshot(
    imports: seq<ImportInfo>, structs: seq<StructInfo>, interfaces: seq<InterfaceInfo>,
    functions: seq<FunctionInfo>, methods: seq<MethodWithReceiver>, types: seq<TypeInfo>,
    constants: seq<ValueInfo>, variables: seq<ValueInfo>, errors: seq<string>)

  /** `handleTypeSpec`: a struct, an interface, or any other type as an alias. */
  function TypeSpecStep(s: Snapshot, ts: TypeSpec): Snapshot {
    match ts.ty
    case StructType(fl) => s.(structs := s.structs + [StructOf(ts.name, fl)])
    case InterfaceType(fl) => s.(interfaces := s.interfaces + [InterfaceOf(ts.name, fl)])
    case _ => s.(types := s.types + [TypeInfo(ts.name, "alias", ExprToString(ts.ty))])
  }

  /** The receiver of a method: the first receiver entry's first name and its type. */
  function ReceiverOf(recv: seq<Field>): ReceiverInfo {
    if recv == [] then ReceiverInfo("", "")
    else ReceiverInfo(if recv[0].names == [] then "" else recv[0].names[0], ExprToString(recv[0].ty))
  }

  /** `strings.TrimPrefix(s, "*")`. */
  function TrimStar(s: string): (r: string)
    ensures s != [] && s[0] == '*' ==> s == "*" + r
    ensures (s == [] || s[0] != '*') ==> r == s
  {
    if s != [] && s[0] == '*' then s[1..] else s
  }

  /** A pointer receiver `*T` and a value receiver `T` both name the struct `T`. */
  lemma ReceiverTypeName(t: string)
    requires t == [] || t[0] != '*'
    ensures TrimStar(ExprToString(Star(Ident(t)))) == t
    ensures TrimStar(ExprToString(Ident(t))) == t
  {
    assert ExprToString(Star(Ident(t))) == "*" + t;
  }

  /** The method appended to the first struct with the given name; the
      structs are unchanged when there is none. */
  function AttachMethod(structs: seq<StructInfo>, typeName: string, m: MethodInfo): (r: seq<StructInfo>)
    ensures |r| == |structs|
  {
    if structs == [] then []
    else if structs[0].name == typeName then
      [structs[0].(methods := structs[0].methods + [m])] + structs[1..]
    else [structs[0]] + AttachMethod(structs[1..], typeName, m)
  }

  /** `handleFuncDecl`: a method goes to the methods and to its struct, a
      plain function to the functions. */
  function FuncDeclStep(s: Snapshot, fd: FuncDecl): Snapshot {
    match fd.recv
    case List(recv) =>
      var receiver := ReceiverOf(recv);
      var params := ParamsOf(fd.sig.params);
      var returnType := ReturnTypeOf(fd.sig.results);
      var m := MethodWithReceiver(fd.name, receiver, params, returnType, IsExported(fd.name));
      var sm := MethodInfo(fd.name, params, returnType, IsExported(fd.name), GenericsInFunc(fd.sig));
      s.(methods := s.methods + [m], structs := AttachMethod(s.structs, TrimStar(receiver.ty), sm))
    case NoList =>
      s.(functions := s.functions + [FunctionInfo(fd.name, ParamsOf(fd.sig.params),
                                                  ReturnTypeOf(fd.sig.results), IsExported(fd.name))])
  }

  /** The entries of one const or var spec: one per name, with the declared
      type if there is one and the value at the same index if there is one. */
  function ValueEntries(names: seq<string>, ty: Expr, values: seq<Expr>): (r: seq<ValueInfo>)
    ensures |r| == |names|
  {
    if names == [] then []
    else
      var i := |names| - 1;
      ValueEntries(names[..i], ty, values) +
        [ValueInfo(names[i], if ty.Nil? then "" else ExprToString(ty),
                   if i < |values| then ExprToString(values[i]) else "", IsExported(names[i]))]
  }

  function SpecsEntries(specs: seq<Spec>): seq<ValueInfo> {
    if specs == [] then []
    else
      var sp := specs[|specs| - 1];
      SpecsEntries(specs[..|specs| - 1]) +
        (match sp
         case ValueSpec(names, ty, values) => ValueEntries(names, ty, values)
         case OtherSpec => [])
  }

  /** `handleGenDecl`: const and var declarations add their entries. */
  function GenDeclStep(s: Snapshot, gd: GenDecl): Snapshot {
    match gd.tok
    case ConstTok => s.(constants := s.constants + SpecsEntries(gd.specs))
    case VarTok => s.(variables := s.variables + SpecsEntries(gd.specs))
    case _ => s
  }

  function Visit(s: Snapshot, n: Node): Snapshot {
    match n
    case TypeSpecNode(ts) => TypeSpecStep(s, ts)
    case FuncDeclNode(fd) => FuncDeclStep(s, fd)
    case GenDeclNode(gd) => GenDeclStep(s, gd)
    case OtherNode => s
  }

  /** The snapshot after the walk has visited `nodes` in order. */
  function Walk(s: Snapshot, nodes: seq<Node>): Snapshot
    decreases |nodes|
  {
    if nodes == [] then s else Visit(Walk(s, nodes[..|nodes| - 1]), nodes[|nodes| - 1])
  }

  /** The metadata the extractor fills in, as Go's `GoMetadata`. */
  class GoMetadata {
    var path: string
    var packageName: string
    var imports: seq<ImportInfo>
    var structs: seq<StructInfo>
    var interfaces: seq<InterfaceInfo>
    var functions: seq<FunctionInfo>
    var methods: seq<MethodWithReceiver>
    var types: seq<TypeInfo>
    var constants: seq<ValueInfo>
    var variables: seq<ValueInfo>
    var errors: seq<string>

    function Contents(): Snapshot
      reads this
    {
      Snapshot(imports, structs, interfaces, functions, methods, types, constants, variables, errors)
    }

    constructor (path: string, packageName: string)
      ensures this.path == path && this.packageName == packageName
      ensures Contents() == Snapshot([], [], [], [], [], [], [], [], [])
    {
      this.path := path;
      this.packageName := packageName;
      imports := [];
      structs := [];
      interfaces := [];
      functions := [];
      methods := [];
      types := [];
      constants := [];
      variables := [];
      errors := [];
    }

    method HandleTypeSpec(ts: TypeSpec)
      modifies this
      ensures Contents() == TypeSpecStep(old(Contents()), ts)
      ensures path == old(path) && packageName == old(packageName)
    {
      match ts.ty {
        case StructType(fl) =>
          var info := BuildStruct(ts.name, fl);
          structs := structs + [info];
        case InterfaceType(fl) =>
          var info := BuildInterface(ts.name, fl);
          interfaces := interfaces + [info];
        case _ =>
          types := types + [TypeInfo(ts.name, "alias", ExprToString(ts.ty))];
      }
    }

    method HandleFuncDecl(fd: FuncDecl)
      modifies this
      ensures Contents() == FuncDeclStep(old(Contents()), fd)
      ensures path == old(path) && packageName == old(packageName)
    {
      if fd.recv.List? {
        var receiver := ReceiverInfo("", "");
        if |fd.recv.fields| > 0 {
          var recv := fd.recv.fields[0];
          if |recv.names| > 0 {
            receiver := receiver.(name := recv.names[0]);
          }
          receiver := receiver.(ty := ExprToString(recv.ty));
        }
        var params := ExtractParams(fd.sig.params);
        var returnType := ExtractReturnType(fd.sig.results);
        var methodInfo := MethodWithReceiver(fd.name, receiver, params, returnType, IsExported(fd.name));
        methods := methods + [methodInfo];

        var receiverTypeName := TrimStar(receiver.ty);
        var isGeneric := ContainsGenericsInFunc(fd.sig);
        var structMethod := MethodInfo(fd.name, params, returnType, IsExported(fd.name), isGeneric);
        var i := 0;
        while i < |structs|
          invariant 0 <= i <= |structs|
          invariant forall j :: 0 <= j < i ==> structs[j].name != receiverTypeName
          invariant structs == old(structs)
        {
          if structs[i].name == receiverTypeName {
            structs := structs[i := structs[i].(methods := structs[i].methods + [structMethod])];
            AttachAt(old(structs), i, receiverTypeName, structMethod);
            return;
          }
          i := i + 1;
        }
        AttachNone(old(structs), receiverTypeName, structMethod);
      } else {
        var params := ExtractParams(fd.sig.params);
        var returnType := ExtractReturnType(fd.sig.results);
        functions := functions + [FunctionInfo(fd.name, params, returnType, IsExported(fd.name))];
      }
    }

    method HandleGenDecl(gd: GenDecl)
      modifies this
      ensures Contents() == GenDeclStep(old(Contents()), gd)
      ensures path == old(path) && packageName == old(packageName)
    {
      if gd.tok.ConstTok? || gd.tok.VarTok? {
        var entries := CollectSpecs(gd.specs);
        if gd.tok.ConstTok? {
          constants := constants + entries;
        } else {
          variables := variables + entries;
        }
      }
    }
  }

  /** The const or var entries of a declaration's specs, spec by spec. */
  method CollectSpecs(specs: seq<Spec>) returns (entries: seq<ValueInfo>)
    ensures entries == SpecsEntries(specs)
  {
    entries := [];
    for k := 0 to |specs|
      invariant entries == SpecsEntries(specs[..k])
    {
      SpecsStep(specs, k);
      match specs[k] {
        case ValueSpec(names, ty, values) =>
          entries := AppendValueEntries(entries, names, ty, values);
        case OtherSpec =>
      }
    }
    assert specs[..|specs|] == specs;
  }

  /** One value spec: an entry per name, with the type and the value at the same position when present. */
  method AppendValueEntries(start: seq<ValueInfo>, names: seq<string>, ty: Expr, values: seq<Expr>)
    returns (entries: seq<ValueInfo>)
    ensures entries == start + ValueEntries(names, ty, values)
  {
    entries := start;
    for i := 0 to |names|
      invariant entries == start + ValueEntries(names[..i], ty, values)
    {
      ValueEntriesStep(names, i, ty, values);
      var tyText, valueText := "", "";
      if !ty.Nil? {
        tyText := ExprToString(ty);
      }
      if i < |values| {
        valueText := ExprToString(values[i]);
      }
      entries := entries + [ValueInfo(names[i], tyText, valueText, IsExported(names[i]))];
    }
    assert names[..|names|] == names;
  }

  /** A named struct entry: one field per name, all sharing the entry's type and tag. */
  method AppendNamedFields(start: seq<FieldInfo>, field: Field) returns (fields: seq<FieldInfo>)
    ensures fields == start + NamedFieldInfos(field.names, field)
  {
    fields := start;
    for j := 0 to |field.names|
      invariant fields == start + NamedFieldInfos(field.names[..j], field)
    {
      NamedFieldsStep(field.names, j, field);
      fields := fields + [FieldInfoOf(field.names[j], field)];
    }
    assert field.names[..|field.names|] == field.names;
  }

  method BuildStruct(name: string, fl: FieldList) returns (info: StructInfo)
    ensures info == StructOf(name, fl)
  {
    var fs := FieldsOf(fl);
    var fields: seq<FieldInfo> := [];
    var embeds: seq<EmbedInfo> := [];
    for k := 0 to |fs|
      invariant fields == StructFields(fs[..k]) && embeds == StructEmbeds(fs[..k])
    {
      StructStep(fs, k);
      var field := fs[k];
      if |field.names| == 0 {
        embeds := embeds + [EmbedOf(field)];
      } else {
        fields := AppendNamedFields(fields, field);
      }
    }
    assert fs[..|fs|] == fs;
    info := StructInfo(name, "struct", fields, [], embeds);
  }

  /** The interface entry for an interface type: methods from the named
      entries with a function type, embeds from the unnamed ones. */
  method BuildInterface(name: string, fl: FieldList) returns (info: InterfaceInfo)
    ensures info == InterfaceOf(name, fl)
  {
    var fs := FieldsOf(fl);
    var ms: seq<MethodInfo> := [];
    var embeds: seq<string> := [];
    for k := 0 to |fs|
      invariant ms == InterfaceMethods(fs[..k]) && embeds == InterfaceEmbeds(fs[..k])
    {
      assert fs[..k + 1][..k] == fs[..k];
      var entry := fs[k];
      if |entry.names| == 0 {
        embeds := embeds + [ExprToString(entry.ty)];
      } else {
        var start := ms;
        for j := 0 to |entry.names|
          invariant ms == start + EntryMethods(entry.names[..j], entry.ty)
        {
          assert entry.names[..j + 1][..j] == entry.names[..j];
          if entry.ty.FuncType? {
            var params := ExtractParams(entry.ty.sig.params);
            var returnType := ExtractReturnType(entry.ty.sig.results);
            var isGeneric := ContainsGenericsInFunc(entry.ty.sig);
            ms := ms + [MethodInfo(entry.names[j], params, returnType, IsExported(entry.names[j]), isGeneric)];
          }
        }
        assert entry.names[..|entry.names|] == entry.names;
      }
    }
    assert fs[..|fs|] == fs;
    info := InterfaceInfo(name, "interface", ms, embeds);
  }

  /** The first struct with the name gets the method, the others are unchanged. */
  lemma {:induction false} AttachAt(structs: seq<StructInfo>, i: nat, typeName: string, m: MethodInfo)
    requires i < |structs| && structs[i].name == typeName
    requires forall j :: 0 <= j < i ==> structs[j].name != typeName
    ensures AttachMethod(structs, typeName, m) == structs[i := structs[i].(methods := structs[i].methods + [m])]
    decreases i
  {
    if i > 0 {
      AttachAt(structs[1..], i - 1, typeName, m);
    }
  }

  /** Without a struct of that name the method is attached nowhere. */
  lemma {:induction false} AttachNone(structs: seq<StructInfo>, typeName: string, m: MethodInfo)
    requires forall j :: 0 <= j < |structs| ==> structs[j].name != typeName
    ensures AttachMethod(structs, typeName, m) == structs
    decreases |structs|
  {
    if structs != [] {
      AttachNone(structs[1..], typeName, m);
    }
  }

  lemma SpecsStep(specs: seq<Spec>, k: nat)
    requires k < |specs|
    ensures SpecsEntries(specs[..k + 1]) == SpecsEntries(specs[..k]) +
      (match specs[k] case ValueSpec(names, ty, values) => ValueEntries(names, ty, values) case OtherSpec => [])
  {
    assert specs[..k + 1][..k] == specs[..k];
  }

  lemma ValueEntriesStep(names: seq<string>, i: nat, ty: Expr, values: seq<Expr>)
    requires i < |names|
    ensures ValueEntries(names[..i + 1], ty, values) == ValueEntries(names[..i], ty, values) +
      [ValueInfo(names[i], if ty.Nil? then "" else ExprToString(ty),
                 if i < |values| then ExprToString(values[i]) else "", IsExported(names[i]))]
  {
    assert names[..i + 1][..i] == names[..i];
  }

  lemma StructStep(fs: seq<Field>, k: nat)
    requires k < |fs|
    ensures StructFields(fs[..k + 1]) == StructFields(fs[..k]) + (if fs[k].names == [] then [] else NamedFieldInfos(fs[k].names, fs[k]))
    ensures StructEmbeds(fs[..k + 1]) == StructEmbeds(fs[..k]) + (if fs[k].names == [] then [EmbedOf(fs[k])] else [])
  {
    assert fs[..k + 1][..k] == fs[..k];
  }

  lemma NamedFieldsStep(names: seq<string>, j: nat, f: Field)
    requires j < |names|
    ensures NamedFieldInfos(names[..j + 1], f) == NamedFieldInfos(names[..j], f) + [FieldInfoOf(names[j], f)]
  {
    assert names[..j + 1][..j] == names[..j];
  }

  /** Go's `parseGoFile` after parsing: the imports, then the handlers for
      every node the walk visits. */
  method ParseGoFile(filePath: string, file: GoFile) returns (metadata: GoMetadata)
    ensures fresh(metadata)
    ensures metadata.path == filePath && metadata.packageName == file.packageName
    ensures metadata.Contents() == Walk(Snapshot(ImportsOf(file.imports), [], [], [], [], [], [], [], []), file.nodes)
  {
    metadata := new GoMetadata(filePath, file.packageName);
    for k := 0 to |file.imports|
      invariant metadata.path == filePath && metadata.packageName == file.packageName
      invariant metadata.Contents() == Snapshot(ImportsOf(file.imports[..k]), [], [], [], [], [], [], [], [])
    {
      ImportsStep(file.imports, k);
      var imp := file.imports[k];
      var info := ImportInfo(TrimChar(imp.pathLit, '"'), "", "");
      match imp.alias {
        case Some(a) =>
          info := info.(alias := a, name := a);
        case None =>
          info := info.(name := Base(info.path));
      }
      assert info == ImportOf(imp);
      metadata.imports := metadata.imports + [info];
    }
    assert file.imports[..|file.imports|] == file.imports;
    var start := metadata.Contents();
    for k := 0 to |file.nodes|
      invariant metadata.path == filePath && metadata.packageName == file.packageName
      invariant metadata.Contents() == Walk(start, file.nodes[..k])
    {
      WalkStep(start, file.nodes, k);
      match file.nodes[k] {
        case TypeSpecNode(ts) => metadata.HandleTypeSpec(ts);
        case FuncDeclNode(fd) => metadata.HandleFuncDecl(fd);
        case GenDeclNode(gd) => metadata.HandleGenDecl(gd);
        case OtherNode =>
      }
    }
    assert file.nodes[..|file.nodes|] == file.nodes;
  }

  lemma ImportsStep(imps: seq<ImportSpec>, k: nat)
    requires k < |imps|
    ensures ImportsOf(imps[..k + 1]) == ImportsOf(imps[..k]) + [ImportOf(imps[k])]
  {
    assert imps[..k + 1][..k] == imps[..k];
  }

  lemma WalkStep(s: Snapshot, nodes: seq<Node>, k: nat)
    requires k < |nodes|
    ensures Walk(s, nodes[..k + 1]) == Visit(Walk(s, nodes[..k]), nodes[k])
  {
    assert nodes[..k + 1][..k] == nodes[..k];
  }

  /** The attached method lands on the first struct with the receiver's type
      name, and only there; every struct keeps its name, kind, fields and
      embeds. */
  lemma AttachMethodMeans(structs: seq<StructInfo>, typeName: string, m: MethodInfo)
    ensures var r := AttachMethod(structs, typeName, m);
      forall i :: 0 <= i < |structs| ==>
        r[i].name == structs[i].name && r[i].kind == structs[i].kind &&
        r[i].fields == structs[i].fields && r[i].embeds == structs[i].embeds &&
        r[i].methods == (if structs[i].name == typeName && forall j :: 0 <= j < i ==> structs[j].name != typeName
                         then structs[i].methods + [m] else structs[i].methods)
  {
    if i :| 0 <= i < |structs| && structs[i].name == typeName && forall j :: 0 <= j < i ==> structs[j].name != typeName {
      AttachFirstMeans(structs, i, typeName, m);
    } else {
      forall k | 0 <= k < |structs| ensures structs[k].name != typeName {
        if structs[k].name == typeName {
          FirstNamed(structs, typeName, k);
        }
      }
      AttachNone(structs, typeName, m);
    }
  }

  /** With a first struct of the name at `i`, only that struct gains the method. */
  lemma AttachFirstMeans(structs: seq<StructInfo>, i: nat, typeName: string, m: MethodInfo)
    requires i < |structs| && structs[i].name == typeName
    requires forall j :: 0 <= j < i ==> structs[j].name != typeName
    ensures var r := AttachMethod(structs, typeName, m);
      forall k :: 0 <= k < |structs| ==>
        r[k].name == structs[k].name && r[k].kind == structs[k].kind &&
        r[k].fields == structs[k].fields && r[k].embeds == structs[k].embeds &&
        r[k].methods == (if k == i then structs[k].methods + [m] else structs[k].methods)
  {
    AttachAt(structs, i, typeName, m);
  }

  /** A struct with the name at `k` means there is a first one. */
  lemma {:induction false} FirstNamed(structs: seq<StructInfo>, typeName: string, k: nat)
    requires k < |structs| && structs[k].name == typeName
    ensures exists i ::
      0 <= i <= k && structs[i].name == typeName && (forall j :: 0 <= j < i ==> structs[j].name != typeName)
    decreases k
  {
    if exists j :: 0 <= j < k && structs[j].name == typeName {
      var j :| 0 <= j < k && structs[j].name == typeName;
      FirstNamed(structs, typeName, j);
    }
  }

  /** A declaration step only adds: every collection keeps what it held,
      and the structs keep their names and fields. */
  lemma VisitKeeps(s: Snapshot, n: Node)
    ensures var t := Visit(s, n);
      t.imports == s.imports && t.errors == s.errors &&
      StartsWithSeq(t.interfaces, s.interfaces) && StartsWithSeq(t.functions, s.functions) &&
      StartsWithSeq(t.methods, s.methods) && StartsWithSeq(t.types, s.types) &&
      StartsWithSeq(t.constants, s.constants) && StartsWithSeq(t.variables, s.variables) &&
      |s.structs| <= |t.structs| &&
      forall i :: 0 <= i < |s.structs| ==> t.structs[i].name == s.structs[i].name && t.structs[i].fields == s.structs[i].fields
  {
    if n.FuncDeclNode? && n.fd.recv.List? {
      var fd := n.fd;
      var receiver := ReceiverOf(fd.recv.fields);
      var sm := MethodInfo(fd.name, ParamsOf(fd.sig.params), ReturnTypeOf(fd.sig.results), IsExported(fd.name), GenericsInFunc(fd.sig));
      AttachMethodMeans(s.structs, TrimStar(receiver.ty), sm);
    }
  }

  predicate StartsWithSeq<T(==)>(longer: seq<T>, shorter: seq<T>) {
    |shorter| <= |longer| && longer[..|shorter|] == shorter
  }

  /**
   * The whole walk only adds: the imports and errors are untouched, the
   * interfaces, functions, methods, types, constants and variables collected
   * earlier stay in front, and the earlier structs keep their names and
   * fields (they may gain methods).
   */
  lemma {:induction false} WalkKeeps(s: Snapshot, nodes: seq<Node>)
    ensures var t := Walk(s, nodes);
      t.imports == s.imports && t.errors == s.errors &&
      StartsWithSeq(t.interfaces, s.interfaces) && StartsWithSeq(t.types, s.types) &&
      StartsWithSeq(t.functions, s.functions) && StartsWithSeq(t.methods, s.methods) &&
      StartsWithSeq(t.constants, s.constants) && StartsWithSeq(t.variables, s.variables) &&
      |s.structs| <= |t.structs| &&
      forall i :: 0 <= i < |s.structs| ==> t.structs[i].name == s.structs[i].name && t.structs[i].fields == s.structs[i].fields
    decreases |nodes|
  {
    if nodes != [] {
      var mid := Walk(s, nodes[..|nodes| - 1]);
      WalkKeeps(s, nodes[..|nodes| - 1]);
      VisitKeeps(mid, nodes[|nodes| - 1]);
      var t := Walk(s, nodes);
      assert t.interfaces[..|s.interfaces|] == mid.interfaces[..|mid.interfaces|][..|s.interfaces|];
      assert t.types[..|s.types|] == mid.types[..|mid.types|][..|s.types|];
      assert t.functions[..|s.functions|] == mid.functions[..|mid.functions|][..|s.functions|];
      assert t.methods[..|s.methods|] == mid.methods[..|mid.methods|][..|s.methods|];
      assert t.constants[..|s.constants|] == mid.constants[..|mid.constants|][..|s.constants|];
      assert t.variables[..|s.variables|] == mid.variables[..|mid.variables|][..|s.variables|];
    }
  }

  /** Every named entry of a struct gives one field per name and every
      unnamed entry one embed, so together they count the names with an
      unnamed entry counted once. */
  lemma {:induction false} StructEntriesCounted(fs: seq<Field>)
    ensures |StructFields(fs)| + |StructEmbeds(fs)| == ParamCount(fs)
    decreases |fs|
  {
    if fs != [] {
      StructEntriesCounted(fs[..|fs| - 1]);
    }
  }

  /** Every name of a const or var spec gets one entry, in order; the type is
      set only when declared and the value only when one stands at the same
      index. */
  lemma {:induction false} ValueEntriesMeans(names: seq<string>, ty: Expr, values: seq<Expr>)
    ensures var r := ValueEntries(names, ty, values);
      forall i :: 0 <= i < |names| ==>
        r[i].name == names[i] && r[i].exported == IsExported(names[i]) &&
        r[i].ty == (if ty.Nil? then "" else ExprToString(ty)) &&
        r[i].value == (if i < |values| then ExprToString(values[i]) else "")
    decreases |names|
  {
    if names != [] {
      ValueEntriesMeans(names[..|names| - 1], ty, values);
    }
  }

  /** Without an alias, an import is named by the last element of its path:
      text without a slash that ends the path (before any trailing slashes). */
  lemma ImportNamedByLastElement(imp: ImportSpec)
    requires imp.alias.None?
    requires exists i :: 0 <= i < |TrimChar(imp.pathLit, '"')| && TrimChar(imp.pathLit, '"')[i] != '/'
    ensures var info := ImportOf(imp);
      '/' !in info.name && EndsWith(TrimTrailingSlashes(info.path), info.name)
  {
    BaseIsLastElement(TrimChar(imp.pathLit, '"'));
  }

  lemma BaseIsLastElement(path: string)
    requires exists i :: 0 <= i < |path| && path[i] != '/'
    ensures '/' !in Base(path) && EndsWith(TrimTrailingSlashes(path), Base(path))
  {
    TrimmedKeepsElement(path);
    var p := TrimTrailingSlashes(path);
    BaseCases(path);
    LastElementIsSuffix(p);
    var b := Base(path);
    assert '/' !in b;
    assert EndsWith(p, b);
  }

  /** The text after the last slash (all of it when there is none) is a
      slash-free suffix. */
  lemma LastElementIsSuffix(p: string)
    ensures var last := LastIndexOf(p, '/');
      var b := if last.None? then p else p[last.value + 1..];
      '/' !in b && EndsWith(p, b)
  {
    var last := LastIndexOf(p, '/');
    if last.Some? {
      var b := p[last.value + 1..];
      assert p[|p| - |b|..] == b;
    } else {
      assert p[|p| - |p|..] == p;
    }
  }

  /** Trailing slashes are all a path with some other character loses. */
  lemma TrimmedKeepsElement(path: string)
    requires exists i :: 0 <= i < |path| && path[i] != '/'
    ensures TrimTrailingSlashes(path) != []
  {
    var i :| 0 <= i < |path| && path[i] != '/';
    assert i < |TrimTrailingSlashes(path)|;
  }

  /** `filepath.Base` of a path that keeps something once its trailing slashes go. */
  lemma BaseCases(path: string)
    requires TrimTrailingSlashes(path) != []
    ensures var p := TrimTrailingSlashes(path);
      var last := LastIndexOf(p, '/');
      (last.None? ==> Base(path) == p) &&
      (last.Some? ==> last.value + 1 < |p| && Base(path) == p[last.value + 1..])
  {
    var p := TrimTrailingSlashes(path);
    assert p[|p| - 1] != '/';
  }

}
