/**
 * The syn-based producer of the Rust metadata bridge (`parse_with_syn` and the
 * `extract_*` helpers).
 *
 * The parsed file is given as a tree of items. `syn::parse_file` itself is
 * not modelled: a file that cannot be read or parsed arrives as `Err`. A
 * `syn::Type` carries the text that `quote!` renders for it, which is all
 * `extract_type` ever looks at.
 */
module RustSyn {
  import opened Text
  import opened RustSchema

  datatype Visibility = Public | Crate | Restricted | Inherited

  /** A syn type, known only by its `quote!` rendering. */
  datatype Type = Type(tokens: string)

  datatype PathSegment = PathSegment(ident: string, hasArguments: bool)

  datatype Path = Path(leadingColon: bool, segments: seq<PathSegment>)

  datatype GenericParam = TypeParam(ident: string) | LifetimeParam(lifetime: string) | ConstParam(ident: string, ty: Type)

  datatype Field = Field(ident: Option<string>, ty: Type, vis: Visibility)

  datatype Fields = Named(named: seq<Field>) | Unnamed(unnamed: seq<Field>) | Unit

  datatype NestedMeta = NestedPath(path: Path) | NestedOther

  datatype Meta = MetaPath(path: Path) | MetaList(path: Path, nested: seq<NestedMeta>) | MetaNameValue(path: Path)

  /** An attribute: its path and the result of `parse_meta` (None when that fails). */
  datatype Attribute = Attribute(path: Path, meta: Option<Meta>)

  datatype Pat = PatIdent(ident: string, mutable: bool) | PatOther

  datatype FnArg = Receiver(mutable: bool) | Typed(pat: Pat, ty: Type)

  datatype ReturnType = Default | Returns(ty: Type)

  datatype UseTree =
    | UsePath(ident: string, tree: UseTree)
    | UseName(ident: string)
    | UseRename(ident: string, rename: string)
    | UseGlob
    | UseGroup(items: seq<UseTree>)

  datatype TraitItem = TraitMethod(ident: string) | TraitOther

  datatype ImplItem = ImplMethod(ident: string) | ImplOther

  datatype Signature = Signature(
    ident: string, asyncness: bool, constness: bool, unsafety: bool,
    generics: seq<GenericParam>, inputs: seq<FnArg>, output: ReturnType)

  datatype Item =
    | ItemStruct(attrs: seq<Attribute>, vis: Visibility, ident: string, generics: seq<GenericParam>, fields: Fields)
    | ItemEnum(attrs: seq<Attribute>, vis: Visibility, ident: string, generics: seq<GenericParam>, variants: seq<string>)
    | ItemTrait(vis: Visibility, ident: string, generics: seq<GenericParam>, traitItems: seq<TraitItem>)
    | ItemFn(vis: Visibility, sig: Signature)
    | ItemImpl(trait_: Option<Path>, selfTy: Type, implItems: seq<ImplItem>)
    | ItemMod(vis: Visibility, ident: string)
    | ItemUse(tree: UseTree)
    | ItemConst(vis: Visibility, ident: string, ty: Type)
    | ItemType(vis: Visibility, ident: string)
    | ItemOther

  predicate IsPublic(vis: Visibility) { vis == Public }

  /** `extract_type`: the `quote!` rendering. */
  function ExtractType(t: Type): string { t.tokens }

  /** `Path::get_ident`: the identifier of a path that is exactly one plain segment. */
  function GetIdent(p: Path): (r: Option<string>)
    ensures r.Some? <==> !p.leadingColon && |p.segments| == 1 && !p.segments[0].hasArguments
  {
    if !p.leadingColon && |p.segments| == 1 && !p.segments[0].hasArguments then Some(p.segments[0].ident) else None
  }

  // ---------------------------------------------------------------------
  // The extract_* helpers
  // ---------------------------------------------------------------------

  /** `extract_generics`: the names of the type parameters, in order;
      lifetimes and const parameters are dropped. */
  function ExtractGenerics(ps: seq<GenericParam>): (r: seq<string>)
    ensures |r| <= |ps|
    ensures forall x :: x in r <==> TypeParam(x) in ps
  {
    if ps == [] then []
    else
      var rest := ExtractGenerics(ps[1..]);
      assert ps == [ps[0]] + ps[1..];
      if ps[0].TypeParam? then [ps[0].ident] + rest else rest
  }

  /** The names come one parameter at a time, in the parameters' order. */
  lemma {:induction false} GenericsConcat(a: seq<GenericParam>, b: seq<GenericParam>)
    ensures ExtractGenerics(a + b) == ExtractGenerics(a) + ExtractGenerics(b)
  {
    if a != [] {
      assert (a + b)[0] == a[0] && (a + b)[1..] == a[1..] + b;
      GenericsConcat(a[1..], b);
    } else {
      assert a + b == b;
    }
  }

  /** One parameter gives its name when it is a type parameter and nothing otherwise. */
  lemma GenericsOne(p: GenericParam)
    ensures ExtractGenerics([p]) == if p.TypeParam? then [p.ident] else []
  {
    assert [p][1..] == [];
  }

  function NamedField(f: Field): FieldInfo {
    FieldInfo(match f.ident case Some(i) => i case None => "", ExtractType(f.ty), IsPublic(f.vis))
  }

  function UnnamedFields(fs: seq<Field>, from: nat): (r: seq<FieldInfo>)
    ensures |r| == |fs|
    ensures forall i :: 0 <= i < |fs| ==>
      r[i] == FieldInfo(NatToString(from + i), ExtractType(fs[i].ty), IsPublic(fs[i].vis))
  {
    if fs == [] then []
    else [FieldInfo(NatToString(from), ExtractType(fs[0].ty), IsPublic(fs[0].vis))] + UnnamedFields(fs[1..], from + 1)
  }

  /** `extract_fields`: one record per field, in order; a tuple field is named
      by its position, a named field by its identifier (or "" if it has none). */
  function ExtractFields(fields: Fields): (r: seq<FieldInfo>)
    ensures fields.Unit? ==> r == []
    ensures fields.Named? ==> (|r| == |fields.named| &&
      forall i :: 0 <= i < |r| ==> r[i] == NamedField(fields.named[i]))
    ensures fields.Unnamed? ==> (|r| == |fields.unnamed| &&
      forall i :: 0 <= i < |r| ==>
        r[i] == FieldInfo(NatToString(i), ExtractType(fields.unnamed[i].ty), IsPublic(fields.unnamed[i].vis)))
  {
    match fields
    case Named(fs) => seq(|fs|, i requires 0 <= i < |fs| => NamedField(fs[i]))
    case Unnamed(fs) => UnnamedFields(fs, 0)
    case Unit => []
  }

  /** Tuple fields get pairwise distinct names. */
  lemma UnnamedFieldNamesDistinct(fs: seq<Field>, i: nat, j: nat)
    requires i < j < |fs|
    ensures ExtractFields(Unnamed(fs))[i].name != ExtractFields(Unnamed(fs))[j].name
  {
    if NatToString(i) == NatToString(j) {
      NatToStringInjective(i, j);
    }
  }

  predicate IsDerive(a: Attribute) { GetIdent(a.path) == Some("derive") }

  /** The derive names listed in one attribute's nested metas. */
  function NestedIdents(ns: seq<NestedMeta>): (r: seq<string>)
    ensures forall x :: x in r <==> exists n :: n in ns && n.NestedPath? && GetIdent(n.path) == Some(x)
  {
    if ns == [] then []
    else
      var rest := NestedIdents(ns[1..]);
      assert forall n :: n in ns <==> n == ns[0] || n in ns[1..];
      match ns[0]
      case NestedPath(p) => (match GetIdent(p) case Some(i) => [i] case None => []) + rest
      case NestedOther => rest
  }

  /** The names of one derive list keep their written order and repetitions. */
  lemma {:induction false} NestedIdentsConcat(a: seq<NestedMeta>, b: seq<NestedMeta>)
    ensures NestedIdents(a + b) == NestedIdents(a) + NestedIdents(b)
  {
    if a != [] {
      assert (a + b)[0] == a[0] && (a + b)[1..] == a[1..] + b;
      NestedIdentsConcat(a[1..], b);
    } else {
      assert a + b == b;
    }
  }

  /** One nested meta gives its identifier when it is a plain one-segment path. */
  lemma NestedIdentsOne(n: NestedMeta)
    ensures NestedIdents([n]) == if n.NestedPath? && GetIdent(n.path).Some? then [GetIdent(n.path).value] else []
  {
    assert [n][1..] == [];
  }

  function AttributeDerives(a: Attribute): (r: seq<string>)
    ensures forall x :: x in r <==> Derives(a, x)
  {
    if IsDerive(a) && a.meta.Some? && a.meta.value.MetaList? then NestedIdents(a.meta.value.nested) else []
  }

  /** `x` is named as a plain path inside a `#[derive(...)]` list of `a`. */
  ghost predicate Derives(a: Attribute, x: string) {
    IsDerive(a) && a.meta.Some? && a.meta.value.MetaList? &&
    exists n :: n in a.meta.value.nested && n.NestedPath? && GetIdent(n.path) == Some(x)
  }

  /** `extract_derives`: the plain names listed in `#[derive(...)]` attributes,
      attribute by attribute; other attributes and unparsable ones add nothing. */
  function ExtractDerives(attrs: seq<Attribute>): (r: seq<string>)
    ensures forall x :: x in r <==> exists a :: a in attrs && Derives(a, x)
  {
    if attrs == [] then []
    else
      assert forall a :: a in attrs <==> a == attrs[0] || a in attrs[1..];
      AttributeDerives(attrs[0]) + ExtractDerives(attrs[1..])
  }

  /** The derives come attribute by attribute, in the attributes' order, repetitions kept. */
  lemma {:induction false} DerivesConcat(a: seq<Attribute>, b: seq<Attribute>)
    ensures ExtractDerives(a + b) == ExtractDerives(a) + ExtractDerives(b)
  {
    if a != [] {
      assert (a + b)[0] == a[0] && (a + b)[1..] == a[1..] + b;
      DerivesConcat(a[1..], b);
    } else {
      assert a + b == b;
    }
  }

  /** One attribute gives its own derive list, and nothing unless it is a parsable `derive`. */
  lemma DerivesOne(a: Attribute)
    ensures ExtractDerives([a]) == AttributeDerives(a)
    ensures !(IsDerive(a) && a.meta.Some? && a.meta.value.MetaList?) ==> ExtractDerives([a]) == []
  {
    assert [a][1..] == [];
  }

  /** `extract_params`: the typed arguments bound to a plain identifier;
      `self` receivers and pattern arguments are dropped. */
  function ExtractParams(inputs: seq<FnArg>): (r: seq<ParamInfo>)
    ensures |r| <= |inputs|
    ensures forall p :: p in r <==>
      exists t :: Typed(PatIdent(p.name, p.isMut), t) in inputs && ExtractType(t) == p.ty
  {
    if inputs == [] then []
    else
      var rest := ExtractParams(inputs[1..]);
      assert forall a :: a in inputs <==> a == inputs[0] || a in inputs[1..];
      match inputs[0]
      case Typed(PatIdent(name, mutable), t) => [ParamInfo(name, ExtractType(t), mutable)] + rest
      case _ => rest
  }

  /** The parameters come argument by argument, in the arguments' order. */
  lemma {:induction false} ParamsConcat(a: seq<FnArg>, b: seq<FnArg>)
    ensures ExtractParams(a + b) == ExtractParams(a) + ExtractParams(b)
  {
    if a != [] {
      assert (a + b)[0] == a[0] && (a + b)[1..] == a[1..] + b;
      ParamsConcat(a[1..], b);
    } else {
      assert a + b == b;
    }
  }

  /** One argument gives one parameter when it is typed and bound to a plain identifier, and none otherwise. */
  lemma ParamsOne(arg: FnArg)
    ensures ExtractParams([arg]) ==
      if arg.Typed? && arg.pat.PatIdent? then [ParamInfo(arg.pat.ident, ExtractType(arg.ty), arg.pat.mutable)] else []
  {
    assert [arg][1..] == [];
  }

  /** `extract_return_type`: absent exactly for the default `()` return. */
  function ExtractReturnType(output: ReturnType): (r: Option<string>)
    ensures r.None? <==> output.Default?
  {
    match output
    case Default => None
    case Returns(t) => Some(ExtractType(t))
  }

  /** `extract_use_path`. It never fails, so every `use` item yields one path;
      the `?` of the path case and the `filter_map` of the group case never
      drop anything, and are written here as taking the present value. */
  function ExtractUsePath(tree: UseTree): (r: Option<string>)
    ensures r.Some?
    decreases tree
  {
    match tree
    case UsePath(ident, sub) => Some(ident + "::" + ExtractUsePath(sub).value)
    case UseName(ident) => Some(ident)
    case UseRename(ident, rename) => Some(ident + " as " + rename)
    case UseGlob => Some("*")
    case UseGroup(items) => Some("{" + Join(UsePaths(items), ", ") + "}")
  }

  /** The `filter_map` over a group's items. */
  function UsePaths(items: seq<UseTree>): (r: seq<string>)
    ensures |r| == |items|
    ensures forall i :: 0 <= i < |items| ==> Some(r[i]) == ExtractUsePath(items[i])
    decreases items
  {
    if items == [] then []
    else [ExtractUsePath(items[0]).value] + UsePaths(items[1..])
  }

  /** A group of one item renders as that item in braces, and the empty group as `{}`. */
  lemma UseGroupShapes(t: UseTree)
    ensures ExtractUsePath(UseGroup([])) == Some("{}")
    ensures ExtractUsePath(UseGroup([t])) == Some("{" + ExtractUsePath(t).value + "}")
  {
    assert "{" + "" + "}" == "{}";
    assert UsePaths([t]) == [ExtractUsePath(t).value];
  }

  /** A nested path renders as its prefix segments joined by `::` before the leaf. */
  lemma UsePathNests(a: string, b: string, leaf: UseTree)
    ensures ExtractUsePath(UsePath(a, UsePath(b, leaf))) == Some(a + "::" + b + "::" + ExtractUsePath(leaf).value)
  {
    var l := ExtractUsePath(leaf).value;
    assert a + "::" + (b + "::" + l) == a + "::" + b + "::" + l;
  }

  /** A rename is written `name as alias` and a glob `*`, each after its path. */
  lemma RenameAndGlob(prefix: string, ident: string, rename: string)
    ensures ExtractUsePath(UsePath(prefix, UseRename(ident, rename))) == Some(prefix + "::" + ident + " as " + rename)
    ensures ExtractUsePath(UsePath(prefix, UseGlob)) == Some(prefix + "::*")
  {
    assert prefix + "::" + (ident + " as " + rename) == prefix + "::" + ident + " as " + rename;
    assert prefix + "::" + "*" == prefix + "::*";
  }

  // ---------------------------------------------------------------------
  // One record per item
  // ---------------------------------------------------------------------

  function StructOf(attrs: seq<Attribute>, vis: Visibility, ident: string, gs: seq<GenericParam>, fields: Fields): StructInfo {
    StructInfo(ident, IsPublic(vis), ExtractGenerics(gs), ExtractFields(fields), ExtractDerives(attrs))
  }

  function EnumOf(attrs: seq<Attribute>, vis: Visibility, ident: string, gs: seq<GenericParam>, variants: seq<string>): EnumInfo {
    EnumInfo(ident, IsPublic(vis), ExtractGenerics(gs), variants, ExtractDerives(attrs))
  }

  function TraitMethods(items: seq<TraitItem>): (r: seq<string>)
    ensures forall x :: x in r <==> TraitMethod(x) in items
  {
    if items == [] then []
    else
      assert forall a :: a in items <==> a == items[0] || a in items[1..];
      (if items[0].TraitMethod? then [items[0].ident] else []) + TraitMethods(items[1..])
  }

  function ImplMethods(items: seq<ImplItem>): (r: seq<string>)
    ensures forall x :: x in r <==> ImplMethod(x) in items
  {
    if items == [] then []
    else
      assert forall a :: a in items <==> a == items[0] || a in items[1..];
      (if items[0].ImplMethod? then [items[0].ident] else []) + ImplMethods(items[1..])
  }

  function FunctionOf(vis: Visibility, sig: Signature): FunctionInfo {
    FunctionInfo(sig.ident, IsPublic(vis), sig.asyncness, sig.constness, sig.unsafety,
      ExtractGenerics(sig.generics), ExtractParams(sig.inputs), ExtractReturnType(sig.output))
  }

  /** The implemented trait's last path segment, or "" for an empty path. */
  function TraitNameOf(p: Path): string {
    if p.segments == [] then "" else p.segments[|p.segments| - 1].ident
  }

  function ImplOf(trait_: Option<Path>, selfTy: Type, items: seq<ImplItem>): ImplInfo {
    ImplInfo(match trait_ case Some(p) => Some(TraitNameOf(p)) case None => None, ExtractType(selfTy), ImplMethods(items))
  }

  /** The record `parse_with_syn` pushes for one item. */
  function AddItem(m: Metadata, item: Item): Metadata {
    match item
    case ItemStruct(attrs, vis, ident, gs, fields) => m.(structs := m.structs + [StructOf(attrs, vis, ident, gs, fields)])
    case ItemEnum(attrs, vis, ident, gs, vs) => m.(enums := m.enums + [EnumOf(attrs, vis, ident, gs, vs)])
    case ItemTrait(vis, ident, gs, items) =>
      m.(traits := m.traits + [TraitInfo(ident, IsPublic(vis), ExtractGenerics(gs), TraitMethods(items))])
    case ItemFn(vis, sig) => m.(functions := m.functions + [FunctionOf(vis, sig)])
    case ItemImpl(tr, selfTy, items) => m.(impls := m.impls + [ImplOf(tr, selfTy, items)])
    case ItemMod(vis, ident) => m.(modules := m.modules + [ModuleInfo(ident, IsPublic(vis))])
    case ItemUse(tree) => m.(uses := m.uses + [ExtractUsePath(tree).value])
    case ItemConst(vis, ident, ty) => m.(constants := m.constants + [ConstantInfo(ident, IsPublic(vis), Some(ExtractType(ty)))])
    case ItemType(vis, ident) => m.(types := m.types + [TypeInfo(ident, IsPublic(vis))])
    case ItemOther => m
  }

  /** The metadata of a whole file: the items' records in file order. */
  function FromItems(items: seq<Item>): Metadata
  {
    if items == [] then New() else AddItem(FromItems(items[..|items| - 1]), items[|items| - 1])
  }

  /** `parse_with_syn`: a read or parse error is passed on; otherwise every
      item is visited once, in order. */
  method ParseWithSyn(parsed: Result<seq<Item>, string>) returns (r: Result<Metadata, string>)
    ensures parsed.Err? ==> r == Err(parsed.error)
    ensures parsed.Ok? ==> r == Ok(FromItems(parsed.value))
  {
    if parsed.Err? {
      return Err(parsed.error);
    }
    var items := parsed.value;
    var metadata := New();
    for i := 0 to |items|
      invariant metadata == FromItems(items[..i])
    {
      assert items[..i + 1][..i] == items[..i];
      match items[i]
      case ItemStruct(attrs, vis, ident, gs, fields) =>
        metadata := metadata.(structs := metadata.structs + [StructOf(attrs, vis, ident, gs, fields)]);
      case ItemEnum(attrs, vis, ident, gs, vs) =>
        metadata := metadata.(enums := metadata.enums + [EnumOf(attrs, vis, ident, gs, vs)]);
      case ItemTrait(vis, ident, gs, tItems) =>
        metadata := metadata.(traits := metadata.traits + [TraitInfo(ident, IsPublic(vis), ExtractGenerics(gs), TraitMethods(tItems))]);
      case ItemFn(vis, sig) =>
        metadata := metadata.(functions := metadata.functions + [FunctionOf(vis, sig)]);
      case ItemImpl(tr, selfTy, iItems) =>
        metadata := metadata.(impls := metadata.impls + [ImplOf(tr, selfTy, iItems)]);
      case ItemMod(vis, ident) =>
        metadata := metadata.(modules := metadata.modules + [ModuleInfo(ident, IsPublic(vis))]);
      case ItemUse(tree) =>
        metadata := metadata.(uses := metadata.uses + [ExtractUsePath(tree).value]);
      case ItemConst(vis, ident, ty) =>
        metadata := metadata.(constants := metadata.constants + [ConstantInfo(ident, IsPublic(vis), Some(ExtractType(ty)))]);
      case ItemType(vis, ident) =>
        metadata := metadata.(types := metadata.types + [TypeInfo(ident, IsPublic(vis))]);
      case ItemOther =>
    }
    assert items[..|items|] == items;
    return Ok(metadata);
  }

  // ---------------------------------------------------------------------
  // Properties of the syn tier
  // ---------------------------------------------------------------------

  /** Collection-wise concatenation of two metadata values. */
  function Concat(a: Metadata, b: Metadata): Metadata {
    Metadata(a.structs + b.structs, a.enums + b.enums, a.traits + b.traits, a.functions + b.functions,
      a.impls + b.impls, a.modules + b.modules, a.uses + b.uses, a.constants + b.constants, a.types + b.types)
  }

  lemma AddItemConcat(m1: Metadata, m2: Metadata, item: Item)
    ensures AddItem(Concat(m1, m2), item) == Concat(m1, AddItem(m2, item))
  {
    match item
    case ItemStruct(_, _, _, _, _) =>
    case ItemEnum(_, _, _, _, _) =>
    case ItemTrait(_, _, _, _) =>
    case ItemFn(_, _) =>
    case ItemImpl(_, _, _) =>
    case ItemMod(_, _) =>
    case ItemUse(_) =>
    case ItemConst(_, _, _) =>
    case ItemType(_, _) =>
    case ItemOther =>
  }

  /** Items are processed independently: the metadata of a file split in two is
      the two halves' metadata, collection by collection, in order. */
  lemma {:induction false} FromItemsConcat(a: seq<Item>, b: seq<Item>)
    ensures FromItems(a + b) == Concat(FromItems(a), FromItems(b))
    decreases |b|
  {
    if b == [] {
      assert a + b == a;
      var m := FromItems(a);
      assert m.structs + [] == m.structs && m.enums + [] == m.enums && m.traits + [] == m.traits;
      assert m.functions + [] == m.functions && m.impls + [] == m.impls && m.modules + [] == m.modules;
      assert m.uses + [] == m.uses && m.constants + [] == m.constants && m.types + [] == m.types;
    } else {
      var b' := b[..|b| - 1];
      assert (a + b)[..|a + b| - 1] == a + b';
      assert (a + b)[|a + b| - 1] == b[|b| - 1];
      FromItemsConcat(a, b');
      AddItemConcat(FromItems(a), FromItems(b'), b[|b| - 1]);
    }
  }

  /** Number of records in all nine collections. */
  function Size(m: Metadata): nat {
    |m.structs| + |m.enums| + |m.traits| + |m.functions| + |m.impls| + |m.modules| + |m.uses| + |m.constants| + |m.types|
  }

  /** Number of items of a kind the producer records (all but the `_` arm). */
  function Recorded(items: seq<Item>): nat {
    if items == [] then 0
    else Recorded(items[..|items| - 1]) + (if items[|items| - 1].ItemOther? then 0 else 1)
  }

  lemma AddItemSize(m: Metadata, item: Item)
    ensures Size(AddItem(m, item)) == Size(m) + (if item.ItemOther? then 0 else 1)
  {
  }

  /** Every struct, enum, trait, fn, impl, mod, use, const and type item adds
      exactly one record: none is dropped, including `use` items, since
      `extract_use_path` always succeeds. */
  lemma {:induction false} EveryItemRecorded(items: seq<Item>)
    ensures Size(FromItems(items)) == Recorded(items)
    decreases |items|
  {
    if items != [] {
      EveryItemRecorded(items[..|items| - 1]);
      AddItemSize(FromItems(items[..|items| - 1]), items[|items| - 1]);
    }
  }

  /** Unlike the heuristic tiers, the syn tier always records a constant's type. */
  lemma {:induction false} ConstantsTyped(items: seq<Item>)
    ensures forall i :: 0 <= i < |FromItems(items).constants| ==> FromItems(items).constants[i].ty.Some?
    decreases |items|
  {
    if items != [] {
      ConstantsTyped(items[..|items| - 1]);
    }
  }
}
