/**
 * The metadata schema that all three Rust producers fill: nine ordered
 * collections, one per kind of top-level declaration, and their records.
 * Optional values (a function's return type, an impl's trait, a constant's
 * type) are `Option`s, never empty strings.
 */
module RustSchema {
  import opened Text

  datatype FieldInfo = FieldInfo(name: string, ty: string, isPub: bool)

  datatype StructInfo = StructInfo(
    name: string, isPub: bool, generics: seq<string>, fields: seq<FieldInfo>, derives: seq<string>)

  datatype EnumInfo = EnumInfo(
    name: string, isPub: bool, generics: seq<string>, variants: seq<string>, derives: seq<string>)

  datatype TraitInfo = TraitInfo(name: string, isPub: bool, generics: seq<string>, methods: seq<string>)

  datatype ParamInfo = ParamInfo(name: string, ty: string, isMut: bool)

  datatype FunctionInfo = FunctionInfo(
    name: string, isPub: bool, isAsync: bool, isConst: bool, isUnsafe: bool,
    generics: seq<string>, params: seq<ParamInfo>, returnType: Option<string>)

  datatype ImplInfo = ImplInfo(traitName: Option<string>, targetType: string, methods: seq<string>)

  datatype ModuleInfo = ModuleInfo(name: string, isPub: bool)

  datatype ConstantInfo = ConstantInfo(name: string, isPub: bool, ty: Option<string>)

  datatype TypeInfo = TypeInfo(name: string, isPub: bool)

  datatype Metadata = Metadata(
    structs: seq<StructInfo>,
    enums: seq<EnumInfo>,
    traits: seq<TraitInfo>,
    functions: seq<FunctionInfo>,
    impls: seq<ImplInfo>,
    modules: seq<ModuleInfo>,
    uses: seq<string>,
    constants: seq<ConstantInfo>,
    types: seq<TypeInfo>)

  /** `RustMetadata::new`: every collection empty. */
  function New(): (m: Metadata)
    ensures m.structs == [] && m.enums == [] && m.traits == [] && m.functions == []
    ensures m.impls == [] && m.modules == [] && m.uses == [] && m.constants == [] && m.types == []
  {
    Metadata([], [], [], [], [], [], [], [], [])
  }

  /** What the heuristic tiers are allowed to fill: names and flags only. */
  ghost predicate NamesOnly(m: Metadata) {
    (forall i :: 0 <= i < |m.structs| ==>
      m.structs[i].generics == [] && m.structs[i].fields == [] && m.structs[i].derives == []) &&
    (forall i :: 0 <= i < |m.enums| ==>
      m.enums[i].generics == [] && m.enums[i].variants == [] && m.enums[i].derives == []) &&
    (forall i :: 0 <= i < |m.traits| ==> m.traits[i].generics == [] && m.traits[i].methods == []) &&
    (forall i :: 0 <= i < |m.functions| ==>
      m.functions[i].generics == [] && m.functions[i].params == [] && m.functions[i].returnType == None) &&
    (forall i :: 0 <= i < |m.constants| ==> m.constants[i].ty == None) &&
    m.impls == []
  }
}
