/**
 * The packaged engine's query type: a smaller `Signature` (three kinds of
 * declaration, no interfaces list) whose `Builder` normalises null lists
 * as soon as they are set.
 */
module PkgSignature {
  import opened Text
  import JavaSignature

  datatype PkgType = CLASS | INTERFACE | ANY

  datatype Signature = Signature(
    name: Option<string>,
    namePattern: Option<JavaSignature.Pattern>,
    sigType: PkgType,
    methods: seq<string>,
    packageName: Option<string>,
    annotations: seq<string>,
    extendsClass: Option<string>)

  class Builder {
    var name: Option<string>
    var namePattern: Option<JavaSignature.Pattern>
    var sigType: PkgType
    var methods: seq<string>
    var packageName: Option<string>
    var annotations: seq<string>
    var extendsClass: Option<string>

    /** A name and a name pattern are never both set. */
    ghost predicate Valid()
      reads this
    {
      name.None? || namePattern.None?
    }

    constructor ()
      ensures Valid()
      ensures name.None? && namePattern.None? && sigType == CLASS
      ensures methods == [] && packageName.None? && annotations == [] && extendsClass.None?
    {
      name := None;
      namePattern := None;
      sigType := CLASS;
      methods := [];
      packageName := None;
      annotations := [];
      extendsClass := None;
    }

    /** Setting a name (even to null) clears the name pattern. */
    method Name(value: Option<string>)
      modifies this
      ensures Valid()
      ensures name == value && namePattern.None?
      ensures sigType == old(sigType) && methods == old(methods) && packageName == old(packageName)
      ensures annotations == old(annotations) && extendsClass == old(extendsClass)
    {
      name := value;
      namePattern := None;
    }

    /** Setting a name pattern (even to null) clears the name. */
    method NamePattern(pattern: Option<JavaSignature.Pattern>)
      modifies this
      ensures Valid()
      ensures name.None? && namePattern == pattern
      ensures sigType == old(sigType) && methods == old(methods) && packageName == old(packageName)
      ensures annotations == old(annotations) && extendsClass == old(extendsClass)
    {
      name := None;
      namePattern := pattern;
    }

    /** A null type becomes CLASS. */
    method Type(value: Option<PkgType>)
      requires Valid()
      modifies this
      ensures Valid()
      ensures sigType == (if value.Some? then value.value else CLASS)
      ensures name == old(name) && namePattern == old(namePattern) && methods == old(methods)
      ensures packageName == old(packageName) && annotations == old(annotations) && extendsClass == old(extendsClass)
    {
      sigType := if value.Some? then value.value else CLASS;
    }

    /** A null list becomes empty; otherwise the builder keeps its own copy. */
    method Methods(value: Option<seq<string>>)
      requires Valid()
      modifies this
      ensures Valid()
      ensures methods == JavaSignature.OrEmpty(value)
      ensures name == old(name) && namePattern == old(namePattern) && sigType == old(sigType)
      ensures packageName == old(packageName) && annotations == old(annotations) && extendsClass == old(extendsClass)
    {
      methods := if value.Some? then value.value else [];
    }

    method PackageName(value: Option<string>)
      requires Valid()
      modifies this
      ensures Valid()
      ensures packageName == value
      ensures name == old(name) && namePattern == old(namePattern) && sigType == old(sigType)
      ensures methods == old(methods) && annotations == old(annotations) && extendsClass == old(extendsClass)
    {
      packageName := value;
    }

    /** A null list becomes empty; otherwise the builder keeps its own copy. */
    method Annotations(value: Option<seq<string>>)
      requires Valid()
      modifies this
      ensures Valid()
      ensures annotations == JavaSignature.OrEmpty(value)
      ensures name == old(name) && namePattern == old(namePattern) && sigType == old(sigType)
      ensures methods == old(methods) && packageName == old(packageName) && extendsClass == old(extendsClass)
    {
      annotations := if value.Some? then value.value else [];
    }

    method ExtendsClass(value: Option<string>)
      requires Valid()
      modifies this
      ensures Valid()
      ensures extendsClass == value
      ensures name == old(name) && namePattern == old(namePattern) && sigType == old(sigType)
      ensures methods == old(methods) && packageName == old(packageName) && annotations == old(annotations)
    {
      extendsClass := value;
    }

    /** The immutable query, holding the builder's current settings. */
    function Build(): (s: Signature)
      reads this
      ensures Valid() ==> !(s.name.Some? && s.namePattern.Some?)
      ensures s.name == name && s.namePattern == namePattern && s.sigType == sigType
      ensures s.methods == methods && s.annotations == annotations
      ensures s.packageName == packageName && s.extendsClass == extendsClass
    {
      Signature(name, namePattern, sigType, methods, packageName, annotations, extendsClass)
    }
  }

  /** Null lists and a null type given to a fresh builder leave the defaults in the built query. */
  method NullSettings(n: string) returns (s: Signature)
    ensures s == Signature(Some(n), None, CLASS, [], None, [], None)
  {
    var b := new Builder();
    b.NamePattern(Some(JavaSignature.Pattern(n)));
    b.Name(Some(n));
    b.Type(None);
    b.Methods(None);
    b.Annotations(None);
    s := b.Build();
  }
}
