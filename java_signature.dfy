/**
 * The Java query type: which kind of declaration is wanted, its name or a
 * name pattern, required methods, package, annotations, superclass and
 * interfaces. A `Builder` collects the settings one call at a time; `Build`
 * freezes them into an immutable `Signature`.
 */
module JavaSignature {
  import opened Text

  datatype SigType = CLASS | INTERFACE | ENUM | RECORD | ANNOTATION | ANY

  /** A compiled regular expression, known by its source text. */
  datatype Pattern = Pattern(source: string)

  /** A built query. Java's `Optional` getters are the `Option` fields. */
  datatype Signature = Signature(
    name: Option<string>,
    namePattern: Option<Pattern>,
    sigType: SigType,
    methods: seq<string>,
    packageName: Option<string>,
    annotations: seq<string>,
    extendsClass: Option<string>,
    implementsInterfaces: seq<string>)

  /** A list argument that may be null. */
  function OrEmpty(list: Option<seq<string>>): (r: seq<string>)
    ensures list.None? ==> r == []
    ensures list.Some? ==> r == list.value
  {
    if list.Some? then list.value else []
  }

  class Builder {
    var name: Option<string>
    var namePattern: Option<Pattern>
    var sigType: SigType
    var methods: Option<seq<string>>
    var packageName: Option<string>
    var annotations: Option<seq<string>>
    var extendsClass: Option<string>
    var implementsInterfaces: Option<seq<string>>

    /** A name and a name pattern are never both set. */
    ghost predicate Valid()
      reads this
    {
      name.None? || namePattern.None?
    }

    constructor ()
      ensures Valid()
      ensures name.None? && namePattern.None? && sigType == CLASS
      ensures methods.None? && packageName.None? && annotations.None?
      ensures extendsClass.None? && implementsInterfaces.None?
    {
      name := None;
      namePattern := None;
      sigType := CLASS;
      methods := None;
      packageName := None;
      annotations := None;
      extendsClass := None;
      implementsInterfaces := None;
    }

    /** Setting a name (even to null) clears the name pattern. */
    method Name(value: Option<string>)
      modifies this
      ensures Valid()
      ensures name == value && namePattern.None?
      ensures sigType == old(sigType) && methods == old(methods) && packageName == old(packageName)
      ensures annotations == old(annotations) && extendsClass == old(extendsClass)
      ensures implementsInterfaces == old(implementsInterfaces)
    {
      name := value;
      namePattern := None;
    }

    /** Setting a name pattern (even to null) clears the name. */
    method NamePattern(pattern: Option<Pattern>)
      modifies this
      ensures Valid()
      ensures name.None? && namePattern == pattern
      ensures sigType == old(sigType) && methods == old(methods) && packageName == old(packageName)
      ensures annotations == old(annotations) && extendsClass == old(extendsClass)
      ensures implementsInterfaces == old(implementsInterfaces)
    {
      name := None;
      namePattern := pattern;
    }

    /** A null type resets the type to CLASS. */
    method Type(value: Option<SigType>)
      requires Valid()
      modifies this
      ensures Valid()
      ensures sigType == (if value.Some? then value.value else CLASS)
      ensures name == old(name) && namePattern == old(namePattern) && methods == old(methods)
      ensures packageName == old(packageName) && annotations == old(annotations)
      ensures extendsClass == old(extendsClass) && implementsInterfaces == old(implementsInterfaces)
    {
      sigType := if value.Some? then value.value else CLASS;
    }

    method Methods(value: Option<seq<string>>)
      requires Valid()
      modifies this
      ensures Valid()
      ensures methods == value
      ensures name == old(name) && namePattern == old(namePattern) && sigType == old(sigType)
      ensures packageName == old(packageName) && annotations == old(annotations)
      ensures extendsClass == old(extendsClass) && implementsInterfaces == old(implementsInterfaces)
    {
      methods := value;
    }

    method PackageName(value: Option<string>)
      requires Valid()
      modifies this
      ensures Valid()
      ensures packageName == value
      ensures name == old(name) && namePattern == old(namePattern) && sigType == old(sigType)
      ensures methods == old(methods) && annotations == old(annotations)
      ensures extendsClass == old(extendsClass) && implementsInterfaces == old(implementsInterfaces)
    {
      packageName := value;
    }

    method Annotations(value: Option<seq<string>>)
      requires Valid()
      modifies this
      ensures Valid()
      ensures annotations == value
      ensures name == old(name) && namePattern == old(namePattern) && sigType == old(sigType)
      ensures methods == old(methods) && packageName == old(packageName)
      ensures extendsClass == old(extendsClass) && implementsInterfaces == old(implementsInterfaces)
    {
      annotations := value;
    }

    method ExtendsClass(value: Option<string>)
      requires Valid()
      modifies this
      ensures Valid()
      ensures extendsClass == value
      ensures name == old(name) && namePattern == old(namePattern) && sigType == old(sigType)
      ensures methods == old(methods) && packageName == old(packageName)
      ensures annotations == old(annotations) && implementsInterfaces == old(implementsInterfaces)
    {
      extendsClass := value;
    }

    method ImplementsInterfaces(value: Option<seq<string>>)
      requires Valid()
      modifies this
      ensures Valid()
      ensures implementsInterfaces == value
      ensures name == old(name) && namePattern == old(namePattern) && sigType == old(sigType)
      ensures methods == old(methods) && packageName == old(packageName)
      ensures annotations == old(annotations) && extendsClass == old(extendsClass)
    {
      implementsInterfaces := value;
    }

    /**
     * The immutable query. Null lists become empty; the lists are values,
     * so later changes to the caller's lists cannot reach it.
     */
    function Build(): (s: Signature)
      reads this
      ensures Valid() ==> !(s.name.Some? && s.namePattern.Some?)
      ensures s.name == name && s.namePattern == namePattern && s.sigType == sigType
      ensures methods.None? ==> s.methods == []
      ensures methods.Some? ==> s.methods == methods.value
      ensures annotations.None? ==> s.annotations == []
      ensures annotations.Some? ==> s.annotations == annotations.value
      ensures implementsInterfaces.None? ==> s.implementsInterfaces == []
      ensures implementsInterfaces.Some? ==> s.implementsInterfaces == implementsInterfaces.value
      ensures s.packageName == packageName && s.extendsClass == extendsClass
    {
      Signature(name, namePattern, sigType, OrEmpty(methods), packageName,
                OrEmpty(annotations), extendsClass, OrEmpty(implementsInterfaces))
    }
  }

  /** A query built from a fresh builder with only a name has the defaults everywhere else. */
  method NamedQuery(n: string) returns (s: Signature)
    ensures s == Signature(Some(n), None, CLASS, [], None, [], None, [])
  {
    var b := new Builder();
    b.Name(Some(n));
    s := b.Build();
  }

  /** The last of a name and a name pattern set wins; the other is cleared. */
  method PatternThenName(p: Pattern, n: string) returns (s: Signature)
    ensures s.name == Some(n) && s.namePattern.None?
  {
    var b := new Builder();
    b.NamePattern(Some(p));
    b.Name(Some(n));
    s := b.Build();
  }
}
