/**
 * What the Java engine reports for a discovered type: the method metadata
 * it collects and the immutable `DiscoveryResult`.
 */
module JavaResult {
  import opened Text
  import opened JavaSignature

  datatype ParameterMetadata = ParameterMetadata(name: string, paramType: string, varArgs: bool)

  /** A method or constructor; a constructor has no return type. */
  datatype MethodMetadata = MethodMetadata(
    name: string,
    returnType: Option<string>,
    parameters: seq<ParameterMetadata>,
    annotations: seq<string>,
    isStatic: bool,
    isPublic: bool,
    isConstructor: bool)

  datatype DiscoveryResult = DiscoveryResult(
    sigType: SigType,
    className: string,
    packageName: Option<string>,
    filePath: string,
    score: real,
    methods: seq<MethodMetadata>,
    annotations: seq<string>,
    extendsClass: Option<string>,
    implementsInterfaces: seq<string>)

  /** The constructor: null lists become empty, every other argument is kept. */
  function NewResult(
    sigType: SigType, className: string, packageName: Option<string>, filePath: string, score: real,
    methods: Option<seq<MethodMetadata>>, annotations: Option<seq<string>>,
    extendsClass: Option<string>, implementsInterfaces: Option<seq<string>>): (r: DiscoveryResult)
    ensures methods.None? ==> r.methods == []
    ensures methods.Some? ==> r.methods == methods.value
    ensures r.annotations == OrEmpty(annotations)
    ensures r.implementsInterfaces == OrEmpty(implementsInterfaces)
    ensures r.sigType == sigType && r.className == className && r.packageName == packageName
    ensures r.filePath == filePath && r.score == score && r.extendsClass == extendsClass
  {
    DiscoveryResult(sigType, className, packageName, filePath, score,
                    if methods.Some? then methods.value else [], OrEmpty(annotations),
                    extendsClass, OrEmpty(implementsInterfaces))
  }

  /** `package.ClassName`, or the bare class name in the default package. */
  function QualifiedName(r: DiscoveryResult): (q: string)
    ensures r.packageName.None? || r.packageName.value == "" ==> q == r.className
    ensures r.packageName.Some? && r.packageName.value != "" ==>
      |q| == |r.packageName.value| + 1 + |r.className|
      && StartsWith(q, r.packageName.value + ".") && EndsWith(q, r.className)
  {
    if r.packageName.None? || r.packageName.value == "" then r.className
    else r.packageName.value + "." + r.className
  }

  /** The class name and the package are recovered from a qualified name whose class part has no dot. */
  lemma QualifiedNameSplits(r: DiscoveryResult)
    requires r.packageName.Some? && r.packageName.value != ""
    requires '.' !in r.className
    ensures LastIndexOf(QualifiedName(r), '.') == Some(|r.packageName.value|)
    ensures QualifiedName(r)[|r.packageName.value| + 1..] == r.className
    ensures QualifiedName(r)[..|r.packageName.value|] == r.packageName.value
  {
    var p := r.packageName.value;
    var q := QualifiedName(r);
    assert q[|p|] == '.';
    assert q[|p| + 1..] == r.className;
    assert q[..|p|] == p;
  }

  /** The names of the methods, in stored order. */
  function MethodNames(r: DiscoveryResult): (names: seq<string>)
    ensures |names| == |r.methods|
    ensures forall i :: 0 <= i < |names| ==> names[i] == r.methods[i].name
  {
    seq(|r.methods|, i requires 0 <= i < |r.methods| => r.methods[i].name)
  }
}
