/**
 * The Java scoring engine: integer points for the name, the declaration
 * kind, the file path, the package, the required methods, annotations,
 * superclass and interfaces, summed once the name and the kind are
 * acceptable. Name-pattern search is a parameter.
 */
module JavaScoring {
  import opened Text
  import opened JavaSignature
  import opened JavaResult

  /** A type declaration found by the parser. */
  datatype Candidate = Candidate(
    sigType: SigType,
    className: string,
    packageName: Option<string>,
    filePath: string,
    methods: seq<MethodMetadata>,
    annotations: seq<string>,
    extendsClass: Option<string>,
    implementsInterfaces: seq<string>)

  /** `pattern.matcher(text).find()`. */
  type Find = (Pattern, string) -> bool

  // ---------------------------------------------------------------------
  // Kind
  // ---------------------------------------------------------------------

  /** ANY accepts everything, equal kinds match, and a record stands in for a class. */
  predicate TypeCompatible(desired: SigType, candidate: SigType) {
    desired == ANY || desired == candidate || (desired == CLASS && candidate == RECORD)
  }

  function TypeScore(candidate: SigType, desired: SigType): int {
    if desired == ANY then 0
    else if candidate == desired then 12
    else if desired == CLASS && candidate == RECORD then 8
    else -20
  }

  /** The penalty of -20 is exactly the incompatible case, so a scored candidate never receives it. */
  lemma TypeScoreAfterCheck(candidate: SigType, desired: SigType)
    ensures TypeCompatible(desired, candidate) <==> TypeScore(candidate, desired) != -20
    ensures TypeCompatible(desired, candidate) ==> TypeScore(candidate, desired) in {0, 12, 8}
  {
  }

  // ---------------------------------------------------------------------
  // Path, name and package
  // ---------------------------------------------------------------------

  /** Backslashes turned into slashes (`replace('\\', '/')`). */
  function Slashes(s: string): (r: string)
    ensures |r| == |s|
    ensures forall i :: 0 <= i < |s| ==> r[i] == (if s[i] == '\\' then '/' else s[i])
  {
    seq(|s|, i requires 0 <= i < |s| => if s[i] == '\\' then '/' else s[i])
  }

  function NormalizedPath(path: string): string {
    Lower(Slashes(path))
  }

  /** +10 under `/src/main/java/`, +5 under `/core/`, +2 under `/service`. */
  function PathScore(path: string): (r: int)
    ensures 0 <= r <= 17
  {
    var n := NormalizedPath(path);
    (if Contains(n, "/src/main/java/") then 10 else 0)
    + (if Contains(n, "/core/") then 5 else 0)
    + (if Contains(n, "/service") then 2 else 0)
  }

  /** Each path bonus can be read back from the total. */
  lemma PathScoreDecodes(path: string)
    ensures PathScore(path) >= 10 <==> Contains(NormalizedPath(path), "/src/main/java/")
    ensures PathScore(path) % 10 >= 5 <==> Contains(NormalizedPath(path), "/core/")
    ensures PathScore(path) % 5 == 2 <==> Contains(NormalizedPath(path), "/service")
  {
  }

  /** A pattern hit 20; otherwise no name 5, equal ignoring case 25, containing 10, else 0. */
  function NameScore(candidateName: string, sig: Signature, find: Find): int {
    if sig.namePattern.Some? then
      (if find(sig.namePattern.value, candidateName) then 20 else 0)
    else if sig.name.None? then 5
    else
      var lower := Lower(candidateName);
      var expected := Lower(sig.name.value);
      if lower == expected then 25
      else if Contains(lower, expected) then 10
      else 0
  }

  /** A plain name scores exactly when it occurs, ignoring case, in the candidate's name. */
  lemma NameScoreMeans(candidateName: string, sig: Signature, find: Find)
    requires sig.namePattern.None? && sig.name.Some?
    ensures NameScore(candidateName, sig, find) > 0 <==> Contains(Lower(candidateName), Lower(sig.name.value))
    ensures NameScore(candidateName, sig, find) == 25 <==> Lower(candidateName) == Lower(sig.name.value)
    ensures NameScore(Lower(candidateName), sig, find) == NameScore(candidateName, sig, find)
  {
    var lower := Lower(candidateName);
    if lower == Lower(sig.name.value) {
      PrefixContained(lower, lower);
    }
    LowerIdempotent(candidateName);
  }

  function PackageScore(packageName: Option<string>, sig: Signature): (r: int)
    ensures r == 10 <==> sig.packageName.Some? && packageName == sig.packageName
    ensures r == 0 || r == 10
  {
    if sig.packageName.None? || packageName.None? then 0
    else if packageName.value == sig.packageName.value then 10 else 0
  }

  // ---------------------------------------------------------------------
  // Required methods, annotations, superclass and interfaces
  // ---------------------------------------------------------------------

  /** How many of `required`, after `norm`, lie in `have`. */
  function Hits(required: seq<string>, have: set<string>, norm: string -> string): (n: nat)
    ensures n <= |required|
    ensures n == |required| <==> forall i :: 0 <= i < |required| ==> norm(required[i]) in have
    ensures n == 0 <==> forall i :: 0 <= i < |required| ==> norm(required[i]) !in have
  {
    if required == [] then 0
    else
      var init := required[..|required| - 1];
      assert forall i :: 0 <= i < |init| ==> init[i] == required[i];
      Hits(init, have, norm) + (if norm(required[|required| - 1]) in have then 1 else 0)
  }

  /** The candidate's method names, lower-cased, as a set. */
  function MethodNameSet(methods: seq<MethodMetadata>): set<string> {
    set i | 0 <= i < |methods| :: Lower(methods[i].name)
  }

  function LowerName(s: string): string { Lower(s) }

  /** None required 0, all 18, none -12, otherwise 4 per hit. */
  function MethodScoreOf(candidateMethods: seq<MethodMetadata>, required: seq<string>): int {
    if required == [] then 0
    else
      var hits := Hits(required, MethodNameSet(candidateMethods), LowerName);
      if hits == |required| then 18 else if hits == 0 then -12 else hits * 4
  }

  /** `normalizeAnnotation`: drop one `@`, keep the part after the last dot unless it is last, lower-case. */
  function NormalizeAnnotation(value: Option<string>): string {
    if value.None? then ""
    else
      var v := value.value;
      var s := if StartsWith(v, "@") then v[1..] else v;
      var lastDot := LastIndexOf(s, '.');
      Lower(if lastDot.Some? && lastDot.value < |s| - 1 then s[lastDot.value + 1..] else s)
  }

  /** `normalizeTypeName`: cut at the first `<`, then the same last-dot rule, lower-cased. */
  function NormalizeTypeName(value: Option<string>): string {
    if value.None? then ""
    else
      var v := value.value;
      var generic := IndexOf(v, '<');
      var s := if generic.Some? then v[..generic.value] else v;
      var lastDot := LastIndexOf(s, '.');
      Lower(if lastDot.Some? && lastDot.value < |s| - 1 then s[lastDot.value + 1..] else s)
  }

  function AnnotationKey(s: string): string { NormalizeAnnotation(Some(s)) }

  function TypeKey(s: string): string { NormalizeTypeName(Some(s)) }

  function AnnotationSet(annotations: seq<string>): set<string> {
    set i | 0 <= i < |annotations| :: AnnotationKey(annotations[i])
  }

  function TypeSet(types: seq<string>): set<string> {
    set i | 0 <= i < |types| :: TypeKey(types[i])
  }

  /** None required 0, no match -5, otherwise 6 per match. */
  function AnnotationScoreOf(candidate: seq<string>, required: seq<string>): int {
    if required == [] then 0
    else
      var matches := Hits(required, AnnotationSet(candidate), AnnotationKey);
      if matches == 0 then -5 else matches * 6
  }

  /** None required 0, no match -6, otherwise 5 per match. */
  function ImplementsScoreOf(candidate: seq<string>, required: seq<string>): int {
    if required == [] then 0
    else
      var matches := Hits(required, TypeSet(candidate), TypeKey);
      if matches == 0 then -6 else matches * 5
  }

  /** Nothing required 0; the same normalised name 12; otherwise, also without a superclass, -5. */
  function ExtendsScore(candidate: Option<string>, required: Option<string>): (r: int)
    ensures required.None? ==> r == 0
    ensures required.Some? ==> (r == 12 <==> candidate.Some? && NormalizeTypeName(candidate) == NormalizeTypeName(required))
    ensures required.Some? && r != 12 ==> r == -5
  {
    if required.None? then 0
    else if candidate.None? then -5
    else if NormalizeTypeName(candidate) == NormalizeTypeName(required) then 12 else -5
  }

  /** The possible method scores. */
  lemma MethodScoreRange(candidateMethods: seq<MethodMetadata>, required: seq<string>)
    ensures required == [] ==> MethodScoreOf(candidateMethods, required) == 0
    ensures required != [] && (forall i :: 0 <= i < |required| ==> Lower(required[i]) in MethodNameSet(candidateMethods))
      ==> MethodScoreOf(candidateMethods, required) == 18
    ensures required != [] && (forall i :: 0 <= i < |required| ==> Lower(required[i]) !in MethodNameSet(candidateMethods))
      ==> MethodScoreOf(candidateMethods, required) == -12
    ensures -12 <= MethodScoreOf(candidateMethods, required)
    ensures MethodScoreOf(candidateMethods, required) <= 18 || MethodScoreOf(candidateMethods, required) <= 4 * (|required| - 1)
  {
    var hits := Hits(required, MethodNameSet(candidateMethods), LowerName);
    assert (forall i :: 0 <= i < |required| ==> Lower(required[i]) in MethodNameSet(candidateMethods))
      ==> hits == |required|;
    assert (forall i :: 0 <= i < |required| ==> Lower(required[i]) !in MethodNameSet(candidateMethods))
      ==> hits == 0;
  }

  /**
   * The partial-match rate of 4 per hit is not capped by the 18 of a full
   * match: with six or more required methods, missing exactly one scores
   * more than having them all.
   */
  lemma PartialMethodsCanOutscoreFull(candidateMethods: seq<MethodMetadata>, required: seq<string>)
    requires |required| >= 6
    requires Hits(required, MethodNameSet(candidateMethods), LowerName) == |required| - 1
    ensures MethodScoreOf(candidateMethods, required) == 4 * (|required| - 1) > 18
  {
  }

  /**
   * The possible annotation scores: 0 when nothing is required, -5 exactly
   * when no required annotation is found, and otherwise 6 per match.
   */
  lemma AnnotationScoreRange(candidate: seq<string>, required: seq<string>)
    ensures required == [] ==> AnnotationScoreOf(candidate, required) == 0
    ensures required != [] ==>
      (AnnotationScoreOf(candidate, required) == -5 <==>
       forall i :: 0 <= i < |required| ==> AnnotationKey(required[i]) !in AnnotationSet(candidate))
    ensures required != [] && AnnotationScoreOf(candidate, required) != -5 ==>
      6 <= AnnotationScoreOf(candidate, required) <= 6 * |required|
  {
    var matches := Hits(required, AnnotationSet(candidate), AnnotationKey);
    assert matches <= |required|;
  }

  /**
   * The possible interface scores: 0 when nothing is required, -6 exactly
   * when no required interface is found, and otherwise 5 per match.
   */
  lemma ImplementsScoreRange(candidate: seq<string>, required: seq<string>)
    ensures required == [] ==> ImplementsScoreOf(candidate, required) == 0
    ensures required != [] ==>
      (ImplementsScoreOf(candidate, required) == -6 <==>
       forall i :: 0 <= i < |required| ==> TypeKey(required[i]) !in TypeSet(candidate))
    ensures required != [] && ImplementsScoreOf(candidate, required) != -6 ==>
      5 <= ImplementsScoreOf(candidate, required) <= 5 * |required|
  {
    var matches := Hits(required, TypeSet(candidate), TypeKey);
    assert matches <= |required|;
  }

  /** Method names match regardless of letter case on either side. */
  lemma MethodMatchIgnoresCase(m: MethodMetadata, required: string)
    requires Lower(m.name) == Lower(required)
    ensures MethodScoreOf([m], [required]) == 18
  {
    assert [m][0] == m;
    assert Lower(m.name) in MethodNameSet([m]);
    assert Hits([required], MethodNameSet([m]), LowerName) == 1 by {
      assert [required][..0] == [];
    }
  }

  /** In `pkg.simple`, the last dot is the one before `simple`. */
  lemma LastDotBeforeSimple(pkg: string, simple: string)
    requires '.' !in simple
    ensures var q := pkg + "." + simple;
            LastIndexOf(q, '.') == Some(|pkg|) && q[|pkg| + 1..] == simple
  {
    var q := pkg + "." + simple;
    assert q[|pkg|] == '.';
    assert q[|pkg| + 1..] == simple;
  }

  /** An annotation written `@pkg.Name` normalises to the simple name. */
  lemma QualifiedAnnotation(pkg: string, simple: string)
    requires simple != [] && '.' !in simple
    ensures NormalizeAnnotation(Some("@" + (pkg + "." + simple))) == Lower(simple)
  {
    var q := pkg + "." + simple;
    assert ("@" + q)[1..] == q;
    LastDotBeforeSimple(pkg, simple);
  }

  /** `@Name` and `Name` normalise alike. */
  lemma AtSignDropped(simple: string)
    requires '.' !in simple && !StartsWith(simple, "@")
    ensures NormalizeAnnotation(Some("@" + simple)) == Lower(simple)
    ensures NormalizeAnnotation(Some(simple)) == Lower(simple)
  {
    assert ("@" + simple)[1..] == simple;
  }

  /** A qualified, generic type name normalises to its simple name. */
  lemma TypeNameFormsAgree(pkg: string, simple: string, args: string)
    requires simple != [] && '.' !in simple && '<' !in simple && '<' !in pkg
    ensures NormalizeTypeName(Some((pkg + "." + simple) + "<" + args)) == Lower(simple)
  {
    var q := pkg + "." + simple;
    var v := q + "<" + args;
    assert v[..|q|] == q;
    assert IndexOf(v, '<') == Some(|q|) by {
      assert v[|q|] == '<';
    }
    LastDotBeforeSimple(pkg, simple);
  }

  lemma SimpleTypeName(simple: string)
    requires '.' !in simple && '<' !in simple
    ensures NormalizeTypeName(Some(simple)) == Lower(simple)
  {
  }

  // ---------------------------------------------------------------------
  // The counting loops and the total
  // ---------------------------------------------------------------------

  /** The loop shared by the three list scores: count required entries found after `norm`. */
  method CountHits(required: seq<string>, have: set<string>, norm: string -> string) returns (hits: nat)
    ensures hits == Hits(required, have, norm)
  {
    hits := 0;
    for k := 0 to |required|
      invariant hits == Hits(required[..k], have, norm)
    {
      assert required[..k + 1][..k] == required[..k];
      if norm(required[k]) in have {
        hits := hits + 1;
      }
    }
    assert required[..|required|] == required;
  }

  method MethodScore(candidateMethods: seq<MethodMetadata>, required: seq<string>) returns (score: int)
    ensures score == MethodScoreOf(candidateMethods, required)
  {
    if required == [] {
      return 0;
    }
    var hits := CountHits(required, MethodNameSet(candidateMethods), LowerName);
    if hits == |required| {
      return 18;
    }
    if hits == 0 {
      return -12;
    }
    return hits * 4;
  }

  method AnnotationScore(candidate: seq<string>, required: seq<string>) returns (score: int)
    ensures score == AnnotationScoreOf(candidate, required)
  {
    if required == [] {
      return 0;
    }
    var matches := CountHits(required, AnnotationSet(candidate), AnnotationKey);
    if matches == 0 {
      return -5;
    }
    return matches * 6;
  }

  method ImplementsScore(candidate: seq<string>, required: seq<string>) returns (score: int)
    ensures score == ImplementsScoreOf(candidate, required)
  {
    if required == [] {
      return 0;
    }
    var matches := CountHits(required, TypeSet(candidate), TypeKey);
    if matches == 0 {
      return -6;
    }
    return matches * 5;
  }

  /** Zero unless the name scores and the kind is compatible; then the sum of the eight parts. */
  function ScoreOf(c: Candidate, sig: Signature, find: Find): int {
    var name := NameScore(c.className, sig, find);
    if name <= 0 || !TypeCompatible(sig.sigType, c.sigType) then 0
    else
      name + TypeScore(c.sigType, sig.sigType) + PathScore(c.filePath) + PackageScore(c.packageName, sig)
      + MethodScoreOf(c.methods, sig.methods) + AnnotationScoreOf(c.annotations, sig.annotations)
      + ExtendsScore(c.extendsClass, sig.extendsClass)
      + ImplementsScoreOf(c.implementsInterfaces, sig.implementsInterfaces)
  }

  /** `scoreCandidate`: the two gates, then the parts added one by one. */
  method ScoreCandidate(c: Candidate, sig: Signature, find: Find) returns (score: int)
    ensures score == ScoreOf(c, sig, find)
  {
    var name := NameScore(c.className, sig, find);
    if name <= 0 {
      return 0;
    }
    if !TypeCompatible(sig.sigType, c.sigType) {
      return 0;
    }
    score := name;
    score := score + TypeScore(c.sigType, sig.sigType);
    score := score + PathScore(c.filePath);
    score := score + PackageScore(c.packageName, sig);
    var methods := MethodScore(c.methods, sig.methods);
    score := score + methods;
    var annotations := AnnotationScore(c.annotations, sig.annotations);
    score := score + annotations;
    score := score + ExtendsScore(c.extendsClass, sig.extendsClass);
    var interfaces := ImplementsScore(c.implementsInterfaces, sig.implementsInterfaces);
    score := score + interfaces;
  }

  /** An exact-name class under `/src/main/java/` with every requirement met scores at least 25 + 12 + 10. */
  lemma ExactMatchFloor(c: Candidate, sig: Signature, find: Find)
    requires sig.namePattern.None? && sig.name.Some? && Lower(c.className) == Lower(sig.name.value)
    requires sig.sigType != ANY && c.sigType == sig.sigType
    requires Contains(NormalizedPath(c.filePath), "/src/main/java/")
    requires forall i :: 0 <= i < |sig.methods| ==> Lower(sig.methods[i]) in MethodNameSet(c.methods)
    requires forall i :: 0 <= i < |sig.annotations| ==> AnnotationKey(sig.annotations[i]) in AnnotationSet(c.annotations)
    requires forall i :: 0 <= i < |sig.implementsInterfaces| ==>
      TypeKey(sig.implementsInterfaces[i]) in TypeSet(c.implementsInterfaces)
    requires sig.extendsClass.Some? ==> c.extendsClass.Some? && NormalizeTypeName(c.extendsClass) == NormalizeTypeName(sig.extendsClass)
    ensures ScoreOf(c, sig, find) >= 47
  {
    NameScoreMeans(c.className, sig, find);
    PathScoreDecodes(c.filePath);
    MethodScoreRange(c.methods, sig.methods);
    assert NameScore(c.className, sig, find) == 25;
    assert TypeScore(c.sigType, sig.sigType) == 12;
    assert PathScore(c.filePath) >= 10;
    assert MethodScoreOf(c.methods, sig.methods) >= 0;
    assert AnnotationScoreOf(c.annotations, sig.annotations) >= 0;
    assert ImplementsScoreOf(c.implementsInterfaces, sig.implementsInterfaces) >= 0;
    assert ExtendsScore(c.extendsClass, sig.extendsClass) >= 0;
    assert PackageScore(c.packageName, sig) >= 0;
  }
}
