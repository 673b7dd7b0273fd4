/**
 * The packaged Java discovery engine: it walks the project, keeps the files
 * that pass its eligibility rules, scores every type declaration in them,
 * ranks the positive scores and remembers the best one in a runtime cache
 * and a persisted cache keyed by the query.
 *
 * The file walk, the parser and the regular expressions are outside the
 * model: a walked file arrives with the type declarations the parser found
 * in it, and the file system and the clock are parameters.
 */
module JavaEngine {
  import opened Text
  import opened JavaSignature
  import opened JavaResult
  import opened JavaScoring
  import JavaConfig
  import opened JavaLru
  import opened StableSort

  // ---------------------------------------------------------------------
  // Cache key
  // ---------------------------------------------------------------------

  /** The enum constant's name, as `StringBuilder.append` writes it. */
  function TypeName(t: SigType): string {
    match t
    case CLASS => "CLASS"
    case INTERFACE => "INTERFACE"
    case ENUM => "ENUM"
    case RECORD => "RECORD"
    case ANNOTATION => "ANNOTATION"
    case ANY => "ANY"
  }

  /** `List.toString()`: the elements between brackets, separated by a comma and a space. */
  function ListText(items: seq<string>): string {
    "[" + Join(items, ", ") + "]"
  }

  function PackagePart(sig: Signature): string {
    if sig.packageName.Some? then "|" + sig.packageName.value else ""
  }

  function ExtendsPart(sig: Signature): string {
    if sig.extendsClass.Some? then "|ext=" + sig.extendsClass.value else ""
  }

  function AnnotationsPart(sig: Signature): string {
    if sig.annotations != [] then "|ann=" + Join(sig.annotations, ",") else ""
  }

  function InterfacesPart(sig: Signature): string {
    if sig.implementsInterfaces != [] then "|impl=" + Join(sig.implementsInterfaces, ",") else ""
  }

  /** Everything after the name part: kind, methods, then the optional parts that are set. */
  function KeyTail(sig: Signature): string {
    "|" + TypeName(sig.sigType) + "|" + ListText(sig.methods)
    + PackagePart(sig) + ExtendsPart(sig) + AnnotationsPart(sig) + InterfacesPart(sig)
  }

  /** The name text and then the pattern's text, each only when set, with nothing to tell them apart. */
  function UntaggedPart(sig: Signature): string {
    (if sig.name.Some? then sig.name.value else "")
    + (if sig.namePattern.Some? then sig.namePattern.value.source else "")
  }

  /**
   * `cacheKey` as written: the query text, untagged, then the kind, the
   * methods and the optional parts. The key opens with the name when there
   * is one (with the pattern when there is only that) and always ends with
   * the kind and the method list, followed by the optional parts.
   */
  function KeyAsWritten(sig: Signature): (key: string)
    ensures sig.name.Some? ==> StartsWith(key, sig.name.value)
    ensures sig.name.None? && sig.namePattern.Some? ==> StartsWith(key, sig.namePattern.value.source)
    ensures EndsWith(key, KeyTail(sig))
  {
    var head := UntaggedPart(sig);
    var key := head + KeyTail(sig);
    assert key[..|head|] == head && key[|head|..] == KeyTail(sig);
    if sig.name.Some? then
      assert head[..|sig.name.value|] == sig.name.value;
      key
    else
      key
  }

  /** The name part with its kind marked, so a name and a pattern never share a key. */
  function QueryPart(sig: Signature): string {
    (if sig.name.Some? then "name=" + sig.name.value else "")
    + (if sig.namePattern.Some? then "pattern=" + sig.namePattern.value.source else "")
  }

  /** The corrected cache key: the query text marked as a name or a pattern. */
  function CacheKeyOf(sig: Signature): string {
    QueryPart(sig) + KeyTail(sig)
  }

  /** `cacheKey`: the key built piece by piece, as the source's `StringBuilder` does. */
  method CacheKey(sig: Signature) returns (key: string)
    ensures key == KeyAsWritten(sig)
  {
    key := "";
    if sig.name.Some? {
      key := key + sig.name.value;
    }
    if sig.namePattern.Some? {
      key := key + sig.namePattern.value.source;
    }
    assert key == UntaggedPart(sig);
    var tail := "|" + TypeName(sig.sigType) + "|" + ListText(sig.methods);
    ghost var head := tail;
    if sig.packageName.Some? {
      tail := tail + "|" + sig.packageName.value;
    }
    assert tail == head + PackagePart(sig);
    if sig.extendsClass.Some? {
      tail := tail + "|ext=" + sig.extendsClass.value;
    }
    assert tail == head + PackagePart(sig) + ExtendsPart(sig);
    if sig.annotations != [] {
      tail := tail + "|ann=" + Join(sig.annotations, ",");
    }
    assert tail == head + PackagePart(sig) + ExtendsPart(sig) + AnnotationsPart(sig);
    if sig.implementsInterfaces != [] {
      tail := tail + "|impl=" + Join(sig.implementsInterfaces, ",");
    }
    assert tail == KeyTail(sig);
    key := key + tail;
  }

  /** A class query by name only. */
  function ByName(text: string): Signature {
    Signature(Some(text), None, CLASS, [], None, [], None, [])
  }

  /** A class query by name pattern only. */
  function ByPattern(text: string): Signature {
    Signature(None, Some(Pattern(text)), CLASS, [], None, [], None, [])
  }

  /**
   * As written, a name query and a pattern query with the same text get the
   * same key, yet they select different candidates: a class whose name equals
   * the text except for case scores under the name query and not under a
   * case-sensitive pattern, so the cached answer of one is returned for the other.
   */
  lemma NameAndPatternCollide(c: Candidate, text: string, find: Find)
    requires c.sigType == CLASS && Lower(c.className) == Lower(text)
    requires !find(Pattern(text), c.className)
    ensures KeyAsWritten(ByName(text)) == KeyAsWritten(ByPattern(text))
    ensures ScoreOf(c, ByName(text), find) > 0
    ensures ScoreOf(c, ByPattern(text), find) == 0
  {
    NameScoreMeans(c.className, ByName(text), find);
    assert NameScore(c.className, ByName(text), find) == 25;
  }

  /** With the kind marked, name queries, pattern queries and queries with neither never share a key. */
  lemma TaggedKeysSeparate(a: Signature, b: Signature)
    requires a.name.Some? && b.name.None?
    ensures CacheKeyOf(a) != CacheKeyOf(b)
  {
    assert CacheKeyOf(a)[0] == 'n';
    if b.namePattern.Some? {
      assert CacheKeyOf(b)[0] == 'p';
    } else {
      assert CacheKeyOf(b)[0] == '|';
    }
  }

  /** Queries that differ only in their kind never share a key: the six kind names have six lengths. */
  lemma DistinctTypesDistinctKeys(sig: Signature, t: SigType)
    requires t != sig.sigType
    ensures KeyAsWritten(sig) != KeyAsWritten(sig.(sigType := t))
  {
    var other := sig.(sigType := t);
    assert |TypeName(t)| != |TypeName(sig.sigType)|;
    assert |KeyAsWritten(sig)| - |TypeName(sig.sigType)| == |KeyAsWritten(other)| - |TypeName(t)|;
  }

  // ---------------------------------------------------------------------
  // Eligible files
  // ---------------------------------------------------------------------

  /**
   * A regular file met by the walk: its path relative to the root, its file
   * name, whether the name has a copy suffix (" copy", " copy 2", " 2" before
   * the extension, decided by a regular expression), and the type
   * declarations the parser finds in it.
   */
  datatype WalkedFile = WalkedFile(relative: string, filename: string, copySuffix: bool, candidates: seq<Candidate>)

  predicate AnySuffix(s: string, suffixes: seq<string>) {
    exists i :: 0 <= i < |suffixes| && EndsWith(s, suffixes[i])
  }

  predicate UnderSkippedDirectory(relative: string, skipDirectories: seq<string>) {
    exists i :: 0 <= i < |skipDirectories| && StartsWith(relative, skipDirectories[i] + "/")
  }

  /**
   * `isEligibleFile` as written: the LOWER-CASED file name is compared with
   * the skip-file suffixes exactly as configured. A file is eligible exactly
   * when its lower-cased name ends in no skip entry and in some extension,
   * it has no copy suffix and no skipped directory holds it.
   */
  predicate EligibleAsWritten(config: JavaConfig.DiscoveryConfig, file: WalkedFile): (ok: bool)
    ensures ok <==>
      (forall i :: 0 <= i < |config.skipFiles| ==> !EndsWith(Lower(file.filename), config.skipFiles[i]))
      && !file.copySuffix
      && (forall i :: 0 <= i < |config.skipDirectories| ==> !StartsWith(Slashes(file.relative), config.skipDirectories[i] + "/"))
      && (exists i :: 0 <= i < |config.extensions| && EndsWith(Lower(file.filename), config.extensions[i]))
  {
    var lower := Lower(file.filename);
    !(AnySuffix(lower, config.skipFiles) || file.copySuffix)
    && !UnderSkippedDirectory(Slashes(file.relative), config.skipDirectories)
    && AnySuffix(lower, config.extensions)
  }

  /**
   * The corrected eligibility rule: the file name itself is compared with the
   * skip-file entries, case and all, as the Maven `*Test`, `*Tests` and `*IT`
   * naming the defaults follow is; extensions stay case-insensitive.
   */
  predicate Eligible(config: JavaConfig.DiscoveryConfig, file: WalkedFile) {
    !(AnySuffix(file.filename, config.skipFiles) || file.copySuffix)
    && !UnderSkippedDirectory(Slashes(file.relative), config.skipDirectories)
    && AnySuffix(Lower(file.filename), config.extensions)
  }

  /** As written, no default skip-file entry can match: each holds an upper-case letter, a lower-cased name none. */
  lemma DefaultSkipFilesNeverMatch(root: string, filename: string)
    ensures !AnySuffix(Lower(filename), JavaConfig.Defaults(root).skipFiles)
  {
    var lower := Lower(filename);
    var skips := JavaConfig.Defaults(root).skipFiles;
    forall i | 0 <= i < |skips| ensures !EndsWith(lower, skips[i]) {
      var s := skips[i];
      assert IsUpper(s[0]) && |s| <= |lower| ==> !IsUpper(lower[|lower| - |s|]);
    }
  }

  /** So, as written, a test class passes the default rules like any other Java file. */
  lemma TestFilesPassAsWritten(root: string, file: WalkedFile)
    requires EndsWith(Lower(file.filename), ".java") && !file.copySuffix
    requires !UnderSkippedDirectory(Slashes(file.relative), JavaConfig.Defaults(root).skipDirectories)
    ensures EligibleAsWritten(JavaConfig.Defaults(root), file)
  {
    DefaultSkipFilesNeverMatch(root, file.filename);
    assert EndsWith(Lower(file.filename), JavaConfig.Defaults(root).extensions[0]);
  }

  /** Compared case and all, a class named `*Test`, `*Tests` or `*IT` is skipped by the defaults. */
  lemma TestFilesSkipped(root: string, file: WalkedFile)
    requires EndsWith(file.filename, "Test.java") || EndsWith(file.filename, "Tests.java") || EndsWith(file.filename, "IT.java")
    ensures !Eligible(JavaConfig.Defaults(root), file)
  {
    var skips := JavaConfig.Defaults(root).skipFiles;
    if EndsWith(file.filename, "Test.java") {
      assert EndsWith(file.filename, skips[0]);
    } else if EndsWith(file.filename, "Tests.java") {
      assert EndsWith(file.filename, skips[1]);
    } else {
      assert EndsWith(file.filename, skips[2]);
    }
  }

  /** A production class whose lower-cased name merely ends in `it.java` stays eligible under the corrected rule. */
  lemma ProductionClassKept(root: string)
    ensures Eligible(JavaConfig.Defaults(root), WalkedFile("src/Audit.java", "Audit.java", false, []))
  {
    AuditNameNotSkipped(root);
    AuditNotUnderSkippedDirectory(root);
    AuditHasExtension(root);
  }

  lemma AuditNameNotSkipped(root: string)
    ensures !AnySuffix("Audit.java", JavaConfig.Defaults(root).skipFiles)
  {
    assert !EndsWith("Audit.java", JavaConfig.Defaults(root).skipFiles[2]) by {
      assert "Audit.java"[3..] == "it.java";
    }
  }

  lemma AuditNotUnderSkippedDirectory(root: string)
    ensures !UnderSkippedDirectory(Slashes("src/Audit.java"), JavaConfig.Defaults(root).skipDirectories)
  {
    var d := JavaConfig.Defaults(root);
    assert Slashes("src/Audit.java") == "src/Audit.java";
    forall i | 0 <= i < |d.skipDirectories|
      ensures !StartsWith("src/Audit.java", d.skipDirectories[i] + "/")
    {
      assert (d.skipDirectories[i] + "/")[0] != 's';
    }
  }

  lemma AuditHasExtension(root: string)
    ensures AnySuffix(Lower("Audit.java"), JavaConfig.Defaults(root).extensions)
  {
    assert Lower("Audit.java") == "audit.java";
    assert EndsWith(Lower("Audit.java"), JavaConfig.Defaults(root).extensions[0]);
  }

  /** With the defaults, the correction changes one thing: it also skips the files whose name ends in a skip entry. */
  lemma CorrectedRuleSkipsOnlyTestNames(root: string, file: WalkedFile)
    ensures Eligible(JavaConfig.Defaults(root), file) <==>
      EligibleAsWritten(JavaConfig.Defaults(root), file) && !AnySuffix(file.filename, JavaConfig.Defaults(root).skipFiles)
  {
    DefaultSkipFilesNeverMatch(root, file.filename);
  }

  /** `stream().anyMatch(lower::endsWith)`. */
  method AnyEndsWith(s: string, suffixes: seq<string>) returns (found: bool)
    ensures found == AnySuffix(s, suffixes)
  {
    for i := 0 to |suffixes|
      invariant forall j :: 0 <= j < i ==> !EndsWith(s, suffixes[j])
    {
      if EndsWith(s, suffixes[i]) {
        return true;
      }
    }
    return false;
  }

  /** `isEligibleFile`: the skip-file entries are compared as configured. */
  method IsEligibleFile(config: JavaConfig.DiscoveryConfig, file: WalkedFile) returns (ok: bool)
    ensures ok == EligibleAsWritten(config, file)
  {
    var lower := Lower(file.filename);
    var skipped := AnyEndsWith(lower, config.skipFiles);
    if skipped || file.copySuffix {
      return false;
    }
    var relative := Slashes(file.relative);
    for i := 0 to |config.skipDirectories|
      invariant forall j :: 0 <= j < i ==> !StartsWith(relative, config.skipDirectories[j] + "/")
    {
      if StartsWith(relative, config.skipDirectories[i] + "/") {
        return false;
      }
    }
    ok := AnyEndsWith(lower, config.extensions);
  }

  // ---------------------------------------------------------------------
  // Nested type names
  // ---------------------------------------------------------------------

  /** A syntax node around a declaration: a type declaration or anything else. */
  datatype Node = TypeDecl(name: string) | OtherNode

  /** How many of the innermost ancestors are type declarations. */
  function EnclosingTypes(ancestors: seq<Node>): (n: nat)
    ensures n <= |ancestors|
    ensures forall i :: 0 <= i < n ==> ancestors[i].TypeDecl?
    ensures n < |ancestors| ==> ancestors[n].OtherNode?
  {
    if ancestors == [] || ancestors[0].OtherNode? then 0
    else 1 + EnclosingTypes(ancestors[1..])
  }

  /** The names of the `k` innermost ancestors, outermost first. */
  function OuterNames(ancestors: seq<Node>, k: nat): (names: seq<string>)
    requires k <= |ancestors|
    requires forall i :: 0 <= i < k ==> ancestors[i].TypeDecl?
    ensures |names| == k
    ensures forall i :: 0 <= i < k ==> names[i] == ancestors[k - 1 - i].name
  {
    if k == 0 then [] else [ancestors[k - 1].name] + OuterNames(ancestors, k - 1)
  }

  /**
   * `resolveTypeName`: the declaration's own name, preceded by those of the
   * type declarations enclosing it up to the first node that is not one,
   * outermost first, joined by dots. `ancestors` lists the parents innermost first.
   */
  method ResolveTypeName(own: string, ancestors: seq<Node>) returns (name: string)
    ensures name == Join(OuterNames(ancestors, EnclosingTypes(ancestors)) + [own], ".")
  {
    var n := EnclosingTypes(ancestors);
    var names := [own];
    var i := 0;
    while i < |ancestors| && ancestors[i].TypeDecl?
      invariant i <= n
      invariant names == OuterNames(ancestors, i) + [own]
    {
      names := [ancestors[i].name] + names;
      i := i + 1;
    }
    name := Join(names, ".");
  }

  /** A top-level declaration keeps its own name. */
  lemma TopLevelName(own: string, ancestors: seq<Node>)
    requires ancestors == [] || ancestors[0].OtherNode?
    ensures Join(OuterNames(ancestors, EnclosingTypes(ancestors)) + [own], ".") == own
  {
    assert OuterNames(ancestors, 0) + [own] == [own];
  }

  /** A nested declaration's name is the outer name, a dot, and its own name. */
  lemma NestedName(own: string, ancestors: seq<Node>)
    requires ancestors != [] && ancestors[0].TypeDecl?
    ensures var outer := OuterNames(ancestors, EnclosingTypes(ancestors));
      Join(outer + [own], ".") == Join(outer, ".") + "." + own
    ensures EndsWith(Join(OuterNames(ancestors, EnclosingTypes(ancestors)) + [own], "."), "." + own)
  {
    var outer := OuterNames(ancestors, EnclosingTypes(ancestors));
    JoinAppend(outer, own, ".");
    var r := Join(outer, ".") + "." + own;
    assert r[|r| - |"." + own|..] == "." + own;
  }

  // ---------------------------------------------------------------------
  // Cache entries
  // ---------------------------------------------------------------------

  /** What the file system reports for a path: missing, or present with a modification time that may not be readable. */
  datatype FileStat = Missing | Present(modified: Option<int>)

  type FileSystem = string -> FileStat

  /** A remembered best result, with the file's modification time (0: unknown) and the time it was stored. */
  datatype CacheEntry = CacheEntry(result: DiscoveryResult, mtime: int, timestamp: int)

  /** `CacheEntry.from`: the file's modification time when it can be read, otherwise 0; stored at `now`. */
  function EntryFrom(result: DiscoveryResult, fs: FileSystem, now: int): (e: CacheEntry)
    ensures e.result == result && e.timestamp == now
    ensures fs(result.filePath) == Present(Some(e.mtime)) || e.mtime == 0
    ensures fs(result.filePath).Present? && fs(result.filePath).modified.Some? ==> e.mtime == fs(result.filePath).modified.value
    ensures fs(result.filePath).Missing? || fs(result.filePath).modified.None? ==> e.mtime == 0
  {
    var modified := match fs(result.filePath)
      case Present(Some(m)) => m
      case _ => 0;
    CacheEntry(result, modified, now)
  }

  /**
   * `isFresh`: never with the cache disabled; with a positive TTL the entry
   * must carry a positive timestamp no older than the TTL; the file must
   * exist; an unknown modification time is accepted, a known one must match.
   */
  function IsFresh(config: JavaConfig.DiscoveryConfig, entry: CacheEntry, now: int, fs: FileSystem): bool {
    if !config.cacheEnabled then false
    else if config.cacheTtlMillis > 0 && (entry.timestamp <= 0 || now - entry.timestamp > config.cacheTtlMillis) then false
    else match fs(entry.result.filePath)
      case Missing => false
      case Present(modified) => entry.mtime == 0 || modified == Some(entry.mtime)
  }

  /**
   * An entry just stored stays fresh exactly while caching is on, its file
   * exists and (with a positive TTL) the TTL has not run out, as long as the
   * file is not touched.
   */
  lemma StoredEntryFreshness(config: JavaConfig.DiscoveryConfig, result: DiscoveryResult, fs: FileSystem, now: int, later: int)
    requires now > 0
    ensures IsFresh(config, EntryFrom(result, fs, now), later, fs) <==>
      config.cacheEnabled && fs(result.filePath).Present? && (config.cacheTtlMillis > 0 ==> later - now <= config.cacheTtlMillis)
  {
  }

  /** Once the file's modification time changes, an entry that recorded one is stale. */
  lemma ModifiedFileIsStale(config: JavaConfig.DiscoveryConfig, entry: CacheEntry, now: int, fs: FileSystem, m: int)
    requires entry.mtime != 0 && m != entry.mtime
    requires fs(entry.result.filePath) == Present(Some(m))
    ensures !IsFresh(config, entry, now, fs)
  {
  }

  // ---------------------------------------------------------------------
  // Collecting and ranking candidates
  // ---------------------------------------------------------------------

  datatype ScoredCandidate = Scored(candidate: Candidate, score: int)

  /** The candidates of one file that score above zero, in declaration order. */
  function ScoredIn(candidates: seq<Candidate>, sig: Signature, find: Find): (r: seq<ScoredCandidate>)
    ensures |r| <= |candidates|
  {
    if candidates == [] then []
    else
      var init := candidates[..|candidates| - 1];
      var last := candidates[|candidates| - 1];
      var score := ScoreOf(last, sig, find);
      ScoredIn(init, sig, find) + (if score > 0 then [Scored(last, score)] else [])
  }

  /** Exactly the declarations that score above zero are kept, each with its own score. */
  lemma {:induction false} ScoredInMeans(candidates: seq<Candidate>, sig: Signature, find: Find)
    ensures forall s :: s in ScoredIn(candidates, sig, find) ==>
      s.score > 0 && s.score == ScoreOf(s.candidate, sig, find) && s.candidate in candidates
    ensures forall c :: c in candidates && ScoreOf(c, sig, find) > 0 ==>
      Scored(c, ScoreOf(c, sig, find)) in ScoredIn(candidates, sig, find)
  {
    if candidates != [] {
      var init := candidates[..|candidates| - 1];
      var last := candidates[|candidates| - 1];
      assert candidates == init + [last];
      ScoredInMeans(init, sig, find);
    }
  }

  /** `collectCandidates` as a value: the scored candidates of the eligible files, in walk order. */
  function Collected(config: JavaConfig.DiscoveryConfig, files: seq<WalkedFile>, sig: Signature, find: Find): (r: seq<ScoredCandidate>)
  {
    if files == [] then []
    else
      var init := files[..|files| - 1];
      var last := files[|files| - 1];
      Collected(config, init, sig, find) + (if EligibleAsWritten(config, last) then ScoredIn(last.candidates, sig, find) else [])
  }

  /** Every collected candidate carries its own positive score. */
  lemma {:induction false} CollectedScores(config: JavaConfig.DiscoveryConfig, files: seq<WalkedFile>, sig: Signature, find: Find)
    ensures forall s :: s in Collected(config, files, sig, find) ==> s.score > 0 && s.score == ScoreOf(s.candidate, sig, find)
  {
    if files != [] {
      var init := files[..|files| - 1];
      var last := files[|files| - 1];
      CollectedScores(config, init, sig, find);
      ScoredInMeans(last.candidates, sig, find);
      var head := Collected(config, init, sig, find);
      var tail := if EligibleAsWritten(config, last) then ScoredIn(last.candidates, sig, find) else [];
      assert Collected(config, files, sig, find) == head + tail;
    }
  }

  /** Exactly the candidates of eligible files with a positive score are collected. */
  lemma {:induction false} CollectedMembers(config: JavaConfig.DiscoveryConfig, files: seq<WalkedFile>, sig: Signature,
                                            find: Find, c: Candidate)
    ensures Scored(c, ScoreOf(c, sig, find)) in Collected(config, files, sig, find) <==>
      ScoreOf(c, sig, find) > 0 && exists f :: f in files && EligibleAsWritten(config, f) && c in f.candidates
  {
    if files != [] {
      var init := files[..|files| - 1];
      var last := files[|files| - 1];
      assert files == init + [last];
      CollectedMembers(config, init, sig, find, c);
      ScoredInMeans(last.candidates, sig, find);
      var tail := if EligibleAsWritten(config, last) then ScoredIn(last.candidates, sig, find) else [];
      assert Collected(config, files, sig, find) == Collected(config, init, sig, find) + tail;
      if Scored(c, ScoreOf(c, sig, find)) in tail {
        assert EligibleAsWritten(config, last) && c in last.candidates;
      }
      if ScoreOf(c, sig, find) > 0 && EligibleAsWritten(config, last) && c in last.candidates {
        assert Scored(c, ScoreOf(c, sig, find)) in tail;
      }
    }
  }

  lemma ScoredInStep(candidates: seq<Candidate>, j: nat, sig: Signature, find: Find)
    requires j < |candidates|
    ensures var score := ScoreOf(candidates[j], sig, find);
      ScoredIn(candidates[..j + 1], sig, find) ==
      ScoredIn(candidates[..j], sig, find) + (if score > 0 then [Scored(candidates[j], score)] else [])
  {
    assert candidates[..j + 1][..j] == candidates[..j];
  }

  lemma CollectedStep(config: JavaConfig.DiscoveryConfig, files: seq<WalkedFile>, i: nat, sig: Signature, find: Find)
    requires i < |files|
    ensures Collected(config, files[..i + 1], sig, find) ==
      Collected(config, files[..i], sig, find) + (if EligibleAsWritten(config, files[i]) then ScoredIn(files[i].candidates, sig, find) else [])
  {
    assert files[..i + 1][..i] == files[..i];
  }

  /** The inner loop of `collectCandidates`: each declaration of one file scored and, when positive, appended. */
  method AddScored(found0: seq<ScoredCandidate>, candidates: seq<Candidate>, sig: Signature, find: Find)
    returns (found: seq<ScoredCandidate>)
    ensures found == found0 + ScoredIn(candidates, sig, find)
  {
    found := found0;
    for j := 0 to |candidates|
      invariant found == found0 + ScoredIn(candidates[..j], sig, find)
    {
      var score := ScoreCandidate(candidates[j], sig, find);
      ScoredInStep(candidates, j, sig, find);
      if score > 0 {
        found := found + [Scored(candidates[j], score)];
      }
    }
    assert candidates[..|candidates|] == candidates;
  }

  /** The walk with the eligibility check and the scoring of every declaration. */
  method CollectCandidates(config: JavaConfig.DiscoveryConfig, files: seq<WalkedFile>, sig: Signature, find: Find)
    returns (found: seq<ScoredCandidate>)
    ensures found == Collected(config, files, sig, find)
  {
    found := [];
    for i := 0 to |files|
      invariant found == Collected(config, files[..i], sig, find)
    {
      var file := files[i];
      CollectedStep(config, files, i, sig, find);
      var eligible := IsEligibleFile(config, file);
      if eligible {
        found := AddScored(found, file.candidates, sig, find);
      }
    }
    assert files[..|files|] == files;
  }

  function ScoreKey(s: ScoredCandidate): real {
    s.score as real
  }

  /** `ScoredCandidate.toResult`. */
  function ToResult(s: ScoredCandidate): (r: DiscoveryResult)
    ensures r.score == s.score as real && r.className == s.candidate.className
    ensures r.filePath == s.candidate.filePath && r.sigType == s.candidate.sigType
  {
    var c := s.candidate;
    NewResult(c.sigType, c.className, c.packageName, c.filePath, s.score as real,
              Some(c.methods), Some(c.annotations), c.extendsClass, Some(c.implementsInterfaces))
  }

  function ToResults(ranked: seq<ScoredCandidate>): (r: seq<DiscoveryResult>)
    ensures |r| == |ranked|
    ensures forall i :: 0 <= i < |r| ==> r[i] == ToResult(ranked[i])
  {
    seq(|ranked|, i requires 0 <= i < |ranked| => ToResult(ranked[i]))
  }

  /** What a search returns when no cache answers: the collected candidates by non-increasing score. */
  function Computed(config: JavaConfig.DiscoveryConfig, files: seq<WalkedFile>, sig: Signature, find: Find): seq<DiscoveryResult> {
    ToResults(SortDesc(Collected(config, files, sig, find), ScoreKey))
  }

  /** Every result scored above zero, and the scores never increase down the list. */
  lemma ComputedRanked(config: JavaConfig.DiscoveryConfig, files: seq<WalkedFile>, sig: Signature, find: Find)
    ensures var r := Computed(config, files, sig, find);
      (forall i :: 0 <= i < |r| ==> r[i].score > 0.0)
      && (forall i, j :: 0 <= i < j < |r| ==> r[j].score <= r[i].score)
  {
    var collected := Collected(config, files, sig, find);
    var sorted := SortDesc(collected, ScoreKey);
    CollectedScores(config, files, sig, find);
    SortDescSorted(collected, ScoreKey);
    forall i | 0 <= i < |sorted| ensures sorted[i].score > 0 {
      assert sorted[i] in multiset(collected) by { assert sorted[i] in multiset(sorted); }
    }
  }

  /** Results with equal scores keep the walk order. */
  lemma ComputedKeepsTies(config: JavaConfig.DiscoveryConfig, files: seq<WalkedFile>, sig: Signature, find: Find, k: real)
    ensures WithKey(SortDesc(Collected(config, files, sig, find), ScoreKey), k, ScoreKey)
      == WithKey(Collected(config, files, sig, find), k, ScoreKey)
  {
    SortDescStable(Collected(config, files, sig, find), k, ScoreKey);
  }

  /** The first result scores at least as high as any candidate of any eligible file. */
  lemma ComputedHeadIsBest(config: JavaConfig.DiscoveryConfig, files: seq<WalkedFile>, sig: Signature, find: Find,
                           f: WalkedFile, c: Candidate)
    requires f in files && EligibleAsWritten(config, f) && c in f.candidates && ScoreOf(c, sig, find) > 0
    ensures Computed(config, files, sig, find) != []
    ensures ScoreOf(c, sig, find) as real <= Computed(config, files, sig, find)[0].score
  {
    var collected := Collected(config, files, sig, find);
    CollectedMembers(config, files, sig, find, c);
    var s := Scored(c, ScoreOf(c, sig, find));
    var i :| 0 <= i < |collected| && collected[i] == s;
    HeadIsMaximal(collected, ScoreKey);
    assert ScoreKey(collected[i]) <= ScoreKey(SortDesc(collected, ScoreKey)[0]);
  }

  /** The result list, from the cache walk and the sort. */
  method Compute(config: JavaConfig.DiscoveryConfig, files: seq<WalkedFile>, sig: Signature, find: Find)
    returns (results: seq<DiscoveryResult>)
    ensures results == Computed(config, files, sig, find)
  {
    var candidates := CollectCandidates(config, files, sig, find);
    results := ToResults(SortDesc(candidates, ScoreKey));
  }

  // ---------------------------------------------------------------------
  // The engine and its caches
  // ---------------------------------------------------------------------

  /** Which cache, if any, answers a query. */
  datatype Lookup = RuntimeHit(entry: CacheEntry) | PersistentHit(entry: CacheEntry) | Miss

  /** The persisted cache once `ensureCacheLoaded` has run; `stored` is the cache file's content, if readable. */
  function LoadedPersistent(loaded: bool, persistent: map<string, CacheEntry>, enabled: bool,
                            stored: Option<map<string, CacheEntry>>): map<string, CacheEntry>
  {
    if loaded then persistent
    else if enabled && stored.Some? then stored.value
    else map[]
  }

  /** The runtime cache is consulted first, then the persisted one; only fresh entries answer. */
  function LookUp(config: JavaConfig.DiscoveryConfig, key: string, runtime: map<string, CacheEntry>,
                  persistent: map<string, CacheEntry>, now: int, fs: FileSystem): (r: Lookup)
    ensures r.RuntimeHit? ==> key in runtime && r.entry == runtime[key]
    ensures r.PersistentHit? ==> key in persistent && r.entry == persistent[key]
    ensures r != Miss ==> IsFresh(config, r.entry, now, fs)
    ensures r == Miss <==> (!config.cacheEnabled
                            || ((key !in runtime || !IsFresh(config, runtime[key], now, fs))
                                && (key !in persistent || !IsFresh(config, persistent[key], now, fs))))
  {
    if !config.cacheEnabled then Miss
    else if key in runtime && IsFresh(config, runtime[key], now, fs) then RuntimeHit(runtime[key])
    else if key in persistent && IsFresh(config, persistent[key], now, fs) then PersistentHit(persistent[key])
    else Miss
  }

  /** A cache hit answers with its one remembered result; a miss with the whole ranked list. */
  function Outcome(lookup: Lookup, computed: seq<DiscoveryResult>): (r: seq<DiscoveryResult>)
    ensures lookup != Miss ==> r == [lookup.entry.result]
    ensures lookup == Miss ==> r == computed
  {
    if lookup.Miss? then computed else [lookup.entry.result]
  }

  /** No cache answers when caching is disabled: the search always runs. */
  lemma DisabledCacheAlwaysSearches(config: JavaConfig.DiscoveryConfig, key: string, runtime: map<string, CacheEntry>,
                                    persistent: map<string, CacheEntry>, now: int, fs: FileSystem, computed: seq<DiscoveryResult>)
    requires !config.cacheEnabled
    ensures Outcome(LookUp(config, key, runtime, persistent, now, fs), computed) == computed
  {
  }

  /**
   * After a miss stores the best result, asking again before the TTL runs
   * out, with the file untouched, answers from the runtime cache with that
   * one result, not the whole list.
   */
  lemma RepeatedQueryAnswersFromCache(config: JavaConfig.DiscoveryConfig, key: string, runtime: map<string, CacheEntry>,
                                      persistent: map<string, CacheEntry>, fs: FileSystem, now: int, later: int,
                                      computed: seq<DiscoveryResult>)
    requires config.cacheEnabled && computed != [] && now > 0
    requires fs(computed[0].filePath).Present?
    requires config.cacheTtlMillis > 0 ==> later - now <= config.cacheTtlMillis
    ensures var entry := EntryFrom(computed[0], fs, now);
      Outcome(LookUp(config, key, runtime[key := entry], persistent, later, fs), computed) == [computed[0]]
  {
    StoredEntryFreshness(config, computed[0], fs, now, later);
  }

  /** `discover`'s failure when nothing matches. */
  datatype DiscoveryError = NoCandidates

  /** `discover`: the first of the results, or a failure when there is none. */
  function FirstOf(results: seq<DiscoveryResult>): (r: Result<DiscoveryResult, DiscoveryError>)
    ensures r.Err? <==> results == []
    ensures r.Ok? ==> r.value == results[0]
  {
    if results == [] then Err(NoCandidates) else Ok(results[0])
  }

  /** `createRuntimeCache`: an LRU cache bounded by a positive size; otherwise no bound. */
  method CreateRuntimeCache(maxEntries: int) returns (cache: LruCache<CacheEntry>)
    ensures fresh(cache) && cache.Valid()
    ensures cache.maxSize == maxEntries && cache.values == map[]
  {
    cache := new LruCache<CacheEntry>(maxEntries);
  }

  class Engine {
    const config: JavaConfig.DiscoveryConfig
    const runtimeCache: LruCache<CacheEntry>
    var persistentCache: map<string, CacheEntry>
    var cacheLoaded: bool

    /** The runtime cache is bounded by the configured size, and with caching disabled both caches stay empty once loaded. */
    ghost predicate Valid()
      reads this, runtimeCache
    {
      runtimeCache.Valid() && runtimeCache.maxSize == config.runtimeCacheSize
      && (cacheLoaded && !config.cacheEnabled ==> runtimeCache.values == map[] && persistentCache == map[])
    }

    constructor (config: JavaConfig.DiscoveryConfig)
      ensures Valid() && fresh(runtimeCache)
      ensures this.config == config && runtimeCache.values == map[]
      ensures persistentCache == map[] && !cacheLoaded
    {
      var cache := CreateRuntimeCache(config.runtimeCacheSize);
      this.config := config;
      runtimeCache := cache;
      persistentCache := map[];
      cacheLoaded := false;
    }

    /**
     * `ensureCacheLoaded`, once: with caching disabled both caches are
     * emptied; otherwise the persisted cache is read from `stored`, the
     * cache file's content (`None` when it is missing or corrupt).
     */
    method EnsureCacheLoaded(stored: Option<map<string, CacheEntry>>)
      requires Valid()
      modifies this, runtimeCache
      ensures Valid() && cacheLoaded
      ensures persistentCache == LoadedPersistent(old(cacheLoaded), old(persistentCache), config.cacheEnabled, stored)
      ensures !config.cacheEnabled ==> runtimeCache.values == map[] && runtimeCache.order == []
      ensures config.cacheEnabled ==> runtimeCache.values == old(runtimeCache.values) && runtimeCache.order == old(runtimeCache.order)
    {
      if cacheLoaded {
        if !config.cacheEnabled {
          runtimeCache.EmptyOrder();
        }
        return;
      }
      if !config.cacheEnabled {
        runtimeCache.Clear();
        persistentCache := map[];
        cacheLoaded := true;
        return;
      }
      persistentCache := if stored.Some? then stored.value else map[];
      cacheLoaded := true;
    }

    /**
     * `discoverAll`: a fresh runtime entry answers first, then a fresh
     * persisted one (which is copied into the runtime cache); otherwise the
     * ranked results are computed and, with caching on, the best one is
     * stored in both caches. Writing the cache file is not modelled. With
     * caching on, the runtime cache is read (which makes a present key the
     * most recently used) and then written on a persisted hit or a stored
     * miss, with the eviction `put` does; with caching off it is empty.
     */
    method DiscoverAll(sig: Signature, files: seq<WalkedFile>, find: Find, stored: Option<map<string, CacheEntry>>,
                       fs: FileSystem, now: int) returns (results: seq<DiscoveryResult>)
      requires Valid()
      modifies this, runtimeCache
      ensures Valid() && cacheLoaded
      ensures var key := KeyAsWritten(sig);
        var persisted := LoadedPersistent(old(cacheLoaded), old(persistentCache), config.cacheEnabled, stored);
        var lookup := LookUp(config, key, old(runtimeCache.values), persisted, now, fs);
        var computed := Computed(config, files, sig, find);
        && results == Outcome(lookup, computed)
        && (lookup.Miss? && config.cacheEnabled && computed != [] ==>
              persistentCache == persisted[key := EntryFrom(computed[0], fs, now)])
        && (!(lookup.Miss? && config.cacheEnabled && computed != []) ==> persistentCache == persisted)
      ensures !config.cacheEnabled ==> runtimeCache.values == map[] && runtimeCache.order == []
      ensures var key := KeyAsWritten(sig);
        var persisted := LoadedPersistent(old(cacheLoaded), old(persistentCache), config.cacheEnabled, stored);
        var lookup := LookUp(config, key, old(runtimeCache.values), persisted, now, fs);
        var computed := Computed(config, files, sig, find);
        var touched := Touch(old(runtimeCache.order), old(runtimeCache.values), key);
        config.cacheEnabled ==>
          && (lookup.PersistentHit? ==>
                runtimeCache.values == PutValues(touched, old(runtimeCache.values), runtimeCache.maxSize, key, lookup.entry)
                && runtimeCache.order == PutOrder(touched, old(runtimeCache.values), runtimeCache.maxSize, key))
          && (lookup.Miss? && computed != [] ==>
                runtimeCache.values == PutValues(touched, old(runtimeCache.values), runtimeCache.maxSize, key, EntryFrom(computed[0], fs, now))
                && runtimeCache.order == PutOrder(touched, old(runtimeCache.values), runtimeCache.maxSize, key))
          && (lookup.RuntimeHit? || (lookup.Miss? && computed == []) ==>
                runtimeCache.values == old(runtimeCache.values) && runtimeCache.order == touched)
    {
      EnsureCacheLoaded(stored);
      var key := CacheKey(sig);
      var lookup := TryCaches(key, now, fs);
      if !lookup.Miss? {
        return [lookup.entry.result];
      }
      results := Compute(config, files, sig, find);
      if config.cacheEnabled && results != [] {
        Remember(key, EntryFrom(results[0], fs, now));
      }
    }

    /** The store after a miss: the entry goes into the runtime cache, with `put`'s eviction, and into the persisted one. */
    method Remember(key: string, entry: CacheEntry)
      requires Valid() && cacheLoaded && config.cacheEnabled
      modifies this, runtimeCache
      ensures Valid() && cacheLoaded
      ensures key in runtimeCache.values && runtimeCache.values[key] == entry
      ensures runtimeCache.values == PutValues(old(runtimeCache.order), old(runtimeCache.values), runtimeCache.maxSize, key, entry)
      ensures runtimeCache.order == PutOrder(old(runtimeCache.order), old(runtimeCache.values), runtimeCache.maxSize, key)
      ensures persistentCache == old(persistentCache)[key := entry]
    {
      runtimeCache.Put(key, entry);
      persistentCache := persistentCache[key := entry];
    }

    /**
     * The cache half of `discoverAll`: the runtime entry for the key (a read
     * that makes it the most recently used), then the persisted one, which
     * on a hit is copied into the runtime cache.
     */
    method TryCaches(key: string, now: int, fs: FileSystem) returns (r: Lookup)
      requires Valid() && cacheLoaded
      modifies runtimeCache
      ensures Valid()
      ensures r == LookUp(config, key, old(runtimeCache.values), persistentCache, now, fs)
      ensures !config.cacheEnabled ==> runtimeCache.values == old(runtimeCache.values) && runtimeCache.order == old(runtimeCache.order)
      ensures var touched := Touch(old(runtimeCache.order), old(runtimeCache.values), key);
        config.cacheEnabled ==>
          && (r.PersistentHit? ==> runtimeCache.values == PutValues(touched, old(runtimeCache.values), runtimeCache.maxSize, key, r.entry)
                                   && runtimeCache.order == PutOrder(touched, old(runtimeCache.values), runtimeCache.maxSize, key))
          && (!r.PersistentHit? ==> runtimeCache.values == old(runtimeCache.values) && runtimeCache.order == touched)
    {
      if !config.cacheEnabled {
        return Miss;
      }
      var cached := runtimeCache.Get(key);
      if cached.Some? && IsFresh(config, cached.value, now, fs) {
        return RuntimeHit(cached.value);
      }
      if key in persistentCache && IsFresh(config, persistentCache[key], now, fs) {
        var persisted := persistentCache[key];
        runtimeCache.Put(key, persisted);
        return PersistentHit(persisted);
      }
      return Miss;
    }

    /** `discover`: the first result of `discoverAll`, or a failure when it finds nothing. */
    method Discover(sig: Signature, files: seq<WalkedFile>, find: Find, stored: Option<map<string, CacheEntry>>,
                    fs: FileSystem, now: int) returns (r: Result<DiscoveryResult, DiscoveryError>)
      requires Valid()
      modifies this, runtimeCache
      ensures Valid() && cacheLoaded
      ensures var persisted := LoadedPersistent(old(cacheLoaded), old(persistentCache), config.cacheEnabled, stored);
        r == FirstOf(Outcome(LookUp(config, KeyAsWritten(sig), old(runtimeCache.values), persisted, now, fs),
                             Computed(config, files, sig, find)))
    {
      var results := DiscoverAll(sig, files, find, stored, fs, now);
      r := FirstOf(results);
    }
  }
}
