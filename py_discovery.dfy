/**
 * The Python discovery engine's ranking: whether a candidate's kind fits
 * the requested type, how well its name fits, the score assembled from the
 * methods, decorators, bases, docstring fragments and module constraints of
 * a signature, the choice of the best match, the ordering of all matches,
 * the dotted module name of a file, and the file and directory skip rules.
 * Candidates are the output of the syntax-tree walk, given here as values;
 * regular-expression search is a parameter.
 */
module PyDiscovery {
  import opened Text
  import opened StableSort

  /**
   * A structural query. Absent optional text (`None`) and the empty string
   * are both represented by "", as the engine tests them by truthiness;
   * absent sequences are empty, as the dataclass normalises them.
   */
  datatype Signature = Signature(
    name: string,
    kind: string,
    methods: seq<string>,
    moduleName: string,
    modulePattern: string,
    decorators: seq<string>,
    bases: seq<string>,
    docstringContains: seq<string>,
    regex: bool,
    caseSensitive: bool)

  /** A class or function found in a file, before scoring. */
  datatype Candidate = Candidate(
    name: string,
    kind: string,
    moduleName: string,
    fileStem: string,
    methods: seq<string>,
    decorators: seq<string>,
    bases: seq<string>,
    docstring: Option<string>)

  /** A candidate that scored above zero, with its score. */
  datatype Match = Match(candidate: Candidate, score: real)

  datatype DiscoveryError = CouldNotLocate

  /** Regular-expression search: pattern, subject, ignore case. */
  type Search = (string, string, bool) -> bool

  // ---------------------------------------------------------------------
  // Type and name matching
  // ---------------------------------------------------------------------

  /** The requested type, defaulting to "class", compared case-insensitively. */
  function TypeMatches(requested: string, actual: string): bool {
    var req := Lower(if requested == "" then "class" else requested);
    var act := Lower(actual);
    if req == "any" || req == "*" then true
    else if req == "class" then act == "class"
    else if req == "function" then act == "function" || act == "async_function"
    else req == act
  }

  lemma LowerOfLowerCase(s: string)
    requires forall i :: 0 <= i < |s| ==> !IsUpper(s[i])
    ensures Lower(s) == s
  {
  }

  /** The rules of the type table, as seen from the candidate's side. */
  lemma TypeMatchesRules(actual: string)
    ensures TypeMatches("any", actual) && TypeMatches("*", actual)
    ensures TypeMatches("", actual) == TypeMatches("class", actual)
    ensures TypeMatches("class", actual) <==> Lower(actual) == "class"
    ensures TypeMatches("function", actual) <==> Lower(actual) == "function" || Lower(actual) == "async_function"
  {
    LowerOfLowerCase("any");
    LowerOfLowerCase("*");
    LowerOfLowerCase("class");
    LowerOfLowerCase("function");
  }

  /** Any non-empty type accepts a candidate of that same type, in any letter case. */
  lemma TypeMatchesItself(kind: string, actual: string)
    requires kind != "" && Lower(actual) == Lower(kind)
    ensures TypeMatches(kind, actual)
  {
    var req := Lower(kind);
    LowerOfLowerCase("class");
    LowerOfLowerCase("function");
  }

  /** The candidate name and the query name as compared: lower-cased unless case-sensitive. */
  function Folded(s: string, caseSensitive: bool): string {
    if caseSensitive then s else Lower(s)
  }

  /** The name score: 0.6 for a regex hit; otherwise exact 0.7, prefix 0.5, suffix 0.4, substring 0.3. */
  function NameScore(candidateName: string, sig: Signature, search: Search): real {
    if sig.regex then
      (if search(sig.name, candidateName, !sig.caseSensitive) then 0.6 else 0.0)
    else
      var c := Folded(candidateName, sig.caseSensitive);
      var t := Folded(sig.name, sig.caseSensitive);
      if c == t then 0.7
      else if StartsWith(c, t) then 0.5
      else if EndsWith(c, t) then 0.4
      else if Contains(c, t) then 0.3
      else 0.0
  }

  /** A plain name scores above zero exactly when the query occurs in the candidate's name. */
  lemma NameScoreMeans(candidateName: string, sig: Signature, search: Search)
    requires !sig.regex
    ensures var c := Folded(candidateName, sig.caseSensitive);
            var t := Folded(sig.name, sig.caseSensitive);
            (NameScore(candidateName, sig, search) > 0.0 <==> Contains(c, t))
            && (NameScore(candidateName, sig, search) == 0.7 <==> c == t)
            && NameScore(candidateName, sig, search) <= 0.7
  {
    var c := Folded(candidateName, sig.caseSensitive);
    var t := Folded(sig.name, sig.caseSensitive);
    if c == t {
      PrefixContained(c, t);
    } else if StartsWith(c, t) {
      PrefixContained(c, t);
    } else if EndsWith(c, t) {
      SuffixContained(c, t);
    }
  }

  /** Without case sensitivity, the letter case of the candidate's name does not matter. */
  lemma NameScoreIgnoresCase(candidateName: string, sig: Signature, search: Search)
    requires !sig.regex && !sig.caseSensitive
    ensures NameScore(Lower(candidateName), sig, search) == NameScore(candidateName, sig, search)
  {
    LowerIdempotent(candidateName);
  }

  // ---------------------------------------------------------------------
  // The score of a candidate
  // ---------------------------------------------------------------------

  /** How many entries of `required` occur in `have` (repeated entries count each time). */
  function Count(required: seq<string>, have: seq<string>): (n: nat)
    ensures n <= |required|
    ensures n == |required| <==> forall i :: 0 <= i < |required| ==> required[i] in have
  {
    if required == [] then 0
    else
      var init := required[..|required| - 1];
      var n := Count(init, have) + (if required[|required| - 1] in have then 1 else 0);
      assert forall i :: 0 <= i < |init| ==> init[i] == required[i];
      n
  }

  /** How many docstring fragments occur, case-insensitively, in the docstring. */
  function DocCount(fragments: seq<string>, docstring: string): (n: nat)
    ensures n <= |fragments|
  {
    if fragments == [] then 0
    else
      DocCount(fragments[..|fragments| - 1], docstring)
      + (if Contains(docstring, Lower(fragments[|fragments| - 1])) then 1 else 0)
  }

  /** The methods bonus, or None when fewer than half the required methods are present. */
  function MethodBonus(sig: Signature, c: Candidate): Option<real> {
    if sig.methods == [] then Some(0.0)
    else
      var matches := Count(sig.methods, c.methods);
      if matches != |sig.methods| then
        var ratio := matches as real / |sig.methods| as real;
        if ratio < 0.5 then None else Some(0.2 * ratio)
      else Some(0.3)
  }

  /** All-or-nothing bonus: `bonus` when every required entry is present, None otherwise. */
  function RequiredBonus(required: seq<string>, have: seq<string>, bonus: real): Option<real> {
    if required == [] then Some(0.0)
    else if Count(required, have) != |required| then None
    else Some(bonus)
  }

  function DocBonus(sig: Signature, c: Candidate): real {
    var doc := Lower(if c.docstring.Some? then c.docstring.value else "");
    0.02 * DocCount(sig.docstringContains, doc) as real
  }

  /** An exact module wins over a module pattern; a mismatch in the one that applies rejects. */
  function ModuleBonus(sig: Signature, c: Candidate, search: Search): Option<real> {
    if sig.moduleName != "" then
      (if c.moduleName != sig.moduleName then None else Some(0.1))
    else if sig.modulePattern != "" then
      (if !search(sig.modulePattern, c.moduleName, false) then None else Some(0.05))
    else Some(0.0)
  }

  function StemBonus(sig: Signature, c: Candidate): real {
    if Lower(c.fileStem) == Lower(sig.name) then 0.02 else 0.0
  }

  /** The score of `c` against `sig`; zero means rejected. */
  function ScoreOf(c: Candidate, sig: Signature, search: Search): real {
    if !TypeMatches(sig.kind, c.kind) then 0.0
    else
      var ns := NameScore(c.name, sig, search);
      var mb := MethodBonus(sig, c);
      var db := RequiredBonus(sig.decorators, c.decorators, 0.05);
      var bb := RequiredBonus(sig.bases, c.bases, 0.1);
      var modb := ModuleBonus(sig, c, search);
      if ns == 0.0 || mb.None? || db.None? || bb.None? || modb.None? then 0.0
      else ns + mb.value + db.value + bb.value + DocBonus(sig, c) + modb.value + StemBonus(sig, c)
  }

  /** Python's `sum(1 for r in required if r in have)`. */
  method CountPresent(required: seq<string>, have: seq<string>) returns (n: nat)
    ensures n == Count(required, have)
  {
    n := 0;
    for k := 0 to |required|
      invariant n == Count(required[..k], have)
    {
      assert required[..k + 1][..k] == required[..k];
      if required[k] in have {
        n := n + 1;
      }
    }
    assert required[..|required|] == required;
  }

  method CountFragments(fragments: seq<string>, docstring: string) returns (n: nat)
    ensures n == DocCount(fragments, docstring)
  {
    n := 0;
    for k := 0 to |fragments|
      invariant n == DocCount(fragments[..k], docstring)
    {
      assert fragments[..k + 1][..k] == fragments[..k];
      if Contains(docstring, Lower(fragments[k])) {
        n := n + 1;
      }
    }
    assert fragments[..|fragments|] == fragments;
  }

  /** The methods step of `_score_candidate`: None rejects, otherwise the amount added. */
  method MethodsStep(sig: Signature, c: Candidate) returns (bonus: Option<real>)
    ensures bonus == MethodBonus(sig, c)
  {
    if sig.methods == [] {
      return Some(0.0);
    }
    var matches := CountPresent(sig.methods, c.methods);
    if matches != |sig.methods| {
      var ratio := matches as real / |sig.methods| as real;
      if ratio < 0.5 {
        return None;
      }
      return Some(0.2 * ratio);
    }
    return Some(0.3);
  }

  /** The decorators and bases steps: every required entry present, or rejection. */
  method RequiredStep(required: seq<string>, have: seq<string>, amount: real) returns (bonus: Option<real>)
    ensures bonus == RequiredBonus(required, have, amount)
  {
    if required == [] {
      return Some(0.0);
    }
    var found := CountPresent(required, have);
    if found != |required| {
      return None;
    }
    return Some(amount);
  }

  /** `_score_candidate`: accumulate the bonuses, returning 0 at the first rejection. */
  method ScoreCandidate(c: Candidate, sig: Signature, search: Search) returns (score: real)
    ensures score == ScoreOf(c, sig, search)
  {
    if !TypeMatches(sig.kind, c.kind) {
      return 0.0;
    }
    var nameScore := NameScore(c.name, sig, search);
    if nameScore == 0.0 {
      return 0.0;
    }
    score := nameScore;
    var methods := MethodsStep(sig, c);
    if methods.None? {
      return 0.0;
    }
    score := score + methods.value;
    var decorators := RequiredStep(sig.decorators, c.decorators, 0.05);
    if decorators.None? {
      return 0.0;
    }
    score := score + decorators.value;
    var bases := RequiredStep(sig.bases, c.bases, 0.1);
    if bases.None? {
      return 0.0;
    }
    score := score + bases.value;
    var docstring := Lower(if c.docstring.Some? then c.docstring.value else "");
    var docMatches := CountFragments(sig.docstringContains, docstring);
    score := score + 0.02 * docMatches as real;
    if sig.moduleName != "" {
      if c.moduleName != sig.moduleName {
        return 0.0;
      }
      score := score + 0.1;
    } else if sig.modulePattern != "" {
      if !search(sig.modulePattern, c.moduleName, false) {
        return 0.0;
      }
      score := score + 0.05;
    }
    if Lower(c.fileStem) == Lower(sig.name) {
      score := score + 0.02;
    }
  }

  /** A type mismatch or a zero name score rejects; otherwise a kept score is at least the name score. */
  lemma ScoreBounds(c: Candidate, sig: Signature, search: Search)
    ensures !TypeMatches(sig.kind, c.kind) ==> ScoreOf(c, sig, search) == 0.0
    ensures NameScore(c.name, sig, search) == 0.0 ==> ScoreOf(c, sig, search) == 0.0
    ensures ScoreOf(c, sig, search) >= 0.0
    ensures ScoreOf(c, sig, search) > 0.0 ==> ScoreOf(c, sig, search) >= NameScore(c.name, sig, search)
  {
  }

  lemma DivBelow(x: real, len: real, bound: real)
    requires len > 0.0 && x < bound * len
    ensures x / len < bound
  {
    var q := x / len;
    assert q * len == x;
    if q >= bound {
      assert q * len >= bound * len;
    }
  }

  /** Fewer than half of the required methods present: rejected. */
  lemma FewMethodsRejected(c: Candidate, sig: Signature, search: Search)
    requires 2 * Count(sig.methods, c.methods) < |sig.methods|
    ensures ScoreOf(c, sig, search) == 0.0
  {
    DivBelow(Count(sig.methods, c.methods) as real, |sig.methods| as real, 0.5);
  }

  /** All required methods present: the full 0.3 methods bonus. */
  lemma AllMethodsBonus(c: Candidate, sig: Signature, search: Search)
    requires sig.methods != []
    requires forall i :: 0 <= i < |sig.methods| ==> sig.methods[i] in c.methods
    requires ScoreOf(c, sig, search) > 0.0
    ensures ScoreOf(c, sig, search) >= NameScore(c.name, sig, search) + 0.3
  {
  }

  /** A missing required decorator or base rejects the candidate. */
  lemma MissingDecoratorOrBaseRejected(c: Candidate, sig: Signature, search: Search, x: string)
    requires (x in sig.decorators && x !in c.decorators) || (x in sig.bases && x !in c.bases)
    ensures ScoreOf(c, sig, search) == 0.0
  {
  }

  /** With an exact module, the module pattern is never consulted and a different module rejects. */
  lemma ModuleTakesPrecedence(c: Candidate, sig: Signature, search: Search)
    requires sig.moduleName != ""
    ensures ScoreOf(c, sig, search) == ScoreOf(c, sig.(modulePattern := ""), search)
    ensures c.moduleName != sig.moduleName ==> ScoreOf(c, sig, search) == 0.0
  {
  }

  /**
   * Two candidates that differ only in name and methods: the one named
   * exactly as queried with all methods outranks one with some missing.
   */
  lemma ExactFullOutranksPartial(a: Candidate, b: Candidate, sig: Signature, search: Search)
    requires !sig.regex && sig.methods != []
    requires TypeMatches(sig.kind, a.kind)
    requires a.name == sig.name
    requires forall i :: 0 <= i < |sig.methods| ==> sig.methods[i] in a.methods
    requires Count(sig.methods, b.methods) < |sig.methods|
    requires a.(name := b.name, methods := b.methods) == b
    requires ScoreOf(b, sig, search) > 0.0
    ensures ScoreOf(b, sig, search) < ScoreOf(a, sig, search)
  {
    NameScoreMeans(b.name, sig, search);
    NameScoreMeans(a.name, sig, search);
    PartialMethodBonus(sig, b);
    assert MethodBonus(sig, a) == Some(0.3);
    assert RequiredBonus(sig.decorators, a.decorators, 0.05) == RequiredBonus(sig.decorators, b.decorators, 0.05);
    assert RequiredBonus(sig.bases, a.bases, 0.1) == RequiredBonus(sig.bases, b.bases, 0.1);
    assert DocBonus(sig, a) == DocBonus(sig, b) && StemBonus(sig, a) == StemBonus(sig, b);
    assert ModuleBonus(sig, a, search) == ModuleBonus(sig, b, search);
  }

  /** Some required method missing: the method bonus, when it does not reject, stays below the full 0.3. */
  lemma PartialMethodBonus(sig: Signature, c: Candidate)
    requires sig.methods != [] && Count(sig.methods, c.methods) < |sig.methods|
    ensures MethodBonus(sig, c).Some? ==> MethodBonus(sig, c).value < 0.3
  {
    DivBelow(Count(sig.methods, c.methods) as real, |sig.methods| as real, 1.0);
  }

  // ---------------------------------------------------------------------
  // Choosing and ordering matches
  // ---------------------------------------------------------------------

  /** The candidates that score above zero, in walk order, with their scores. */
  function MatchCandidates(cands: seq<Candidate>, sig: Signature, search: Search): (r: seq<Match>)
    ensures forall i :: 0 <= i < |r| ==> r[i].score > 0.0 && r[i].score == ScoreOf(r[i].candidate, sig, search)
    ensures forall c :: c in cands && ScoreOf(c, sig, search) > 0.0 ==> Match(c, ScoreOf(c, sig, search)) in r
  {
    if cands == [] then []
    else
      var init := MatchCandidates(cands[..|cands| - 1], sig, search);
      var c := cands[|cands| - 1];
      var s := ScoreOf(c, sig, search);
      assert forall x :: x in cands ==> x in cands[..|cands| - 1] || x == c;
      if s > 0.0 then init + [Match(c, s)] else init
  }

  /** Candidates are scored independently: walk order and repetitions are kept. */
  lemma {:induction false} MatchCandidatesAppend(a: seq<Candidate>, b: seq<Candidate>, sig: Signature, search: Search)
    ensures MatchCandidates(a + b, sig, search) == MatchCandidates(a, sig, search) + MatchCandidates(b, sig, search)
    decreases |b|
  {
    if b == [] {
      assert a + b == a;
    } else {
      assert (a + b)[..|a + b| - 1] == a + b[..|b| - 1];
      assert (a + b)[|a + b| - 1] == b[|b| - 1];
      MatchCandidatesAppend(a, b[..|b| - 1], sig, search);
    }
  }

  /** One candidate yields its match exactly when it scores above zero. */
  lemma MatchCandidatesOne(c: Candidate, sig: Signature, search: Search)
    ensures MatchCandidates([c], sig, search) ==
      if ScoreOf(c, sig, search) > 0.0 then [Match(c, ScoreOf(c, sig, search))] else []
  {
    assert [c][..0] == [];
  }

  function ScoreKey(m: Match): real { m.score }

  /** `i` is the first position holding the highest score. */
  ghost predicate FirstBest(matches: seq<Match>, i: int) {
    0 <= i < |matches|
    && (forall j :: 0 <= j < |matches| ==> matches[j].score <= matches[i].score)
    && (forall j :: 0 <= j < i ==> matches[j].score < matches[i].score)
  }

  /** `_best_match`: keep the first candidate with a strictly higher score. */
  method BestMatch(matches: seq<Match>) returns (r: Result<Match, DiscoveryError>)
    ensures r.Err? <==> matches == []
    ensures r.Ok? ==> exists i :: FirstBest(matches, i) && matches[i] == r.value
  {
    if matches == [] {
      return Err(CouldNotLocate);
    }
    var best := 0;
    for k := 1 to |matches|
      invariant FirstBest(matches[..k], best)
    {
      if matches[k].score > matches[best].score {
        best := k;
      }
    }
    assert matches[..|matches|] == matches;
    return Ok(matches[best]);
  }

  /** `discover_all`: every match, highest score first, ties in walk order. */
  function DiscoverAll(matches: seq<Match>): (r: Result<seq<Match>, DiscoveryError>)
    ensures r.Err? <==> matches == []
    ensures r.Ok? ==> multiset(r.value) == multiset(matches)
  {
    if matches == [] then Err(CouldNotLocate) else Ok(SortDesc(matches, ScoreKey))
  }

  /** The order of `discover_all`: non-increasing scores, ties kept in walk order. */
  lemma DiscoverAllOrdered(matches: seq<Match>, k: real)
    requires matches != []
    ensures NonIncreasing(DiscoverAll(matches).value, ScoreKey)
    ensures WithKey(DiscoverAll(matches).value, k, ScoreKey) == WithKey(matches, k, ScoreKey)
  {
    SortDescSorted(matches, ScoreKey);
    SortDescStable(matches, k, ScoreKey);
  }

  /** The best match is the head of `discover_all`'s list. */
  lemma BestMatchHeadsDiscoverAll(matches: seq<Match>, i: int)
    requires FirstBest(matches, i)
    ensures DiscoverAll(matches).value[0] == matches[i]
  {
    HeadIsFirstMaximal(matches, i, ScoreKey);
  }

  // ---------------------------------------------------------------------
  // Module names and skipped paths
  // ---------------------------------------------------------------------

  /**
   * The dotted module of a file, from the parts of its root-relative path:
   * a package's `__init__.py` names the package; otherwise the last part
   * loses its three-character `.py` suffix (Python's `[:-3]`, which yields ""
   * on a shorter part).
   */
  function ModuleNameFor(parts: seq<string>): string
    requires parts != []
  {
    var last := parts[|parts| - 1];
    if last == "__init__.py" then Join(parts[..|parts| - 1], ".")
    else Join(parts[..|parts| - 1] + [if |last| >= 3 then last[..|last| - 3] else ""], ".")
  }

  lemma ModuleNameForFile(dirs: seq<string>, stem: string)
    requires stem + ".py" != "__init__.py"
    ensures ModuleNameFor(dirs + [stem + ".py"]) == Join(dirs + [stem], ".")
    ensures dirs != [] ==> ModuleNameFor(dirs + [stem + ".py"]) == Join(dirs, ".") + "." + stem
  {
    var parts := dirs + [stem + ".py"];
    assert parts[..|parts| - 1] == dirs;
    assert (stem + ".py")[..|stem + ".py"| - 3] == stem;
    if dirs != [] {
      JoinAppend(dirs, stem, ".");
    }
  }

  lemma ModuleNameForPackage(dirs: seq<string>)
    ensures ModuleNameFor(dirs + ["__init__.py"]) == Join(dirs, ".")
  {
    assert (dirs + ["__init__.py"])[..|dirs|] == dirs;
  }

  /** Some pattern is a prefix of `rel` (Python's `any(rel.startswith(p) for p in ignore)`). */
  function AnyPrefix(rel: string, patterns: seq<string>): (b: bool)
    ensures b <==> exists p :: p in patterns && StartsWith(rel, p)
  {
    if patterns == [] then false
    else StartsWith(rel, patterns[0]) || AnyPrefix(rel, patterns[1..])
  }

  /** A test file (`test_*` or `*_test.py`) or one under an ignored path is skipped. */
  function ShouldSkipFile(fileName: string, relPath: string, ignore: seq<string>): bool {
    StartsWith(fileName, "test_") || EndsWith(fileName, "_test.py") || AnyPrefix(relPath, ignore)
  }

  const DefaultIgnores: set<string> := {"__pycache__", "node_modules", "build", "dist", "venv", ".venv", ".git"}

  /** The root is never skipped; hidden and default-ignored directories and ignored paths are. */
  function ShouldSkipDirectory(parts: seq<string>, ignore: seq<string>): bool {
    if parts == [] then false
    else
      var name := parts[|parts| - 1];
      if StartsWith(name, ".") && name != "." && name != ".." then true
      else if name in DefaultIgnores then true
      else AnyPrefix(Join(parts, "/"), ignore)
  }

  lemma SkipFileRules(fileName: string, relPath: string, ignore: seq<string>)
    ensures ignore == [] ==> (ShouldSkipFile(fileName, relPath, ignore) <==> StartsWith(fileName, "test_") || EndsWith(fileName, "_test.py"))
    ensures (exists p :: p in ignore && StartsWith(relPath, p)) ==> ShouldSkipFile(fileName, relPath, ignore)
  {
  }

  lemma SkipDirectoryRules(parts: seq<string>, ignore: seq<string>)
    ensures !ShouldSkipDirectory([], ignore)
    ensures parts != [] && parts[|parts| - 1] in DefaultIgnores ==> ShouldSkipDirectory(parts, ignore)
    ensures parts != [] && (exists p :: p in ignore && StartsWith(Join(parts, "/"), p)) ==> ShouldSkipDirectory(parts, ignore)
  {
  }
}
