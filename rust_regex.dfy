/**
 * The regex producer of the Rust metadata bridge (`parse_with_regex`).
 *
 * Every pattern is anchored at a line start (`(?m)^`), so a match is read
 * here line by line: `Decl` is the pattern `^\s*(pub\s+)?KW\s+(\w+)` for
 * struct, enum, trait, mod, const and type, `Fn` the function pattern with its
 * four optional keyword groups, and `Use` the `use` pattern. Each optional
 * group is tried greedily; backtracking over a group never helps, because the
 * next token of the pattern would then have to match where the group's own
 * keyword starts, and no two of the keywords begin alike.
 */
module RustRegex {
  import opened Text
  import opened RustSchema
  import opened LineSplit


  /** `\w+` taken greedily: the longest prefix of word characters. */
  function WordPrefix(s: string): (r: string)
    ensures |r| <= |s| && r == s[..|r|]
    ensures forall i :: 0 <= i < |r| ==> IsWordChar(r[i])
    ensures |r| == |s| || !IsWordChar(s[|r|])
  {
    if |s| > 0 && IsWordChar(s[0]) then [s[0]] + WordPrefix(s[1..]) else []
  }

  /** `KW\s+` at the start of `s`: the text after the keyword and all the
      whitespace that follows it, or None. */
  function AfterKeyword(s: string, kw: string): (r: Option<string>)
    ensures r.Some? <==> StartsWith(s, kw) && |s| > |kw| && IsSpace(s[|kw|])
    ensures r.Some? ==> r.value == TrimStart(s[|kw|..])
  {
    if StartsWith(s, kw) && |s| > |kw| && IsSpace(s[|kw|]) then Some(TrimStart(s[|kw|..])) else None
  }

  /** `(KW\s+)?`: whether the group matched, and the text after it. */
  function OptionalKeyword(s: string, kw: string): (bool, string) {
    match AfterKeyword(s, kw)
    case Some(t) => (true, t)
    case None => (false, s)
  }

  /** `KW\s+(\w+)`: the captured name, if the keyword, whitespace and at least
      one word character are there. */
  function NameAfter(s: string, kw: string): Option<string> {
    match AfterKeyword(s, kw)
    case None => None
    case Some(t) => var name := WordPrefix(t); if name == [] then None else Some(name)
  }

  /** `^\s*(pub\s+)?KW\s+(\w+)` on one line: whether the `pub` group matched, and the name. */
  function Decl(line: string, kw: string): Option<(bool, string)> {
    var (isPub, s) := OptionalKeyword(TrimStart(line), "pub");
    match NameAfter(s, kw)
    case None => None
    case Some(name) => Some((isPub, name))
  }

  /** `^\s*(pub\s+)?(async\s+)?(const\s+)?(unsafe\s+)?fn\s+(\w+)` on one line. */
  function Fn(line: string): (r: Option<FunctionInfo>)
    ensures r.Some? ==> r.value.generics == [] && r.value.params == [] && r.value.returnType == None
  {
    FnFrom(TrimStart(line))
  }

  /** The function pattern after the leading blanks, one optional keyword
      group at a time. */
  function FnFrom(s0: string): (r: Option<FunctionInfo>)
    ensures r.Some? ==> r.value.generics == [] && r.value.params == [] && r.value.returnType == None
  {
    var (isPub, s1) := OptionalKeyword(s0, "pub");
    FnAsync(isPub, s1)
  }

  function FnAsync(isPub: bool, s1: string): (r: Option<FunctionInfo>)
    ensures r.Some? ==> r.value.generics == [] && r.value.params == [] && r.value.returnType == None
  {
    var (isAsync, s2) := OptionalKeyword(s1, "async");
    FnConst(isPub, isAsync, s2)
  }

  function FnConst(isPub: bool, isAsync: bool, s2: string): (r: Option<FunctionInfo>)
    ensures r.Some? ==> r.value.generics == [] && r.value.params == [] && r.value.returnType == None
  {
    var (isConst, s3) := OptionalKeyword(s2, "const");
    FnUnsafe(isPub, isAsync, isConst, s3)
  }

  function FnUnsafe(isPub: bool, isAsync: bool, isConst: bool, s3: string): (r: Option<FunctionInfo>)
    ensures r.Some? ==> r.value.generics == [] && r.value.params == [] && r.value.returnType == None
  {
    var (isUnsafe, s4) := OptionalKeyword(s3, "unsafe");
    match NameAfter(s4, "fn")
    case None => None
    case Some(name) => Some(FunctionInfo(name, isPub, isAsync, isConst, isUnsafe, [], [], None))
  }

  /** `^\s*use\s+([^;]+);` on one line: `\s+` is greedy, and gives back one
      blank only when the `;` follows the blanks at once. */
  function Use(line: string): Option<string> {
    var s := TrimStart(line);
    if !(StartsWith(s, "use") && |s| > 3 && IsSpace(s[3])) then None
    else
      var t := s[3..];
      var k := |t| - |TrimStart(t)|;
      match IndexOf(t, ';')
      case None => None
      case Some(j) =>
        if j > k then Some(t[k..j])
        else if k >= 2 && j == k then Some(t[k - 1..j])
        else None
  }

  function StructAt(line: string): (r: Option<StructInfo>)
    ensures r.Some? ==> r.value.generics == [] && r.value.fields == [] && r.value.derives == []
  {
    match Decl(line, "struct") case Some((p, n)) => Some(StructInfo(n, p, [], [], [])) case None => None
  }

  function EnumAt(line: string): (r: Option<EnumInfo>)
    ensures r.Some? ==> r.value.generics == [] && r.value.variants == [] && r.value.derives == []
  {
    match Decl(line, "enum") case Some((p, n)) => Some(EnumInfo(n, p, [], [], [])) case None => None
  }

  function TraitAt(line: string): (r: Option<TraitInfo>)
    ensures r.Some? ==> r.value.generics == [] && r.value.methods == []
  {
    match Decl(line, "trait") case Some((p, n)) => Some(TraitInfo(n, p, [], [])) case None => None
  }

  function ModuleAt(line: string): Option<ModuleInfo> {
    match Decl(line, "mod") case Some((p, n)) => Some(ModuleInfo(n, p)) case None => None
  }

  function ConstantAt(line: string): (r: Option<ConstantInfo>)
    ensures r.Some? ==> r.value.ty == None
  {
    match Decl(line, "const") case Some((p, n)) => Some(ConstantInfo(n, p, None)) case None => None
  }

  function TypeAt(line: string): Option<TypeInfo> {
    match Decl(line, "type") case Some((p, n)) => Some(TypeInfo(n, p)) case None => None
  }

  /** The matches of one pattern over the lines, in line order. */
  function Matches<T>(lines: seq<string>, f: string -> Option<T>): (r: seq<T>)
    ensures |r| <= |lines|
  {
    if lines == [] then []
    else
      var rest := Matches(lines[..|lines| - 1], f);
      match f(lines[|lines| - 1])
      case Some(x) => rest + [x]
      case None => rest
  }

  /** Every match comes from some line. */
  lemma {:induction false} MatchesFromLines<T>(lines: seq<string>, f: string -> Option<T>, k: nat)
    requires k < |Matches(lines, f)|
    ensures exists i :: 0 <= i < |lines| && f(lines[i]) == Some(Matches(lines, f)[k])
    decreases |lines|
  {
    var init := lines[..|lines| - 1];
    var rest := Matches(init, f);
    if k < |rest| {
      MatchesFromLines(init, f, k);
      var i :| 0 <= i < |init| && f(init[i]) == Some(rest[k]);
      assert lines[i] == init[i];
    } else {
      assert f(lines[|lines| - 1]) == Some(Matches(lines, f)[k]);
    }
  }

  /** One `captures_iter` loop: every match of the pattern is pushed in order. */
  method CollectMatches<T>(lines: seq<string>, f: string -> Option<T>) returns (out: seq<T>)
    ensures out == Matches(lines, f)
  {
    out := [];
    for i := 0 to |lines|
      invariant out == Matches(lines[..i], f)
    {
      assert lines[..i + 1][..i] == lines[..i];
      match f(lines[i])
      case Some(x) => out := out + [x];
      case None =>
    }
    assert lines[..|lines|] == lines;
  }

  /** The metadata the regex tier builds from a file's text. */
  function RegexMetadata(content: string): Metadata {
    var lines := SplitLines(content);
    Metadata(Matches(lines, StructAt), Matches(lines, EnumAt), Matches(lines, TraitAt), Matches(lines, Fn),
      [], Matches(lines, ModuleAt), Matches(lines, Use), Matches(lines, ConstantAt), Matches(lines, TypeAt))
  }

  /** `parse_with_regex`: a read error is passed on; otherwise each pattern is
      run over the whole text in turn. */
  method ParseWithRegex(content: Result<string, string>) returns (r: Result<Metadata, string>)
    ensures content.Err? ==> r == Err(content.error)
    ensures content.Ok? ==> r == Ok(RegexMetadata(content.value))
  {
    if content.Err? {
      return Err(content.error);
    }
    var lines := SplitLines(content.value);
    var structs := CollectMatches(lines, StructAt);
    var enums := CollectMatches(lines, EnumAt);
    var traits := CollectMatches(lines, TraitAt);
    var functions := CollectMatches(lines, Fn);
    var uses := CollectMatches(lines, Use);
    var modules := CollectMatches(lines, ModuleAt);
    var constants := CollectMatches(lines, ConstantAt);
    var types := CollectMatches(lines, TypeAt);
    var metadata := Metadata(structs, enums, traits, functions, [], modules, uses, constants, types);
    return Ok(metadata);
  }

  // ---------------------------------------------------------------------
  // Properties of the regex tier
  // ---------------------------------------------------------------------

  /** The regex tier fills names and flags only: no generics, fields, variants,
      methods, parameters, return types, constant types or impls. */
  lemma RegexNamesOnly(content: string)
    ensures NamesOnly(RegexMetadata(content))
  {
    var lines := SplitLines(content);
    var m := RegexMetadata(content);
    forall k | 0 <= k < |m.structs| ensures m.structs[k].generics == [] && m.structs[k].fields == [] && m.structs[k].derives == [] {
      MatchesFromLines(lines, StructAt, k);
    }
    forall k | 0 <= k < |m.enums| ensures m.enums[k].generics == [] && m.enums[k].variants == [] && m.enums[k].derives == [] {
      MatchesFromLines(lines, EnumAt, k);
    }
    forall k | 0 <= k < |m.traits| ensures m.traits[k].generics == [] && m.traits[k].methods == [] {
      MatchesFromLines(lines, TraitAt, k);
    }
    forall k | 0 <= k < |m.functions|
      ensures m.functions[k].generics == [] && m.functions[k].params == [] && m.functions[k].returnType == None
    {
      MatchesFromLines(lines, Fn, k);
    }
    forall k | 0 <= k < |m.constants| ensures m.constants[k].ty == None {
      MatchesFromLines(lines, ConstantAt, k);
    }
  }

  /** Every recorded name is a non-empty run of word characters, and the entry
      is public exactly when the `pub` group matched. */
  lemma DeclMeans(line: string, kw: string)
    requires Decl(line, kw).Some?
    ensures var (isPub, name) := Decl(line, kw).value;
      name != [] && (forall i :: 0 <= i < |name| ==> IsWordChar(name[i])) &&
      (isPub <==> AfterKeyword(TrimStart(line), "pub").Some?)
  {
  }

  /** A declaration line in the shape the pattern expects: leading blanks,
      `pub ` when public, the keyword, one blank, the name and the rest. */
  function DeclLine(indent: string, isPub: bool, kw: string, name: string, rest: string): string {
    indent + ((if isPub then "pub " else "") + (kw + " " + (name + rest)))
  }

  /** A declaration line written out in the expected shape is recognised with
      its name and visibility, whatever follows the name as long as it does
      not continue it. */
  lemma DeclRoundTrip(indent: string, isPub: bool, kw: string, name: string, rest: string)
    requires forall i :: 0 <= i < |indent| ==> IsSpace(indent[i])
    requires kw != [] && (forall i :: 0 <= i < |kw| ==> IsWordChar(kw[i])) && !StartsWith(kw, "pub")
    requires name != [] && forall i :: 0 <= i < |name| ==> IsWordChar(name[i])
    requires rest == [] || !IsWordChar(rest[0])
    ensures Decl(DeclLine(indent, isPub, kw, name, rest), kw) == Some((isPub, name))
  {
    var decl := kw + " " + (name + rest);
    KeywordThenName(kw, name, rest);
    assert decl[..|kw|] == kw && decl[|kw|] == ' ' && decl[0] == kw[0];
    if isPub {
      PubDeclLine(indent, decl, kw, name);
    } else {
      PlainDeclLine(indent, decl, kw, name);
    }
  }

  /** A visible declaration: the blanks are skipped and `pub` is taken. */
  lemma PubDeclLine(indent: string, decl: string, kw: string, name: string)
    requires forall i :: 0 <= i < |indent| ==> IsSpace(indent[i])
    requires decl != [] && !IsSpace(decl[0])
    requires NameAfter(decl, kw) == Some(name)
    ensures Decl(indent + ("pub " + decl), kw) == Some((true, name))
  {
    PubGroup(decl);
    TrimStartSkips(indent, "pub " + decl);
  }

  /** A private declaration: the blanks are skipped and no `pub` is taken. */
  lemma PlainDeclLine(indent: string, decl: string, kw: string, name: string)
    requires forall i :: 0 <= i < |indent| ==> IsSpace(indent[i])
    requires StartsWith(decl, kw) && |decl| > |kw| && decl[|kw|] == ' '
    requires kw != [] && (forall i :: 0 <= i < |kw| ==> IsWordChar(kw[i])) && !StartsWith(kw, "pub")
    requires NameAfter(decl, kw) == Some(name)
    ensures Decl(indent + ("" + decl), kw) == Some((false, name))
  {
    NoPubGroup(decl, kw);
    assert decl[0] == kw[0];
    TrimStartSkips(indent, "" + decl);
  }

  /** `KW\s+(\w+)` finds the name written one blank after the keyword. */
  lemma KeywordThenName(kw: string, name: string, rest: string)
    requires name != [] && forall i :: 0 <= i < |name| ==> IsWordChar(name[i])
    requires rest == [] || !IsWordChar(rest[0])
    ensures NameAfter(kw + " " + (name + rest), kw) == Some(name)
  {
    var tail := name + rest;
    assert tail[0] == name[0];
    assert !IsSpace(tail[0]);
    KeywordPresent(kw + " " + tail, kw, tail);
    WordPrefixOf(name, rest);
  }

  lemma PubGroup(decl: string)
    requires decl != [] && !IsSpace(decl[0])
    ensures OptionalKeyword("pub " + decl, "pub") == (true, decl)
  {
    assert "pub " + decl == "pub" + " " + decl;
    KeywordPresent("pub " + decl, "pub", decl);
  }

  lemma NoPubGroup(decl: string, kw: string)
    requires StartsWith(decl, kw) && |decl| > |kw| && decl[|kw|] == ' '
    requires kw != [] && (forall i :: 0 <= i < |kw| ==> IsWordChar(kw[i])) && !StartsWith(kw, "pub")
    ensures OptionalKeyword("" + decl, "pub") == (false, decl)
  {
    assert "" + decl == decl;
    if |kw| >= 3 {
      assert decl[..3] == kw[..3];
    } else {
      assert decl[|kw|] == ' ';
    }
  }

  lemma TrimStartSkips(blanks: string, s: string)
    requires forall i :: 0 <= i < |blanks| ==> IsSpace(blanks[i])
    requires s == [] || !IsSpace(s[0])
    ensures TrimStart(blanks + s) == s
    decreases |blanks|
  {
    if blanks != [] {
      assert (blanks + s)[1..] == blanks[1..] + s;
      TrimStartSkips(blanks[1..], s);
    }
  }

  lemma {:induction false} WordPrefixOf(name: string, rest: string)
    requires forall i :: 0 <= i < |name| ==> IsWordChar(name[i])
    requires rest == [] || !IsWordChar(rest[0])
    ensures WordPrefix(name + rest) == name
    decreases |name|
  {
    if name != [] {
      assert (name + rest)[1..] == name[1..] + rest;
      WordPrefixOf(name[1..], rest);
    }
  }

  /** A keyword, one blank and text that does not start with a blank. */
  lemma KeywordPresent(s: string, kw: string, rest: string)
    requires s == kw + " " + rest
    requires rest == [] || !IsSpace(rest[0])
    ensures AfterKeyword(s, kw) == Some(rest)
  {
    assert s[..|kw|] == kw && s[|kw|] == ' ';
    assert s[|kw|..] == " " + rest;
    TrimStartSkips(" ", rest);
  }

  lemma KeywordAbsent(s: string, kw: string)
    requires s != [] && kw != [] && s[0] != kw[0]
    ensures AfterKeyword(s, kw) == None
  {
  }

  /** `kw ` in front of `s` when the keyword is present. */
  function Group(present: bool, kw: string, s: string): string {
    if present then kw + " " + s else s
  }

  /** The keywords that are present, in the order the pattern expects them
      (pub, async, const, unsafe), then `fn`, the name and the rest of the line. */
  function FnWords(isPub: bool, isAsync: bool, isConst: bool, isUnsafe: bool,
                   name: string, rest: string): string {
    Group(isPub, "pub", Group(isAsync, "async", Group(isConst, "const",
      Group(isUnsafe, "unsafe", "fn" + " " + (name + rest)))))
  }

  lemma GroupStep(present: bool, kw: string, s: string)
    requires kw != [] && s != [] && !IsSpace(s[0]) && s[0] != kw[0]
    ensures OptionalKeyword(Group(present, kw, s), kw) == (present, s)
  {
    if present {
      KeywordPresent(kw + " " + s, kw, s);
    }
  }

  /** The name after `fn ` is the whole word. */
  lemma FnName(name: string, rest: string)
    requires name != [] && forall i :: 0 <= i < |name| ==> IsWordChar(name[i])
    requires rest == [] || !IsWordChar(rest[0])
    ensures NameAfter("fn" + " " + (name + rest), "fn") == Some(name)
  {
    var tail := name + rest;
    assert tail[0] == name[0];
    KeywordPresent("fn" + " " + tail, "fn", tail);
    WordPrefixOf(name, rest);
  }

  lemma UnsafeGroupRead(isPub: bool, isAsync: bool, isConst: bool, isUnsafe: bool,
                         name: string, rest: string)
    requires name != [] && forall i :: 0 <= i < |name| ==> IsWordChar(name[i])
    requires rest == [] || !IsWordChar(rest[0])
    ensures FnUnsafe(isPub, isAsync, isConst, Group(isUnsafe, "unsafe", "fn" + " " + (name + rest)))
      == Some(FunctionInfo(name, isPub, isAsync, isConst, isUnsafe, [], [], None))
  {
    var s4 := "fn" + " " + (name + rest);
    FnName(name, rest);
    assert "unsafe"[0] == 'u' && s4[0] == 'f';
    GroupStep(isUnsafe, "unsafe", s4);
  }

  lemma ConstGroupRead(isPub: bool, isAsync: bool, isConst: bool, s3: string)
    requires s3 != [] && (s3[0] == 'u' || s3[0] == 'f')
    ensures FnConst(isPub, isAsync, Group(isConst, "const", s3)) == FnUnsafe(isPub, isAsync, isConst, s3)
  {
    assert "const"[0] == 'c';
    GroupStep(isConst, "const", s3);
  }

  lemma AsyncGroupRead(isPub: bool, isAsync: bool, s2: string)
    requires s2 != [] && (s2[0] == 'c' || s2[0] == 'u' || s2[0] == 'f')
    ensures FnAsync(isPub, Group(isAsync, "async", s2)) == FnConst(isPub, isAsync, s2)
  {
    assert "async"[0] == 'a';
    GroupStep(isAsync, "async", s2);
  }

  lemma PubGroupRead(isPub: bool, s1: string)
    requires s1 != [] && (s1[0] == 'a' || s1[0] == 'c' || s1[0] == 'u' || s1[0] == 'f')
    ensures FnFrom(Group(isPub, "pub", s1)) == FnAsync(isPub, s1)
  {
    assert "pub"[0] == 'p';
    GroupStep(isPub, "pub", s1);
  }

  /** After the leading blanks, the pattern reads the keywords pub, async,
      const and unsafe in that order, each one optional, and reports exactly
      the ones written. */
  lemma FnFromRoundTrip(isPub: bool, isAsync: bool, isConst: bool, isUnsafe: bool,
                        name: string, rest: string)
    requires name != [] && forall i :: 0 <= i < |name| ==> IsWordChar(name[i])
    requires rest == [] || !IsWordChar(rest[0])
    ensures FnFrom(FnWords(isPub, isAsync, isConst, isUnsafe, name, rest))
      == Some(FunctionInfo(name, isPub, isAsync, isConst, isUnsafe, [], [], None))
  {
    var s4 := "fn" + " " + (name + rest);
    var s3 := Group(isUnsafe, "unsafe", s4);
    var s2 := Group(isConst, "const", s3);
    var s1 := Group(isAsync, "async", s2);
    UnsafeGroupRead(isPub, isAsync, isConst, isUnsafe, name, rest);
    assert s3[0] == 'u' || s3[0] == 'f';
    ConstGroupRead(isPub, isAsync, isConst, s3);
    assert s2[0] == 'c' || s2[0] == 'u' || s2[0] == 'f';
    AsyncGroupRead(isPub, isAsync, s2);
    assert s1[0] == 'a' || s1[0] == 'c' || s1[0] == 'u' || s1[0] == 'f';
    PubGroupRead(isPub, s1);
  }

  /** A function line: leading blanks, then the keywords that are present in
      the order the pattern expects them, then `fn`, the name and the rest. */
  function FnLine(indent: string, isPub: bool, isAsync: bool, isConst: bool, isUnsafe: bool,
                  name: string, rest: string): string {
    indent + FnWords(isPub, isAsync, isConst, isUnsafe, name, rest)
  }

  /** The keyword words never start with a blank. */
  lemma FnWordsStart(isPub: bool, isAsync: bool, isConst: bool, isUnsafe: bool, name: string, rest: string)
    ensures FnWords(isPub, isAsync, isConst, isUnsafe, name, rest)[0] in {'p', 'a', 'c', 'u', 'f'}
  {
  }

  /** The function pattern reads the keywords pub, async, const and unsafe in
      that order, each one optional, after any leading blanks, and reports
      exactly the ones written. */
  lemma FnRoundTrip(indent: string, isPub: bool, isAsync: bool, isConst: bool, isUnsafe: bool,
                    name: string, rest: string)
    requires forall i :: 0 <= i < |indent| ==> IsSpace(indent[i])
    requires name != [] && forall i :: 0 <= i < |name| ==> IsWordChar(name[i])
    requires rest == [] || !IsWordChar(rest[0])
    ensures Fn(FnLine(indent, isPub, isAsync, isConst, isUnsafe, name, rest))
      == Some(FunctionInfo(name, isPub, isAsync, isConst, isUnsafe, [], [], None))
  {
    var w := FnWords(isPub, isAsync, isConst, isUnsafe, name, rest);
    FnWordsStart(isPub, isAsync, isConst, isUnsafe, name, rest);
    assert !IsSpace(w[0]);
    TrimStartSkips(indent, w);
    FnFromRoundTrip(isPub, isAsync, isConst, isUnsafe, name, rest);
  }

  /** Out of that order the line is not a match: `unsafe async fn` is
      never a function, whatever follows. */
  lemma FnKeywordsOutOfOrder(tail: string)
    ensures Fn("unsafe" + " " + ("async" + " " + ("fn" + " " + tail))) == None
  {
    var l2 := "async" + " " + ("fn" + " " + tail);
    var l1 := "unsafe" + " " + l2;
    assert "unsafe"[0] == 'u' && "async"[0] == 'a';
    assert l1[0] == 'u' && l2[0] == 'a';
    TrimStartSkips([], l1);
    assert [] + l1 == l1;
    KeywordAbsent(l1, "pub");
    assert FnFrom(l1) == FnAsync(false, l1);
    KeywordAbsent(l1, "async");
    assert FnAsync(false, l1) == FnConst(false, false, l1);
    KeywordAbsent(l1, "const");
    assert FnConst(false, false, l1) == FnUnsafe(false, false, false, l1);
    KeywordPresent(l1, "unsafe", l2);
    KeywordAbsent(l2, "fn");
  }
}
