/**
 * The line scanner the Rust bridge falls back to when it is built without the
 * syn parser: every line of the file is trimmed and looked at on its own, and
 * a line that opens a struct, an enum or a function adds one entry, with the
 * name cut out of the line by position.
 */
module RustScanner {
  import opened Text
  import opened LineSplit
  import opened RustSchema
  import opened RustRegex

  /** Rust `str::find` with a character predicate: the first index whose
      character satisfies `stop`. */
  function FindChar(s: string, stop: char -> bool): (r: Option<nat>)
    ensures r.None? ==> forall i :: 0 <= i < |s| ==> !stop(s[i])
    ensures r.Some? ==> r.value < |s| && stop(s[r.value])
    ensures r.Some? ==> forall i :: 0 <= i < r.value ==> !stop(s[i])
  {
    if s == [] then None
    else if stop(s[0]) then Some(0)
    else match FindChar(s[1..], stop)
      case None => None
      case Some(k) => Some(k + 1)
  }

  /** Rust `str::find` with a string pattern: the first index where `sub` occurs. */
  function Find(s: string, sub: string): (r: Option<nat>)
    ensures r.None? ==> forall i :: 0 <= i ==> !OccursAt(s, sub, i)
    ensures r.Some? ==> OccursAt(s, sub, r.value)
    ensures r.Some? ==> forall i :: 0 <= i < r.value ==> !OccursAt(s, sub, i)
    decreases |s|
  {
    if |sub| > |s| then None
    else if s[..|sub|] == sub then Some(0)
    else match Find(s[1..], sub)
      case None =>
        assert forall i :: 1 <= i ==> (OccursAt(s, sub, i) <==> OccursAt(s[1..], sub, i - 1));
        None
      case Some(k) =>
        assert forall i :: 1 <= i ==> (OccursAt(s, sub, i) <==> OccursAt(s[1..], sub, i - 1));
        Some(k + 1)
  }

  /** A struct or enum name stops at the first character that is neither
      alphanumeric nor `_`. */
  predicate EndsName(c: char) { !IsWordChar(c) }

  /** A function name stops at the first `(` or `<`. */
  predicate EndsFnName(c: char) { c == '(' || c == '<' }

  /** The name that starts at `start`, cut at the first `stop` character; None
      when no such character follows. */
  function NameFrom(t: string, start: nat, stop: char -> bool): (r: Option<string>)
    requires start <= |t|
    ensures r.Some? ==> start + |r.value| < |t| && r.value == t[start..start + |r.value|]
    ensures r.Some? ==> stop(t[start + |r.value|])
    ensures r.Some? ==> forall i :: 0 <= i < |r.value| ==> !stop(r.value[i])
    ensures r.None? <==> forall i :: start <= i < |t| ==> !stop(t[i])
  {
    match FindChar(t[start..], stop)
    case None =>
      assert forall i :: start <= i < |t| ==> t[i] == t[start..][i - start];
      None
    case Some(k) => Some(t[start..start + k])
  }

  /** What one line contributes. */
  datatype Entry = StructEntry(s: StructInfo) | EnumEntry(e: EnumInfo) | FnEntry(f: FunctionInfo) | NoEntry

  predicate OpensStruct(t: string) { StartsWith(t, "pub struct ") || StartsWith(t, "struct ") }

  predicate OpensEnum(t: string) { StartsWith(t, "pub enum ") || StartsWith(t, "enum ") }

  predicate OpensFn(t: string) {
    StartsWith(t, "pub fn ") || StartsWith(t, "fn ") || StartsWith(t, "pub async fn ") || StartsWith(t, "async fn ")
  }

  /** The text after the first `fn `, where a function line's name starts. */
  function FnNameStart(t: string): (r: nat)
    requires OpensFn(t)
    ensures r <= |t|
    ensures r >= 3 && OccursAt(t, "fn ", r - 3)
  {
    FnKeywordOccurs(t);
    Find(t, "fn ").value + 3
  }

  lemma FnKeywordOccurs(t: string)
    requires OpensFn(t)
    ensures Find(t, "fn ").Some?
  {
    if StartsWith(t, "pub fn ") {
      assert OccursAt(t, "fn ", 4);
    } else if StartsWith(t, "fn ") {
      assert OccursAt(t, "fn ", 0);
    } else if StartsWith(t, "pub async fn ") {
      assert OccursAt(t, "fn ", 10);
    } else {
      assert OccursAt(t, "fn ", 6);
    }
  }

  /** Text that opens with `p` does not open with a `q` whose first character differs. */
  lemma OtherOpening(t: string, p: string, q: string)
    requires StartsWith(t, p) && p != [] && q != [] && p[0] != q[0]
    ensures !StartsWith(t, q)
  {
    assert t[..|p|][0] == t[0];
  }

  /** Text that opens with `p` opens with every prefix of `p`. */
  lemma OpeningPrefix(t: string, p: string, q: string)
    requires StartsWith(t, p) && StartsWith(p, q)
    ensures StartsWith(t, q)
  {
    assert t[..|q|] == t[..|p|][..|q|];
  }

  lemma Opens(p: string, x: string)
    ensures StartsWith(p + x, p)
  {
    assert (p + x)[..|p|] == p;
  }

  /** Of `pub KW ` and `KW `, a line that opens with one of them opens with the
      first exactly when it opens with `pub `, and the name starts after it. */
  lemma DeclOpening(t: string, pubForm: string, plainForm: string)
    requires StartsWith(t, pubForm) || StartsWith(t, plainForm)
    requires StartsWith(pubForm, "pub ") && plainForm != [] && plainForm[0] != 'p'
    ensures StartsWith(t, "pub ") ==> StartsWith(t, pubForm) && |pubForm| <= |t|
    ensures !StartsWith(t, "pub ") ==> StartsWith(t, plainForm) && |plainForm| <= |t|
  {
    if StartsWith(t, pubForm) {
      OpeningPrefix(t, pubForm, "pub ");
    } else {
      assert "pub "[0] == 'p';
      OtherOpening(t, plainForm, "pub ");
    }
  }

  /** A trimmed line that opens a struct: its name, if a character that
      ends the name follows it. */
  function ScanStruct(t: string): (r: Entry)
    requires OpensStruct(t)
    ensures r.StructEntry? || r.NoEntry?
    ensures r.StructEntry? ==> r.s.isPub == StartsWith(t, "pub ")
    ensures r.StructEntry? ==> r.s.generics == [] && r.s.fields == [] && r.s.derives == []
    ensures r.StructEntry? ==> forall i :: 0 <= i < |r.s.name| ==> IsWordChar(r.s.name[i])
  {
    var isPub := StartsWith(t, "pub ");
    PubStructForms();
    DeclOpening(t, "pub struct ", "struct ");
    match NameFrom(t, if isPub then 11 else 7, EndsName)
    case None => NoEntry
    case Some(name) => StructEntry(StructInfo(name, isPub, [], [], []))
  }

  lemma PubStructForms()
    ensures StartsWith("pub struct ", "pub ") && "struct "[0] == 's'
    ensures |"pub struct "| == 11 && |"struct "| == 7
  {
    assert "pub struct "[..4] == "pub ";
  }

  lemma PubEnumForms()
    ensures StartsWith("pub enum ", "pub ") && "enum "[0] == 'e'
    ensures |"pub enum "| == 9 && |"enum "| == 5
  {
    assert "pub enum "[..4] == "pub ";
  }

  /** A trimmed line that opens an enum, read the same way. */
  function ScanEnum(t: string): (r: Entry)
    requires OpensEnum(t)
    ensures r.EnumEntry? || r.NoEntry?
    ensures r.EnumEntry? ==> r.e.isPub == StartsWith(t, "pub ")
    ensures r.EnumEntry? ==> r.e.generics == [] && r.e.variants == [] && r.e.derives == []
    ensures r.EnumEntry? ==> forall i :: 0 <= i < |r.e.name| ==> IsWordChar(r.e.name[i])
  {
    var isPub := StartsWith(t, "pub ");
    PubEnumForms();
    DeclOpening(t, "pub enum ", "enum ");
    match NameFrom(t, if isPub then 9 else 5, EndsName)
    case None => NoEntry
    case Some(name) => EnumEntry(EnumInfo(name, isPub, [], [], []))
  }

  /** A trimmed line that opens a function: the text from after the first
      `fn ` up to the first `(` or `<`, if there is one. */
  function ScanFn(t: string): (r: Entry)
    requires OpensFn(t)
    ensures r.FnEntry? || r.NoEntry?
    ensures r.FnEntry? ==> r.f.isPub == StartsWith(t, "pub ")
    ensures r.FnEntry? ==> r.f.isAsync == Contains(t, "async ") && !r.f.isConst
    ensures r.FnEntry? ==> r.f.isUnsafe == Contains(t, "unsafe ")
    ensures r.FnEntry? ==> r.f.generics == [] && r.f.params == [] && r.f.returnType == None
    ensures r.FnEntry? ==> '(' !in r.f.name && '<' !in r.f.name
  {
    match NameFrom(t, FnNameStart(t), EndsFnName)
    case None => NoEntry
    case Some(name) =>
      assert forall i :: 0 <= i < |name| ==> !EndsFnName(name[i]);
      FnEntry(FunctionInfo(name, StartsWith(t, "pub "), Contains(t, "async "), false,
                           Contains(t, "unsafe "), [], [], None))
  }

  /** One trimmed line: a struct, an enum, a function or nothing; a line that
      opens none of them adds nothing. */
  function ScanLine(line: string): (r: Entry)
    ensures r.StructEntry? ==> OpensStruct(Trim(line)) && r == ScanStruct(Trim(line))
    ensures r.EnumEntry? ==> OpensEnum(Trim(line)) && r == ScanEnum(Trim(line))
    ensures r.FnEntry? ==> OpensFn(Trim(line)) && r == ScanFn(Trim(line))
  {
    var t := Trim(line);
    if OpensStruct(t) then ScanStruct(t)
    else if OpensEnum(t) then ScanEnum(t)
    else if OpensFn(t) then ScanFn(t)
    else NoEntry
  }

  /** The metadata after one line's entry is pushed. */
  function Record(m: Metadata, e: Entry): Metadata {
    match e
    case StructEntry(s) => m.(structs := m.structs + [s])
    case EnumEntry(x) => m.(enums := m.enums + [x])
    case FnEntry(f) => m.(functions := m.functions + [f])
    case NoEntry => m
  }

  /** The metadata the scanner builds from the lines, in order. */
  function Scanned(lines: seq<string>): Metadata
    decreases |lines|
  {
    if lines == [] then New()
    else Record(Scanned(lines[..|lines| - 1]), ScanLine(lines[|lines| - 1]))
  }

  /** The scanner as the bridge runs it: a file that cannot be read is an
      error, otherwise every line of the text is scanned in turn. */
  method Scan(content: Option<string>) returns (r: Result<Metadata, string>)
    ensures content.None? ==> r == Err("Failed to read file")
    ensures content.Some? ==> r == Ok(Scanned(StrLines(content.value)))
  {
    if content.None? {
      return Err("Failed to read file");
    }
    var metadata := New();
    var lines := StrLines(content.value);
    for i := 0 to |lines|
      invariant metadata == Scanned(lines[..i])
    {
      var entry := ScanLine(lines[i]);
      ScannedStep(lines, i);
      match entry {
        case StructEntry(s) => metadata := metadata.(structs := metadata.structs + [s]);
        case EnumEntry(x) => metadata := metadata.(enums := metadata.enums + [x]);
        case FnEntry(f) => metadata := metadata.(functions := metadata.functions + [f]);
        case NoEntry =>
      }
    }
    assert lines[..|lines|] == lines;
    return Ok(metadata);
  }

  /** Scanning one more line records that line's entry. */
  lemma ScannedStep(lines: seq<string>, i: nat)
    requires i < |lines|
    ensures Scanned(lines[..i + 1]) == Record(Scanned(lines[..i]), ScanLine(lines[i]))
  {
    assert lines[..i + 1][..i] == lines[..i];
  }

  /** An entry that carries a name and flags only. */
  predicate NameOnlyEntry(e: Entry) {
    match e
    case StructEntry(x) => x.generics == [] && x.fields == [] && x.derives == []
    case EnumEntry(x) => x.generics == [] && x.variants == [] && x.derives == []
    case FnEntry(f) => f.generics == [] && f.params == [] && f.returnType == None
    case NoEntry => true
  }

  lemma ScanLineNameOnly(line: string)
    ensures NameOnlyEntry(ScanLine(line))
  {
    var t := Trim(line);
    if OpensStruct(t) {
    } else if OpensEnum(t) {
    } else if OpensFn(t) {
    }
  }

  lemma RecordShape(m: Metadata, e: Entry)
    requires NameOnlyEntry(e)
    ensures var m' := Record(m, e);
      |m'.structs| + |m'.enums| + |m'.functions| <= |m.structs| + |m.enums| + |m.functions| + 1 &&
      m'.traits == m.traits && m'.impls == m.impls && m'.modules == m.modules &&
      m'.uses == m.uses && m'.constants == m.constants && m'.types == m.types
    ensures NamesOnly(m) ==> NamesOnly(Record(m, e))
  {
  }

  /** Each line adds at most one entry, and only structs, enums and functions
      are ever produced, all of them carrying names only. */
  lemma {:induction false} ScannedShape(lines: seq<string>)
    ensures var m := Scanned(lines);
      |m.structs| + |m.enums| + |m.functions| <= |lines| &&
      m.traits == [] && m.impls == [] && m.modules == [] && m.uses == [] && m.constants == [] && m.types == []
    ensures NamesOnly(Scanned(lines))
    decreases |lines|
  {
    if lines != [] {
      var init := lines[..|lines| - 1];
      ScannedShape(init);
      ScanLineNameOnly(lines[|lines| - 1]);
      RecordShape(Scanned(init), ScanLine(lines[|lines| - 1]));
    }
  }

  /** A trimmed line keeps text that starts and ends with a non-blank. */
  lemma TrimKeeps(indent: string, x: string)
    requires forall i :: 0 <= i < |indent| ==> IsSpace(indent[i])
    requires x != [] && !IsSpace(x[0]) && !IsSpace(x[|x| - 1])
    ensures Trim(indent + x) == x
  {
    TrimStartSkips(indent, x);
  }

  lemma {:induction false} FindCharAfter(name: string, rest: string, stop: char -> bool)
    requires forall i :: 0 <= i < |name| ==> !stop(name[i])
    requires rest != [] && stop(rest[0])
    ensures FindChar(name + rest, stop) == Some(|name|)
    decreases |name|
  {
    if name == [] {
      assert name + rest == rest;
    } else {
      assert (name + rest)[1..] == name[1..] + rest;
      FindCharAfter(name[1..], rest, stop);
    }
  }

  lemma {:induction false} FindCharNone(name: string, stop: char -> bool)
    requires forall i :: 0 <= i < |name| ==> !stop(name[i])
    ensures FindChar(name, stop) == None
  {
  }

  /** The text after the opening `p`, up to the first character that ends it. */
  lemma NameAfter(p: string, name: string, rest: string, stop: char -> bool)
    requires forall i :: 0 <= i < |name| ==> !stop(name[i])
    requires rest != [] && stop(rest[0])
    ensures NameFrom(p + (name + rest), |p|, stop) == Some(name)
  {
    assert (p + (name + rest))[|p|..] == name + rest;
    FindCharAfter(name, rest, stop);
    assert (p + (name + rest))[|p|..|p| + |name|] == name;
  }

  /** The name after the opening `p`, up to the first character that ends it. */
  lemma DeclName(p: string, name: string, rest: string)
    requires forall i :: 0 <= i < |name| ==> IsWordChar(name[i])
    requires rest != [] && !IsWordChar(rest[0])
    ensures NameFrom(p + (name + rest), |p|, EndsName) == Some(name)
  {
    NameAfter(p, name, rest, EndsName);
  }

  /** A struct line is read back as the struct it declares: its name and
      whether it is public. */
  lemma StructRoundTrip(indent: string, isPub: bool, name: string, rest: string)
    requires forall i :: 0 <= i < |indent| ==> IsSpace(indent[i])
    requires forall i :: 0 <= i < |name| ==> IsWordChar(name[i])
    requires rest != [] && !IsWordChar(rest[0]) && !IsSpace(rest[|rest| - 1])
    ensures ScanLine(indent + ((if isPub then "pub struct " else "struct ") + (name + rest)))
      == StructEntry(StructInfo(name, isPub, [], [], []))
  {
    var p := if isPub then "pub struct " else "struct ";
    var x := p + (name + rest);
    PubStructForms();
    Opens(p, name + rest);
    assert p[0] == 'p' || p[0] == 's';
    assert x[0] == p[0] && x[|x| - 1] == rest[|rest| - 1];
    TrimKeeps(indent, x);
    if isPub {
      OpeningPrefix(x, p, "pub ");
    } else {
      OtherOpening(x, p, "pub ");
    }
    DeclName(p, name, rest);
  }

  /** An enum line is read back as the enum it declares. */
  lemma EnumRoundTrip(indent: string, isPub: bool, name: string, rest: string)
    requires forall i :: 0 <= i < |indent| ==> IsSpace(indent[i])
    requires forall i :: 0 <= i < |name| ==> IsWordChar(name[i])
    requires rest != [] && !IsWordChar(rest[0]) && !IsSpace(rest[|rest| - 1])
    ensures ScanLine(indent + ((if isPub then "pub enum " else "enum ") + (name + rest)))
      == EnumEntry(EnumInfo(name, isPub, [], [], []))
  {
    var p := if isPub then "pub enum " else "enum ";
    var x := p + (name + rest);
    PubEnumForms();
    Opens(p, name + rest);
    assert p[0] == 'p' || p[0] == 'e';
    assert x[0] == p[0] && x[|x| - 1] == rest[|rest| - 1];
    TrimKeeps(indent, x);
    EnumOpening(x, p);
    DeclName(p, name, rest);
  }

  /** A line that opens with `pub enum ` or `enum ` is an enum line and no struct line. */
  lemma EnumOpening(x: string, p: string)
    requires p == "pub enum " || p == "enum "
    requires StartsWith(x, p)
    ensures OpensEnum(x) && !OpensStruct(x)
    ensures StartsWith(x, "pub ") <==> p == "pub enum "
  {
    PubEnumForms();
    if p == "pub enum " {
      OpeningPrefix(x, p, "pub ");
      assert "pub struct "[4] == 's' && "pub enum "[4] == 'e';
      NotStruct(x, p, "pub struct ");
      OtherOpening(x, p, "struct ");
    } else {
      OtherOpening(x, p, "pub ");
      OtherOpening(x, p, "pub struct ");
      OtherOpening(x, p, "struct ");
    }
  }

  /** Text that opens with `p` does not open with a `q` of the same length
      that differs from `p` at some position. */
  lemma NotStruct(t: string, p: string, q: string)
    requires StartsWith(t, p) && |p| > 4 && |q| > 4 && p[4] != q[4]
    ensures !StartsWith(t, q)
  {
    assert t[..|p|][4] == t[4];
  }

  /** A name that runs to the end of the line records nothing. */
  lemma StructNameAtEndOfLine(indent: string, isPub: bool, name: string)
    requires forall i :: 0 <= i < |indent| ==> IsSpace(indent[i])
    requires name != [] && forall i :: 0 <= i < |name| ==> IsWordChar(name[i])
    ensures ScanLine(indent + ((if isPub then "pub struct " else "struct ") + name)) == NoEntry
  {
    var p := if isPub then "pub struct " else "struct ";
    var x := p + name;
    PubStructForms();
    Opens(p, name);
    assert p[0] == 'p' || p[0] == 's';
    assert x[0] == p[0] && x[|x| - 1] == name[|name| - 1];
    TrimKeeps(indent, x);
    if isPub {
      OpeningPrefix(x, p, "pub ");
    } else {
      OtherOpening(x, p, "pub ");
    }
    assert x[|p|..] == name;
    FindCharNone(name, EndsName);
  }

  /** The first `fn ` of a function line is its keyword, so the name is read
      from just after it up to the `(` or `<`. */
  lemma FnNameRead(isPub: bool, name: string, rest: string)
    requires '(' !in name && '<' !in name
    requires rest != [] && (rest[0] == '(' || rest[0] == '<')
    ensures var x := (if isPub then "pub fn " else "fn ") + (name + rest);
      OpensFn(x) && NameFrom(x, FnNameStart(x), EndsFnName) == Some(name)
  {
    var p := if isPub then "pub fn " else "fn ";
    var x := p + (name + rest);
    Opens(p, name + rest);
    FnKeywordFirst(x, p);
    forall i | 0 <= i < |name| ensures !EndsFnName(name[i]) {
      assert name[i] in name;
    }
    NameAfter(p, name, rest, EndsFnName);
  }

  /** In a line that opens with `pub fn ` or `fn `, the first `fn ` is the keyword. */
  lemma FnKeywordFirst(x: string, p: string)
    requires p == "pub fn " || p == "fn "
    requires StartsWith(x, p)
    ensures OpensFn(x) && FnNameStart(x) == |p|
  {
    var k := |p| - 3;
    assert x[..|p|] == p;
    assert x[k..k + 3] == "fn " by {
      assert x[k..k + 3] == p[k..];
    }
    forall i | 0 <= i < k
      ensures !OccursAt(x, "fn ", i)
    {
      assert x[i] == p[i] && p[i] != 'f';
      assert x[i..i + 3][0] == x[i];
    }
    FindFirst(x, "fn ", k);
  }

  /** An occurrence with none before it is the one `Find` returns. */
  lemma FindFirst(s: string, sub: string, k: nat)
    requires OccursAt(s, sub, k)
    requires forall i :: 0 <= i < k ==> !OccursAt(s, sub, i)
    ensures Find(s, sub) == Some(k)
  {
    var r := Find(s, sub);
    assert r.Some?;
    assert !(r.value < k);
    assert !(k < r.value);
  }

  /** A function line with or without `pub` is read back with its name and
      its visibility. */
  lemma FnRoundTrip(indent: string, isPub: bool, name: string, rest: string)
    requires forall i :: 0 <= i < |indent| ==> IsSpace(indent[i])
    requires '(' !in name && '<' !in name
    requires rest != [] && (rest[0] == '(' || rest[0] == '<') && !IsSpace(rest[|rest| - 1])
    ensures var r := ScanLine(indent + ((if isPub then "pub fn " else "fn ") + (name + rest)));
      r.FnEntry? && r.f.name == name && r.f.isPub == isPub && !r.f.isConst
  {
    var p := if isPub then "pub fn " else "fn ";
    var x := p + (name + rest);
    FnNameRead(isPub, name, rest);
    Opens(p, name + rest);
    assert x[|x| - 1] == rest[|rest| - 1];
    FnLineScanned(indent, p, x);
  }

  /** A line that opens with `pub fn ` or `fn ` after its blanks is scanned as a function line. */
  lemma FnLineScanned(indent: string, p: string, x: string)
    requires forall i :: 0 <= i < |indent| ==> IsSpace(indent[i])
    requires p == "pub fn " || p == "fn "
    requires StartsWith(x, p) && !IsSpace(x[|x| - 1])
    ensures OpensFn(x) && ScanLine(indent + x) == ScanFn(x)
    ensures StartsWith(x, "pub ") <==> p == "pub fn "
  {
    FnOpening(x, p);
    assert x[0] == p[0];
    TrimKeeps(indent, x);
  }

  /** A line that opens with `pub fn ` or `fn ` is neither a struct nor an enum line. */
  lemma FnOpening(x: string, p: string)
    requires p == "pub fn " || p == "fn "
    requires StartsWith(x, p)
    ensures p[0] == 'p' || p[0] == 'f'
    ensures !OpensStruct(x) && !OpensEnum(x)
    ensures StartsWith(x, "pub ") <==> p == "pub fn "
  {
    assert "pub struct "[4] == 's' && "pub enum "[4] == 'e' && "pub fn "[4] == 'f';
    if p == "pub fn " {
      assert "pub fn "[..4] == "pub ";
      OpeningPrefix(x, p, "pub ");
      NotStruct(x, p, "pub struct ");
      NotStruct(x, p, "pub enum ");
      OtherOpening(x, p, "struct ");
      OtherOpening(x, p, "enum ");
    } else {
      OtherOpening(x, p, "pub ");
      OtherOpening(x, p, "pub struct ");
      OtherOpening(x, p, "struct ");
      OtherOpening(x, p, "pub enum ");
      OtherOpening(x, p, "enum ");
    }
  }

  /** Only the four function openings listed are recognised: an `unsafe fn`
      or `const fn` line records nothing. */
  lemma QualifiedFnSkipped(line: string)
    requires StartsWith(Trim(line), "unsafe ") || StartsWith(Trim(line), "const ")
    ensures ScanLine(line) == NoEntry
  {
    var t := Trim(line);
    var p := if StartsWith(t, "unsafe ") then "unsafe " else "const ";
    assert p[0] == 'u' || p[0] == 'c';
    OtherOpening(t, p, "pub struct ");
    OtherOpening(t, p, "struct ");
    OtherOpening(t, p, "pub enum ");
    OtherOpening(t, p, "enum ");
    OtherOpening(t, p, "pub fn ");
    OtherOpening(t, p, "fn ");
    OtherOpening(t, p, "pub async fn ");
    OtherOpening(t, p, "async fn ");
  }

}
