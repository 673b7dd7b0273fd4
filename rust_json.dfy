/**
 * The hand-written JSON serializer of the Rust metadata bridge (`to_json`).
 *
 * The document is built section by section in a fixed key order; every
 * array is written by a loop that emits "," only before the second and
 * later entries; optional values are written as a whole `,"key":"value"`
 * pair or not at all. String values are spliced between quotes exactly as
 * they are: the source does no escaping. `Document` is parameterised by the
 * quoting function so that the as-written serializer (`Verbatim`) and an
 * escaping one (`Escape`, see the findings below) share one definition.
 */
module RustJson {
  import opened Text
  import opened RustSchema

  /** The fixed tail of every document, whichever producer filled the metadata. */
  const Trailer: string := "\"parser\":\"rustc/syn\",\"version\":\"1.0.0\",\"success\":true}"

  /** The whole document for `RustMetadata::new()`. */
  const EmptyDocument: string :=
    "{" + "\"structs\":[]," + "\"enums\":[]," + "\"traits\":[]," + "\"functions\":[]," + "\"impls\":[],"
    + "\"modules\":[]," + "\"uses\":[]," + "\"constants\":[]," + "\"types\":[]," + Trailer

  /** The as-written quoting: the string is copied unchanged. */
  function Verbatim(s: string): string { s }

  function Lit(q: string -> string, s: string): string { "\"" + q(s) + "\"" }

  function BoolJson(b: bool): string { if b then "true" else "false" }

  function MapSeq<T>(xs: seq<T>, f: T -> string): (r: seq<string>)
    ensures |r| == |xs| && forall i :: 0 <= i < |xs| ==> r[i] == f(xs[i])
  {
    seq(|xs|, i requires 0 <= i < |xs| => f(xs[i]))
  }

  /** A JSON array of already rendered entries. */
  function Array(entries: seq<string>): string { "[" + Join(entries, ",") + "]" }

  function FieldJson(q: string -> string, f: FieldInfo): string {
    "{\"name\":" + Lit(q, f.name) + ",\"type\":" + Lit(q, f.ty) + ",\"isPublic\":" + BoolJson(f.isPub) + "}"
  }

  function StructJson(q: string -> string, s: StructInfo): string {
    "{\"name\":" + Lit(q, s.name) + ",\"isPublic\":" + BoolJson(s.isPub)
    + ",\"fields\":" + Array(MapSeq(s.fields, f => FieldJson(q, f))) + "}"
  }

  function EnumJson(q: string -> string, e: EnumInfo): string {
    "{\"name\":" + Lit(q, e.name) + ",\"isPublic\":" + BoolJson(e.isPub)
    + ",\"variants\":" + Array(MapSeq(e.variants, v => Lit(q, v))) + "}"
  }

  function TraitJson(q: string -> string, t: TraitInfo): string {
    "{\"name\":" + Lit(q, t.name) + ",\"isPublic\":" + BoolJson(t.isPub)
    + ",\"methods\":" + Array(MapSeq(t.methods, m => Lit(q, m))) + "}"
  }

  function ParamJson(q: string -> string, p: ParamInfo): string {
    "{\"name\":" + Lit(q, p.name) + ",\"type\":" + Lit(q, p.ty) + ",\"isMut\":" + BoolJson(p.isMut) + "}"
  }

  /** `,"key":"value"` when the value is present, nothing when it is absent. */
  function OptionalPair(q: string -> string, key: string, v: Option<string>): string {
    match v
    case None => ""
    case Some(x) => ",\"" + key + "\":" + Lit(q, x)
  }

  /** A function entry up to and including its parameter array. */
  function FunctionHead(q: string -> string, name: string, isPub: bool, isAsync: bool, isConst: bool,
                        isUnsafe: bool, params: seq<ParamInfo>): string {
    "{\"name\":" + Lit(q, name) + ",\"isPublic\":" + BoolJson(isPub)
    + ",\"isAsync\":" + BoolJson(isAsync) + ",\"isConst\":" + BoolJson(isConst)
    + ",\"isUnsafe\":" + BoolJson(isUnsafe)
    + ",\"parameters\":" + Array(MapSeq(params, p => ParamJson(q, p)))
  }

  function FunctionJson(q: string -> string, f: FunctionInfo): string {
    FunctionHead(q, f.name, f.isPub, f.isAsync, f.isConst, f.isUnsafe, f.params)
    + OptionalPair(q, "returnType", f.returnType) + "}"
  }

  /** An impl entry from its trait name (if any) to the end. */
  function ImplTail(q: string -> string, methods: seq<string>): string {
    ",\"methods\":" + Array(MapSeq(methods, m => Lit(q, m))) + "}"
  }

  function ImplJson(q: string -> string, i: ImplInfo): string {
    "{\"targetType\":" + Lit(q, i.targetType) + OptionalPair(q, "traitName", i.traitName) + ImplTail(q, i.methods)
  }

  function ModuleJson(q: string -> string, m: ModuleInfo): string {
    "{\"name\":" + Lit(q, m.name) + ",\"isPublic\":" + BoolJson(m.isPub) + "}"
  }

  function ConstantHead(q: string -> string, name: string, isPub: bool): string {
    "{\"name\":" + Lit(q, name) + ",\"isPublic\":" + BoolJson(isPub)
  }

  function ConstantJson(q: string -> string, c: ConstantInfo): string {
    ConstantHead(q, c.name, c.isPub) + OptionalPair(q, "type", c.ty) + "}"
  }

  function TypeJson(q: string -> string, t: TypeInfo): string {
    "{\"name\":" + Lit(q, t.name) + ",\"isPublic\":" + BoolJson(t.isPub) + "}"
  }

  /** The rendered entries of each section, in collection order. */
  function StructEntries(q: string -> string, xs: seq<StructInfo>): seq<string> { MapSeq(xs, s => StructJson(q, s)) }
  function EnumEntries(q: string -> string, xs: seq<EnumInfo>): seq<string> { MapSeq(xs, e => EnumJson(q, e)) }
  function TraitEntries(q: string -> string, xs: seq<TraitInfo>): seq<string> { MapSeq(xs, t => TraitJson(q, t)) }
  function FunctionEntries(q: string -> string, xs: seq<FunctionInfo>): seq<string> { MapSeq(xs, f => FunctionJson(q, f)) }
  function ImplEntries(q: string -> string, xs: seq<ImplInfo>): seq<string> { MapSeq(xs, i => ImplJson(q, i)) }
  function ModuleEntries(q: string -> string, xs: seq<ModuleInfo>): seq<string> { MapSeq(xs, d => ModuleJson(q, d)) }
  function UseEntries(q: string -> string, xs: seq<string>): seq<string> { MapSeq(xs, u => Lit(q, u)) }
  function ConstantEntries(q: string -> string, xs: seq<ConstantInfo>): seq<string> { MapSeq(xs, c => ConstantJson(q, c)) }
  function TypeEntries(q: string -> string, xs: seq<TypeInfo>): seq<string> { MapSeq(xs, t => TypeJson(q, t)) }

  /** `"key":[entries],` — one section of the document. */
  function Section(key: string, entries: seq<string>): string {
    "\"" + key + "\":" + Array(entries) + ","
  }

  /** The document `to_json` produces, for a given way of quoting strings. */
  function Document(m: Metadata, q: string -> string): string {
    "{"
    + Section("structs", StructEntries(q, m.structs))
    + Section("enums", EnumEntries(q, m.enums))
    + Section("traits", TraitEntries(q, m.traits))
    + Section("functions", FunctionEntries(q, m.functions))
    + Section("impls", ImplEntries(q, m.impls))
    + Section("modules", ModuleEntries(q, m.modules))
    + Section("uses", UseEntries(q, m.uses))
    + Section("constants", ConstantEntries(q, m.constants))
    + Section("types", TypeEntries(q, m.types))
    + Trailer
  }

  /** The index-tracking loop of `to_json`: a "," before every entry but the first. */
  method PushEntries(json: string, entries: seq<string>) returns (out: string)
    ensures out == json + Join(entries, ",")
  {
    out := json;
    for i := 0 to |entries|
      invariant out == json + Join(entries[..i], ",")
    {
      if i > 0 {
        out := out + ",";
        JoinAppend(entries[..i], entries[i], ",");
      }
      assert entries[..i + 1] == entries[..i] + [entries[i]];
      out := out + entries[i];
    }
    assert entries[..|entries|] == entries;
  }

  /** One section: key, opening bracket, the entries, closing bracket and comma. */
  method PushSection(json: string, key: string, entries: seq<string>) returns (out: string)
    ensures out == json + Section(key, entries)
  {
    out := json + "\"" + key + "\":[";
    out := PushEntries(out, entries);
    out := out + "],";
  }

  /** `RustMetadata::to_json` as written. */
  method ToJson(m: Metadata) returns (json: string)
    ensures json == Document(m, Verbatim)
  {
    json := "{";
    json := PushSection(json, "structs", StructEntries(Verbatim, m.structs));
    json := PushSection(json, "enums", EnumEntries(Verbatim, m.enums));
    json := PushSection(json, "traits", TraitEntries(Verbatim, m.traits));
    json := PushSection(json, "functions", FunctionEntries(Verbatim, m.functions));
    json := PushSection(json, "impls", ImplEntries(Verbatim, m.impls));
    json := PushSection(json, "modules", ModuleEntries(Verbatim, m.modules));
    json := PushSection(json, "uses", UseEntries(Verbatim, m.uses));
    json := PushSection(json, "constants", ConstantEntries(Verbatim, m.constants));
    json := PushSection(json, "types", TypeEntries(Verbatim, m.types));
    json := json + Trailer;
  }

  // ---------------------------------------------------------------------
  // Properties of the document
  // ---------------------------------------------------------------------

  lemma EmptySection(key: string, text: string)
    requires text == "\"" + key + "\":[],"
    ensures Section(key, []) == text
  {
  }

  /** Serialising `RustMetadata::new()` gives one fixed document. */
  lemma NewDocument(q: string -> string)
    ensures Document(New(), q) == EmptyDocument
  {
    EmptySection("structs", "\"structs\":[],");
    EmptySection("enums", "\"enums\":[],");
    EmptySection("traits", "\"traits\":[],");
    EmptySection("functions", "\"functions\":[],");
    EmptySection("impls", "\"impls\":[],");
    EmptySection("modules", "\"modules\":[],");
    EmptySection("uses", "\"uses\":[],");
    EmptySection("constants", "\"constants\":[],");
    EmptySection("types", "\"types\":[],");
  }

  lemma PrefixKept(a: string, b: string, p: string)
    requires StartsWith(a, p)
    ensures StartsWith(a + b, p)
  {
    assert (a + b)[..|p|] == a[..|p|];
  }

  lemma SuffixKept(a: string, b: string)
    ensures EndsWith(a + b, b)
  {
    assert (a + b)[|a|..] == b;
  }

  lemma SectionOpens(key: string, entries: seq<string>)
    ensures StartsWith(Section(key, entries), "\"" + key + "\":[")
  {
    var p := "\"" + key + "\":[";
    var r := Join(entries, ",") + "],";
    assert Section(key, entries) == "\"" + key + "\":" + ("[" + Join(entries, ",") + "]") + ",";
    assert "\"" + key + "\":" + ("[" + Join(entries, ",") + "]") + "," == p + r;
    assert (p + r)[..|p|] == p;
  }

  lemma ConsPrefix(c: string, s: string, p: string)
    requires StartsWith(s, p)
    ensures StartsWith(c + s, c + p)
  {
    assert (c + s)[..|c + p|] == c + s[..|p|];
  }

  /** Every document closes with the same parser/version/success trailer,
      whatever the metadata. */
  lemma DocumentEndsWithTrailer(m: Metadata, q: string -> string)
    ensures EndsWith(Document(m, q), Trailer)
  {
    var a := "{" + Section("structs", StructEntries(q, m.structs))
      + Section("enums", EnumEntries(q, m.enums))
      + Section("traits", TraitEntries(q, m.traits))
      + Section("functions", FunctionEntries(q, m.functions))
      + Section("impls", ImplEntries(q, m.impls))
      + Section("modules", ModuleEntries(q, m.modules))
      + Section("uses", UseEntries(q, m.uses))
      + Section("constants", ConstantEntries(q, m.constants))
      + Section("types", TypeEntries(q, m.types));
    SuffixKept(a, Trailer);
  }

  /** Every document opens with the structs section, whatever the metadata. */
  lemma DocumentOpensWithStructs(m: Metadata, q: string -> string)
    ensures StartsWith(Document(m, q), "{\"structs\":[")
  {
    var s1 := Section("structs", StructEntries(q, m.structs));
    var p := "{\"structs\":[";
    SectionOpens("structs", StructEntries(q, m.structs));
    ConsPrefix("{", s1, "\"" + "structs" + "\":[");
    assert "{" + ("\"" + "structs" + "\":[") == p;
    ChainKeepsPrefix("{" + s1, Section("enums", EnumEntries(q, m.enums)), Section("traits", TraitEntries(q, m.traits)),
      Section("functions", FunctionEntries(q, m.functions)), Section("impls", ImplEntries(q, m.impls)),
      Section("modules", ModuleEntries(q, m.modules)), Section("uses", UseEntries(q, m.uses)),
      Section("constants", ConstantEntries(q, m.constants)), Section("types", TypeEntries(q, m.types)), Trailer, p);
  }

  /** Text appended after a prefix, piece by piece, keeps the prefix. */
  lemma ChainKeepsPrefix(a: string, b: string, c: string, d: string, e: string, f: string, g: string, h: string,
                         i: string, j: string, p: string)
    requires StartsWith(a, p)
    ensures StartsWith(a + b + c + d + e + f + g + h + i + j, p)
  {
    PrefixKept(a, b, p);
    PrefixKept(a + b, c, p);
    PrefixKept(a + b + c, d, p);
    PrefixKept(a + b + c + d, e, p);
    PrefixKept(a + b + c + d + e, f, p);
    PrefixKept(a + b + c + d + e + f, g, p);
    PrefixKept(a + b + c + d + e + f + g, h, p);
    PrefixKept(a + b + c + d + e + f + g + h, i, p);
    PrefixKept(a + b + c + d + e + f + g + h + i, j, p);
  }

  /** Appending an entry to an array writes "," and the entry before the
      closing bracket; the first entry is written without a comma. */
  lemma {:induction false} ArrayAppend(entries: seq<string>, x: string)
    ensures entries == [] ==> Array(entries + [x]) == "[" + x + "]"
    ensures entries != [] ==> Array(entries + [x]) == Array(entries)[..|Array(entries)| - 1] + "," + x + "]"
  {
    if entries == [] {
      assert entries + [x] == [x];
    } else {
      JoinAppend(entries, x, ",");
      var a := Array(entries);
      assert a[..|a| - 1] == "[" + Join(entries, ",");
    }
  }

  /** Generics and derives of a struct are collected but never emitted. */
  lemma StructIgnoresGenericsAndDerives(q: string -> string, s: StructInfo, g: seq<string>, d: seq<string>)
    ensures StructJson(q, s.(generics := g, derives := d)) == StructJson(q, s)
  {
  }

  /** A function without a return type ends right after its parameter array. */
  lemma ReturnTypeAbsent(q: string -> string, f: FunctionInfo)
    requires f.returnType == None
    ensures FunctionJson(q, f) == FunctionHead(q, f.name, f.isPub, f.isAsync, f.isConst, f.isUnsafe, f.params) + "}"
  {
  }

  /** A function's return type is written as one `,"returnType":"…"` pair just
      before the closing brace. */
  lemma ReturnTypePresent(q: string -> string, f: FunctionInfo, t: string)
    requires f.returnType == Some(t)
    ensures FunctionJson(q, f)
      == FunctionHead(q, f.name, f.isPub, f.isAsync, f.isConst, f.isUnsafe, f.params) + ",\"returnType\":" + Lit(q, t) + "}"
  {
    var head := FunctionHead(q, f.name, f.isPub, f.isAsync, f.isConst, f.isUnsafe, f.params);
    PairText(q, "returnType", t, ",\"returnType\":");
    assert FunctionJson(q, f) == head + OptionalPair(q, "returnType", f.returnType) + "}";
  }

  /** The pair written for a present optional value. */
  lemma PairText(q: string -> string, key: string, t: string, opening: string)
    requires opening == ",\"" + key + "\":"
    ensures OptionalPair(q, key, Some(t)) == opening + Lit(q, t)
  {
  }

  /** An impl's trait name is written right after its target type, and only
      when the impl implements a trait. */
  lemma TraitNameAfterTarget(q: string -> string, i: ImplInfo, t: string)
    ensures var p := "{\"targetType\":" + Lit(q, i.targetType);
      var without := ImplJson(q, i.(traitName := None));
      StartsWith(without, p) &&
      ImplJson(q, i.(traitName := Some(t))) == p + ",\"traitName\":" + Lit(q, t) + without[|p|..]
  {
    var p := "{\"targetType\":" + Lit(q, i.targetType);
    var rest := ImplTail(q, i.methods);
    var without := ImplJson(q, i.(traitName := None));
    assert without == p + rest;
    assert without[|p|..] == rest;
  }

  /** A constant's type is written as a trailing `,"type":"…"` pair, or not at all. */
  lemma ConstantTypeOmitted(q: string -> string, c: ConstantInfo, t: string)
    ensures var head := ConstantHead(q, c.name, c.isPub);
      ConstantJson(q, c.(ty := None)) == head + "}" &&
      ConstantJson(q, c.(ty := Some(t))) == head + ",\"type\":" + Lit(q, t) + "}"
  {
    var head := ConstantHead(q, c.name, c.isPub);
    PairText(q, "type", t, ",\"type\":");
    var pair := ",\"type\":" + Lit(q, t);
    assert ConstantJson(q, c.(ty := Some(t))) == head + pair + "}";
  }

  // ---------------------------------------------------------------------
  // Escaping: the as-written splice against a JSON string reader
  // ---------------------------------------------------------------------

  function HexDigit(d: nat): (c: char)
    requires d < 16
  {
    if d < 10 then ('0' as int + d) as char else ('a' as int + d - 10) as char
  }

  function HexValue(c: char): Option<nat> {
    if '0' <= c <= '9' then Some(c as int - '0' as int)
    else if 'a' <= c <= 'f' then Some(c as int - 'a' as int + 10)
    else if 'A' <= c <= 'F' then Some(c as int - 'A' as int + 10)
    else None
  }

  /** JSON escape of one character: quote, backslash and the control characters. */
  function EscapeChar(c: char): (r: string)
    ensures |r| >= 1
  {
    if c == '"' then "\\\""
    else if c == '\\' then "\\\\"
    else if c == '\n' then "\\n"
    else if c == '\r' then "\\r"
    else if c == '\t' then "\\t"
    else if c == '\U{8}' then "\\b"
    else if c == '\U{C}' then "\\f"
    else if (c as int) < 0x20 then "\\u00" + [HexDigit(c as int / 16), HexDigit(c as int % 16)]
    else [c]
  }

  /** A string made safe to place between quotes in a JSON document. */
  function Escape(s: string): string {
    if s == [] then [] else EscapeChar(s[0]) + Escape(s[1..])
  }

  /** Reads the body of a JSON string literal (the opening quote already
      consumed) up to its closing quote: the decoded text and what follows the
      closing quote, or None when the input is not a well-formed literal. */
  function ReadLiteral(s: string): Option<(string, string)>
    decreases |s|
  {
    if s == [] then None
    else if s[0] == '"' then Some(("", s[1..]))
    else if (s[0] as int) < 0x20 then None
    else if s[0] != '\\' then Prepend(s[0], ReadLiteral(s[1..]))
    else if |s| < 2 then None
    else if s[1] == '"' then Prepend('"', ReadLiteral(s[2..]))
    else if s[1] == '\\' then Prepend('\\', ReadLiteral(s[2..]))
    else if s[1] == '/' then Prepend('/', ReadLiteral(s[2..]))
    else if s[1] == 'n' then Prepend('\n', ReadLiteral(s[2..]))
    else if s[1] == 'r' then Prepend('\r', ReadLiteral(s[2..]))
    else if s[1] == 't' then Prepend('\t', ReadLiteral(s[2..]))
    else if s[1] == 'b' then Prepend('\U{8}', ReadLiteral(s[2..]))
    else if s[1] == 'f' then Prepend('\U{C}', ReadLiteral(s[2..]))
    else if s[1] == 'u' && |s| >= 6 then
      match (HexValue(s[2]), HexValue(s[3]), HexValue(s[4]), HexValue(s[5]))
      case (Some(a), Some(b), Some(c), Some(d)) =>
        var code := ((a * 16 + b) * 16 + c) * 16 + d;
        if 0xD800 <= code < 0xE000 then None
        else Prepend(code as char, ReadLiteral(s[6..]))
      case _ => None
    else None
  }

  function Prepend(c: char, r: Option<(string, string)>): Option<(string, string)> {
    match r
    case None => None
    case Some((text, rest)) => Some(([c] + text, rest))
  }

  /** With escaping, reading back a written literal recovers the original text
      and stops exactly at its closing quote. */
  lemma {:induction false} EscapedLiteralRoundTrip(x: string, rest: string)
    ensures ReadLiteral(Escape(x) + "\"" + rest) == Some((x, rest))
    decreases |x|
  {
    if x == [] {
      assert Escape(x) + "\"" + rest == "\"" + rest;
    } else {
      var tail := Escape(x[1..]) + "\"" + rest;
      EscapedLiteralRoundTrip(x[1..], rest);
      assert Escape(x) + "\"" + rest == EscapeChar(x[0]) + tail;
      ReadEscapedChar(x[0], tail);
      assert [x[0]] + x[1..] == x;
    }
  }

  /** Reading one escaped character gives that character back, then reads on. */
  lemma ReadEscapedChar(c: char, tail: string)
    ensures ReadLiteral(EscapeChar(c) + tail) == Prepend(c, ReadLiteral(tail))
  {
    var s := EscapeChar(c) + tail;
    assert s[|EscapeChar(c)|..] == tail;
    if (c as int) < 0x20 && c != '\n' && c != '\r' && c != '\t' && c != '\U{8}' && c != '\U{C}' {
      ReadControlChar(c, tail);
    }
  }

  /** A control character without a short escape is written as `\u00XY` and read back from it. */
  lemma ReadControlChar(c: char, tail: string)
    requires (c as int) < 0x20 && c != '\n' && c != '\r' && c != '\t' && c != '\U{8}' && c != '\U{C}'
    ensures ReadLiteral(EscapeChar(c) + tail) == Prepend(c, ReadLiteral(tail))
  {
    var s := EscapeChar(c) + tail;
    var hi, lo := c as int / 16, c as int % 16;
    assert EscapeChar(c) == "\\u00" + [HexDigit(hi), HexDigit(lo)];
    assert s[6..] == tail;
    assert HexValue(HexDigit(hi)) == Some(hi);
    assert HexValue(HexDigit(lo)) == Some(lo);
    assert s[0] == '\\' && s[1] == 'u' && s[2] == '0' && s[3] == '0' && s[4] == HexDigit(hi) && s[5] == HexDigit(lo);
    assert ((0 * 16 + 0) * 16 + hi) * 16 + lo == c as int;
  }

  /** As written, a name containing a quote cannot be read back: the reader
      stops at the embedded quote. */
  lemma VerbatimQuoteBreaksLiteral()
    ensures ReadLiteral(Verbatim("a\"b") + "\"" + ",") != Some(("a\"b", ","))
    ensures ReadLiteral(Verbatim("a\"b") + "\"" + ",") == Some(("a", "b\","))
  {
    var s := Verbatim("a\"b") + "\"" + ",";
    assert s == "a\"b\",";
    assert s[1..] == "\"b\",";
    assert s[1..][1..] == "b\",";
    assert ReadLiteral(s[1..]) == Some(("", "b\","));
    assert ['a'] + "" == "a";
    assert ReadLiteral(s) == Prepend('a', ReadLiteral(s[1..]));
  }
}
