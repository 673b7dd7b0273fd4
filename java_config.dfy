/**
 * The Java discovery configuration: its defaults, the lenient coercions
 * that read loosely typed JSON values, and `fromMap`, which starts from
 * the defaults and overrides one setting after another.
 */
module JavaConfig {
  import opened Text
  import opened JsonValue
  import opened JavaPath

  const IntMin: int := -0x8000_0000
  const IntMax: int := 0x7fff_ffff
  const LongMin: int := -0x8000_0000_0000_0000
  const LongMax: int := 0x7fff_ffff_ffff_ffff

  /** The low 32 bits read as a signed `int` (Java's narrowing of an integer). */
  function Wrap32(i: int): (r: int)
    ensures IntMin <= r <= IntMax
    ensures IntMin <= i <= IntMax ==> r == i
  {
    (i - IntMin) % 0x1_0000_0000 + IntMin
  }

  /** The low 64 bits read as a signed `long`. */
  function Wrap64(i: int): (r: int)
    ensures LongMin <= r <= LongMax
    ensures LongMin <= i <= LongMax ==> r == i
  {
    (i - LongMin) % 0x1_0000_0000_0000_0000 + LongMin
  }

  /** Rounding toward zero, as a cast from `double` does. */
  function Truncate(x: real): (r: int)
    ensures x >= 0.0 ==> 0 <= r && r as real <= x < r as real + 1.0
    ensures x < 0.0 ==> r <= 0 && r as real - 1.0 < x <= r as real
  {
    if x >= 0.0 then x.Floor else -((-x).Floor)
  }

  function Clamp(i: int, lo: int, hi: int): (r: int)
    requires lo <= hi
    ensures lo <= r <= hi
    ensures lo <= i <= hi ==> r == i
  {
    if i < lo then lo else if i > hi then hi else i
  }

  /** `Number.intValue()`: integers keep their low 32 bits, doubles truncate and saturate. */
  function IntValue(n: Number): (r: int)
    ensures IntMin <= r <= IntMax
    ensures n.Int? && IntMin <= n.i <= IntMax ==> r == n.i
  {
    match n
    case Int(i) => Wrap32(i)
    case Float(x, _) => Clamp(Truncate(x), IntMin, IntMax)
  }

  /** `Number.longValue()`: integers keep their low 64 bits, doubles truncate and saturate. */
  function LongValue(n: Number): (r: int)
    ensures LongMin <= r <= LongMax
    ensures n.Int? && LongMin <= n.i <= LongMax ==> r == n.i
  {
    match n
    case Int(i) => Wrap64(i)
    case Float(x, _) => Clamp(Truncate(x), LongMin, LongMax)
  }

  predicate AllDigits(s: string) {
    forall i :: 0 <= i < |s| ==> IsDigit(s[i])
  }

  /**
   * `Long.parseLong` and `Integer.parseInt` over the range `lo..hi`: an
   * optional sign, then at least one decimal digit, with the value in range.
   */
  function ParseInteger(s: string, lo: int, hi: int): (r: Option<int>)
    ensures r.Some? ==> lo <= r.value <= hi
    ensures s == [] ==> r.None?
    ensures r.Some? ==> exists k :: 0 <= k <= 1 && k < |s| && AllDigits(s[k..])
  {
    if s == [] then None
    else
      var k := if s[0] == '-' || s[0] == '+' then 1 else 0;
      var digits := s[k..];
      if digits == [] || !AllDigits(digits) then None
      else
        var v: int := if s[0] == '-' then 0 - DigitsValue(digits) else DigitsValue(digits);
        if lo <= v <= hi then Some(v) else None
  }

  /** Parsing reads back every in-range integer Java writes. */
  lemma ParseIntegerRoundTrip(i: int, lo: int, hi: int)
    requires lo <= i <= hi
    ensures ParseInteger(IntToString(i), lo, hi) == Some(i)
    ensures i >= 0 ==> ParseInteger("+" + NatToString(i), lo, hi) == Some(i)
  {
    if i >= 0 {
      var s := NatToString(i);
      assert IsDigit(s[0]);
      assert s[0..] == s;
      NatToStringRoundTrip(i);
      var t := "+" + s;
      assert t[1..] == s;
      assert ParseInteger(t, lo, hi) == Some(i);
    } else {
      var s := IntToString(i);
      assert s[1..] == NatToString(-i);
      NatToStringRoundTrip(-i);
    }
  }

  /** `toBoolean`: Booleans as they are, numbers by `intValue() != 0`, strings by a case-blind "true". */
  function ToBoolean(v: Value, default: bool): (r: bool)
    ensures v.Bool? ==> r == v.b
    ensures v.Null? || v.List? || v.Map? ==> r == default
    ensures v.Str? && r ==> |JavaTrim(v.s)| == 4
  {
    match v
    case Bool(b) => b
    case Num(n) => IntValue(n) != 0
    case Str(s) => Lower(JavaTrim(s)) == "true"
    case _ => default
  }

  /** A string never falls back to the default: anything but a case variant of "true" reads as false. */
  lemma StringNeverDefaults(s: string, default: bool)
    ensures ToBoolean(Str(s), default) == ToBoolean(Str(s), !default)
    ensures !ToBoolean(Str("yes"), default)
  {
  }

  /** Every case variant of "true" reads as true. */
  lemma CaseVariantOfTrue(s: string, default: bool)
    requires Lower(s) == "true"
    ensures ToBoolean(Str(s), default)
  {
    forall i | 0 <= i < |s|
      ensures !IsTrimmed(s[i])
    {
      assert LowerChar(s[i]) == "true"[i];
    }
  }

  /** `toLong`: numbers by `longValue()`, strings by `Long.parseLong` of the trimmed text. */
  function ToLong(v: Value, default: int): (r: int)
    ensures v.Num? ==> LongMin <= r <= LongMax
    ensures v.Null? || v.Bool? || v.List? || v.Map? ==> r == default
  {
    match v
    case Num(n) => LongValue(n)
    case Str(s) =>
      var p := ParseInteger(JavaTrim(s), LongMin, LongMax);
      if p.Some? then p.value else default
    case _ => default
  }

  /** `toInt`: numbers by `intValue()`, strings by `Integer.parseInt` of the trimmed text. */
  function ToInt(v: Value, default: int): (r: int)
    ensures v.Num? ==> IntMin <= r <= IntMax
    ensures v.Null? || v.Bool? || v.List? || v.Map? ==> r == default
  {
    match v
    case Num(n) => IntValue(n)
    case Str(s) =>
      var p := ParseInteger(JavaTrim(s), IntMin, IntMax);
      if p.Some? then p.value else default
    case _ => default
  }

  /**
   * `toLongSeconds`: a TTL in seconds turned into milliseconds; a missing
   * value keeps the default, a non-positive one disables expiry (0), and
   * the product wraps like Java's `long` multiplication.
   */
  function ToLongSeconds(v: Value, defaultMillis: int): (r: int)
    ensures v.Null? ==> r == defaultMillis
    ensures !v.Null? ==> LongMin <= r <= LongMax
  {
    if v.Null? then defaultMillis
    else
      var seconds := ToLong(v, if defaultMillis <= 0 then 0 else defaultMillis / 1000);
      if seconds <= 0 then 0 else Wrap64(seconds * 1000)
  }

  /** A whole number of seconds within `long` range becomes that many milliseconds; non-positive ones give 0. */
  lemma TtlSeconds(seconds: int, defaultMillis: int)
    requires seconds <= LongMax / 1000
    ensures seconds > 0 ==> ToLongSeconds(Num(Int(seconds)), defaultMillis) == seconds * 1000
    ensures LongMin <= seconds <= 0 ==> ToLongSeconds(Num(Int(seconds)), defaultMillis) == 0
  {
  }

  /** An unreadable value falls back to the default rounded down to whole seconds. */
  lemma TtlFallback(s: string, defaultMillis: int)
    requires ParseInteger(JavaTrim(s), LongMin, LongMax).None?
    requires 0 < defaultMillis <= LongMax
    ensures ToLongSeconds(Str(s), defaultMillis) == if defaultMillis < 1000 then 0 else defaultMillis / 1000 * 1000
    ensures ToLongSeconds(Str(s), defaultMillis) <= defaultMillis
  {
  }

  /** The strings of the non-null items, in order (`toStringList` before its default). */
  function NonNullStrings(items: seq<Value>, mapText: MapText): (r: seq<string>)
    ensures |r| <= |items|
    ensures r == [] <==> forall i :: 0 <= i < |items| ==> items[i].Null?
    ensures (forall i :: 0 <= i < |items| ==> !items[i].Null?) ==>
      |r| == |items| && forall i :: 0 <= i < |items| ==> r[i] == Stringify(items[i], mapText)
  {
    if items == [] then []
    else
      var init := items[..|items| - 1];
      var last := items[|items| - 1];
      var r := NonNullStrings(init, mapText) + (if last.Null? then [] else [Stringify(last, mapText)]);
      assert forall i :: 0 <= i < |init| ==> init[i] == items[i];
      r
  }

  /** `toStringList`: a non-list, or a list with nothing but nulls, yields the default. */
  function StringListOf(v: Value, default: seq<string>, mapText: MapText): (r: seq<string>)
    ensures !v.List? ==> r == default
    ensures default != [] ==> r != []
    ensures v.List? && (exists i :: 0 <= i < |v.items| && !v.items[i].Null?) ==> r == NonNullStrings(v.items, mapText)
  {
    if !v.List? then default
    else
      var r := NonNullStrings(v.items, mapText);
      if r == [] then default else r
  }

  lemma NonNullStringsStep(items: seq<Value>, i: nat, mapText: MapText)
    requires i < |items|
    ensures NonNullStrings(items[..i + 1], mapText) ==
      NonNullStrings(items[..i], mapText) + (if items[i].Null? then [] else [Stringify(items[i], mapText)])
  {
    assert items[..i + 1][..i] == items[..i];
  }

  method ToStringList(v: Value, default: seq<string>, mapText: MapText) returns (r: seq<string>)
    ensures r == StringListOf(v, default, mapText)
  {
    if !v.List? {
      return default;
    }
    var items := v.items;
    var result: seq<string> := [];
    for i := 0 to |items|
      invariant result == NonNullStrings(items[..i], mapText)
    {
      NonNullStringsStep(items, i, mapText);
      if !items[i].Null? {
        result := result + [Stringify(items[i], mapText)];
      }
    }
    assert items[..|items|] == items;
    r := if result == [] then default else result;
  }

  /**
   * `resolveCachePath`: a missing or blank candidate, or one `Path.of`
   * refuses, gives the fallback; an absolute path is kept; a relative one
   * is resolved against the root.
   */
  function ResolveCachePath(root: string, candidate: Option<string>, fallback: string): (r: string)
    ensures candidate.None? ==> r == fallback
    ensures candidate.Some? && IsBlank(candidate.value) ==> r == fallback
    ensures candidate.Some? && !IsBlank(candidate.value) && IsValidPath(candidate.value) ==>
      r == Resolve(root, candidate.value)
  {
    if candidate.None? || IsBlank(candidate.value) then fallback
    else if !IsValidPath(candidate.value) then fallback
    else if IsAbsolute(candidate.value) then candidate.value
    else Resolve(root, candidate.value)
  }

  datatype DiscoveryConfig = DiscoveryConfig(
    extensions: seq<string>,
    skipDirectories: seq<string>,
    skipFiles: seq<string>,
    cacheFile: string,
    cacheEnabled: bool,
    cacheTtlMillis: int,
    cacheLogWarnings: bool,
    runtimeCacheSize: int)

  const CacheFileName: string := ".adaptive-tests-cache.json"
  /** One day. */
  const DefaultTtlMillis: int := 24 * 60 * 60 * 1000
  const DefaultRuntimeCacheSize: int := 256

  function Defaults(root: string): (d: DiscoveryConfig)
    ensures d.extensions == [".java"]
    ensures d.skipDirectories == [".git", "target", "build", "out", "node_modules"]
    ensures d.skipFiles == ["Test.java", "Tests.java", "IT.java"]
    ensures d.cacheFile == Resolve(root, CacheFileName)
    ensures d.cacheEnabled && !d.cacheLogWarnings
    ensures d.cacheTtlMillis == 86_400_000 && d.runtimeCacheSize == 256
  {
    DiscoveryConfig(
      [".java"],
      [".git", "target", "build", "out", "node_modules"],
      ["Test.java", "Tests.java", "IT.java"],
      Resolve(root, CacheFileName),
      true,
      DefaultTtlMillis,
      false,
      DefaultRuntimeCacheSize)
  }

  /** `map.getOrDefault("cacheFile", defaults.cacheFile.toString())` as a string, or null. */
  function CacheFileCandidate(m: map<string, Value>, defaultFile: string, mapText: MapText): (c: Option<string>)
    ensures "cacheFile" !in m ==> c == Some(defaultFile)
    ensures "cacheFile" in m && m["cacheFile"].Null? ==> c.None?
    ensures "cacheFile" in m && m["cacheFile"].Str? ==> c == Some(m["cacheFile"].s)
  {
    if "cacheFile" !in m then Some(defaultFile)
    else if m["cacheFile"].Null? then None
    else Some(Stringify(m["cacheFile"], mapText))
  }

  /** The TTL entry of the cache section: `ttlSeconds`, unless it is null, then `ttl`. */
  function TtlValue(cache: map<string, Value>): (v: Value)
    ensures !Get(cache, "ttlSeconds").Null? ==> v == cache["ttlSeconds"]
    ensures Get(cache, "ttlSeconds").Null? ==> v == Get(cache, "ttl")
  {
    var seconds := Get(cache, "ttlSeconds");
    if seconds.Null? then Get(cache, "ttl") else seconds
  }

  /** What `fromMap` computes, stated as one expression. */
  function Configure(root: string, m: Option<map<string, Value>>, mapText: MapText): (c: DiscoveryConfig)
    ensures c.extensions != [] && c.skipDirectories != [] && c.skipFiles != []
    ensures m.None? ==> c == Defaults(root)
  {
    var d := Defaults(root);
    if m.None? then d
    else
      var settings := m.value;
      var extensions := StringListOf(Get(settings, "extensions"), d.extensions, mapText);
      var skipDirectories := StringListOf(Get(settings, "skipDirectories"), d.skipDirectories, mapText);
      var skipFiles := StringListOf(Get(settings, "skipFiles"), d.skipFiles, mapText);
      var cacheFile := ResolveCachePath(root, CacheFileCandidate(settings, d.cacheFile, mapText), d.cacheFile);
      var section := Get(settings, "cache");
      if section.Map? then
        var cache := section.entries;
        var file := Get(cache, "file");
        DiscoveryConfig(
          extensions, skipDirectories, skipFiles,
          if file.Null? then cacheFile else ResolveCachePath(root, Some(Stringify(file, mapText)), d.cacheFile),
          ToBoolean(Get(cache, "enabled"), d.cacheEnabled),
          ToLongSeconds(TtlValue(cache), d.cacheTtlMillis),
          ToBoolean(Get(cache, "logWarnings"), d.cacheLogWarnings),
          ToInt(Get(cache, "maxEntries"), d.runtimeCacheSize))
      else
        DiscoveryConfig(
          extensions, skipDirectories, skipFiles, cacheFile,
          ToBoolean(Get(settings, "cacheEnabled"), d.cacheEnabled),
          d.cacheTtlMillis, d.cacheLogWarnings, d.runtimeCacheSize)
  }

  /** `fromMap`: the settings start at the defaults and are overridden one after another. */
  method FromMap(root: string, m: Option<map<string, Value>>, mapText: MapText) returns (c: DiscoveryConfig)
    ensures c == Configure(root, m, mapText)
  {
    var defaults := Defaults(root);
    if m.None? {
      return defaults;
    }
    var settings := m.value;
    var extensions := ToStringList(Get(settings, "extensions"), defaults.extensions, mapText);
    var skipDirs := ToStringList(Get(settings, "skipDirectories"), defaults.skipDirectories, mapText);
    var skipFiles := ToStringList(Get(settings, "skipFiles"), defaults.skipFiles, mapText);

    var cachePathCandidate := CacheFileCandidate(settings, defaults.cacheFile, mapText);
    var cacheFile := ResolveCachePath(root, cachePathCandidate, defaults.cacheFile);

    var cacheEnabled := defaults.cacheEnabled;
    var cacheTtlMillis := defaults.cacheTtlMillis;
    var cacheLogWarnings := defaults.cacheLogWarnings;
    var runtimeCacheSize := defaults.runtimeCacheSize;

    var cacheSection := Get(settings, "cache");
    if cacheSection.Map? {
      var cacheMap := cacheSection.entries;
      cacheEnabled := ToBoolean(Get(cacheMap, "enabled"), cacheEnabled);
      cacheLogWarnings := ToBoolean(Get(cacheMap, "logWarnings"), cacheLogWarnings);
      runtimeCacheSize := ToInt(Get(cacheMap, "maxEntries"), runtimeCacheSize);

      var ttlValue := Get(cacheMap, "ttlSeconds");
      if ttlValue.Null? {
        ttlValue := Get(cacheMap, "ttl");
      }
      cacheTtlMillis := ToLongSeconds(ttlValue, cacheTtlMillis);

      var cacheFileOverride := Get(cacheMap, "file");
      if !cacheFileOverride.Null? {
        cacheFile := ResolveCachePath(root, Some(Stringify(cacheFileOverride, mapText)), defaults.cacheFile);
      }
    } else {
      cacheEnabled := ToBoolean(Get(settings, "cacheEnabled"), cacheEnabled);
    }
    c := DiscoveryConfig(extensions, skipDirs, skipFiles, cacheFile, cacheEnabled, cacheTtlMillis,
                         cacheLogWarnings, runtimeCacheSize);
  }

  /** The default cache file under an absolute root is an absolute, valid path. */
  lemma DefaultCacheFileValid(root: string)
    requires IsAbsolute(root) && IsValidPath(root)
    ensures IsAbsolute(Defaults(root).cacheFile) && IsValidPath(Defaults(root).cacheFile)
  {
    assert CacheFileName[0] == '.';
    assert forall i :: 0 <= i < |CacheFileName| ==> CacheFileName[i] != '\0';
    ResolvedIsValid(root, CacheFileName);
  }

  /** The default cache file under an absolute root survives its own re-resolution. */
  lemma DefaultCacheFileIsStable(root: string)
    requires IsAbsolute(root) && IsValidPath(root)
    ensures ResolveCachePath(root, Some(Defaults(root).cacheFile), Defaults(root).cacheFile) == Defaults(root).cacheFile
  {
    var f := Defaults(root).cacheFile;
    DefaultCacheFileValid(root);
    assert f[0] == '/';
    assert !IsWhitespace(f[0]);
  }

  /** An empty configuration map under an absolute root yields exactly the defaults. */
  lemma EmptyMapIsDefaults(root: string, mapText: MapText)
    requires IsAbsolute(root) && IsValidPath(root)
    ensures Configure(root, Some(map[]), mapText) == Defaults(root)
  {
    DefaultCacheFileIsStable(root);
  }

  /** In a cache section, a non-null `ttlSeconds` wins over `ttl`; a null one defers to it. */
  lemma TtlSecondsPrecedence(root: string, m: map<string, Value>, mapText: MapText)
    requires "cache" in m && m["cache"].Map?
    ensures var cache := m["cache"].entries;
      Configure(root, Some(m), mapText).cacheTtlMillis ==
        if Get(cache, "ttlSeconds").Null? then ToLongSeconds(Get(cache, "ttl"), 86_400_000)
        else ToLongSeconds(cache["ttlSeconds"], 86_400_000)
  {
  }

  /** Without a cache section only the top-level `cacheEnabled` is read; the other cache settings keep their defaults. */
  lemma NoCacheSection(root: string, m: map<string, Value>, mapText: MapText)
    requires !Get(m, "cache").Map?
    ensures var c := Configure(root, Some(m), mapText);
      c.cacheEnabled == ToBoolean(Get(m, "cacheEnabled"), true)
      && c.cacheTtlMillis == 86_400_000 && !c.cacheLogWarnings && c.runtimeCacheSize == 256
  {
  }

  /** A cache section hides the top-level `cacheEnabled`. */
  lemma CacheSectionHidesTopLevelFlag(root: string, m: map<string, Value>, flag: Value, mapText: MapText)
    requires "cache" in m && m["cache"].Map?
    ensures Configure(root, Some(m["cacheEnabled" := flag]), mapText).cacheEnabled
         == Configure(root, Some(m), mapText).cacheEnabled
  {
    var m2 := m["cacheEnabled" := flag];
    assert Get(m2, "cache") == Get(m, "cache");
  }
}
