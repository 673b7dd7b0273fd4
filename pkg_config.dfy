/**
 * The smaller Java discovery configuration of the packaged engine: three
 * lists and a cache file, read from a map with unchecked casts. A value of
 * the wrong kind makes `fromMap` throw, so the model returns a `Result`.
 */
module PkgConfig {
  import opened Text
  import opened JsonValue
  import opened JavaPath
  import JavaConfig

  /** Why `fromMap` or the constructor throws. */
  datatype ConfigError =
    | ClassCast(key: string)     // a setting is not a list (or the cache path not a string)
    | InvalidPath                // `Path.of` refuses the cache path
    | NullPointer(key: string)   // `List.copyOf` of a null list or of a list holding null

  /** The lists keep whatever elements the map held: the casts are unchecked. */
  datatype DiscoveryConfig = DiscoveryConfig(
    extensions: seq<Value>,
    skipDirectories: seq<Value>,
    skipFiles: seq<Value>,
    cacheFile: string)

  function Strings(names: seq<string>): (r: seq<Value>)
    ensures |r| == |names|
    ensures forall i :: 0 <= i < |r| ==> r[i] == Str(names[i])
  {
    seq(|names|, i requires 0 <= i < |names| => Str(names[i]))
  }

  function Defaults(root: string): (d: DiscoveryConfig)
    ensures d.extensions == Strings([".java"])
    ensures d.skipDirectories == Strings([".git", "target", "build", "out", "node_modules"])
    ensures d.skipFiles == Strings(["Test.java", "Tests.java", "IT.java"])
    ensures d.cacheFile == Resolve(root, ".adaptive-tests-cache.json")
  {
    DiscoveryConfig(
      Strings([".java"]),
      Strings([".git", "target", "build", "out", "node_modules"]),
      Strings(["Test.java", "Tests.java", "IT.java"]),
      Resolve(root, ".adaptive-tests-cache.json"))
  }

  predicate HasNull(list: seq<Value>) {
    exists i :: 0 <= i < |list| && list[i].Null?
  }

  /** `List.copyOf`: throws on a null list or a null element, otherwise an immutable copy. */
  function CopyOf(key: string, list: Option<seq<Value>>): (r: Result<seq<Value>, ConfigError>)
    ensures r.Ok? <==> list.Some? && !HasNull(list.value)
    ensures r.Ok? ==> r.value == list.value
    ensures r.Err? ==> r.error == NullPointer(key)
  {
    if list.None? || HasNull(list.value) then Err(NullPointer(key)) else Ok(list.value)
  }

  /** The constructor: each list is copied, in declaration order. */
  function New(extensions: Option<seq<Value>>, skipDirectories: Option<seq<Value>>, skipFiles: Option<seq<Value>>,
               cacheFile: string): (r: Result<DiscoveryConfig, ConfigError>)
    ensures r.Ok? <==> CopyOf("extensions", extensions).Ok? && CopyOf("skipDirectories", skipDirectories).Ok?
                        && CopyOf("skipFiles", skipFiles).Ok?
    ensures r.Ok? ==> r.value == DiscoveryConfig(extensions.value, skipDirectories.value, skipFiles.value, cacheFile)
  {
    var e := CopyOf("extensions", extensions);
    if e.Err? then Err(e.error)
    else
      var d := CopyOf("skipDirectories", skipDirectories);
      if d.Err? then Err(d.error)
      else
        var f := CopyOf("skipFiles", skipFiles);
        if f.Err? then Err(f.error)
        else Ok(DiscoveryConfig(e.value, d.value, f.value, cacheFile))
  }

  /** `(List<String>) map.getOrDefault(key, default)`: a null stays null, a non-list fails the cast. */
  function ListSetting(m: map<string, Value>, key: string, default: seq<Value>): (r: Result<Option<seq<Value>>, ConfigError>)
    ensures key !in m ==> r == Ok(Some(default))
    ensures key in m && m[key].List? ==> r == Ok(Some(m[key].items))
    ensures r.Err? <==> key in m && !m[key].List? && !m[key].Null?
  {
    if key !in m then Ok(Some(default))
    else match m[key]
      case Null => Ok(None)
      case List(items) => Ok(Some(items))
      case _ => Err(ClassCast(key))
  }

  /** `(String) map.getOrDefault("cacheFile", default)`. */
  function CachePathSetting(m: map<string, Value>, default: string): (r: Result<Option<string>, ConfigError>)
    ensures "cacheFile" !in m ==> r == Ok(Some(default))
    ensures "cacheFile" in m && m["cacheFile"].Str? ==> r == Ok(Some(m["cacheFile"].s))
    ensures r.Err? <==> "cacheFile" in m && !m["cacheFile"].Str? && !m["cacheFile"].Null?
  {
    if "cacheFile" !in m then Ok(Some(default))
    else match m["cacheFile"]
      case Null => Ok(None)
      case Str(s) => Ok(Some(s))
      case _ => Err(ClassCast("cacheFile"))
  }

  /** A null or empty cache path gives the default; otherwise absolute paths are kept and relative ones resolved. */
  function ResolveCache(root: string, path: Option<string>, default: string): (r: Result<string, ConfigError>)
    ensures path.None? || path.value == "" ==> r == Ok(default)
    ensures path.Some? && path.value != "" ==> (r.Err? <==> !IsValidPath(path.value))
    ensures path.Some? && path.value != "" && IsValidPath(path.value) ==> r == Ok(Resolve(root, path.value))
  {
    if path.None? || path.value == "" then Ok(default)
    else if !IsValidPath(path.value) then Err(InvalidPath)
    else if IsAbsolute(path.value) then Ok(path.value)
    else Ok(Resolve(root, path.value))
  }

  function FromMap(root: string, m: Option<map<string, Value>>): (r: Result<DiscoveryConfig, ConfigError>)
    ensures m.None? ==> r == Ok(Defaults(root))
  {
    var defaults := Defaults(root);
    if m.None? then Ok(defaults)
    else
      var settings := m.value;
      var extensions := ListSetting(settings, "extensions", defaults.extensions);
      if extensions.Err? then Err(extensions.error)
      else
        var skipDirs := ListSetting(settings, "skipDirectories", defaults.skipDirectories);
        if skipDirs.Err? then Err(skipDirs.error)
        else
          var skipFiles := ListSetting(settings, "skipFiles", defaults.skipFiles);
          if skipFiles.Err? then Err(skipFiles.error)
          else
            var cachePath := CachePathSetting(settings, defaults.cacheFile);
            if cachePath.Err? then Err(cachePath.error)
            else
              var cacheFile := ResolveCache(root, cachePath.value, defaults.cacheFile);
              if cacheFile.Err? then Err(cacheFile.error)
              else New(extensions.value, skipDirs.value, skipFiles.value, cacheFile.value)
  }

  /** No default list holds a null, so copying the defaults never throws. */
  lemma DefaultListsHaveNoNull(root: string)
    ensures var d := Defaults(root);
      !HasNull(d.extensions) && !HasNull(d.skipDirectories) && !HasNull(d.skipFiles)
  {
    var d := Defaults(root);
    forall i | 0 <= i < |d.extensions| ensures !d.extensions[i].Null? { }
    forall i | 0 <= i < |d.skipDirectories| ensures !d.skipDirectories[i].Null? { }
    forall i | 0 <= i < |d.skipFiles| ensures !d.skipFiles[i].Null? { }
  }

  /** Keys the map does not mention fall back to the defaults; under an absolute root nothing else changes. */
  lemma MissingKeysFallBack(root: string, m: map<string, Value>)
    requires IsAbsolute(root) && IsValidPath(root)
    requires "extensions" !in m && "skipDirectories" !in m && "skipFiles" !in m && "cacheFile" !in m
    ensures FromMap(root, Some(m)) == Ok(Defaults(root))
  {
    var name := ".adaptive-tests-cache.json";
    assert forall i :: 0 <= i < |name| ==> name[i] != '\0';
    ResolvedIsValid(root, name);
    var f := Defaults(root).cacheFile;
    assert f[0] == '/';
    DefaultListsHaveNoNull(root);
  }

  /** The cache path alone: empty gives the default, absolute is kept, relative is resolved against the root. */
  lemma CachePathOnly(root: string, path: string)
    requires IsValidPath(path)
    ensures var r := FromMap(root, Some(map["cacheFile" := Str(path)]));
      r.Ok? && r.value.cacheFile == (if path == "" then Defaults(root).cacheFile else Resolve(root, path))
  {
    DefaultListsHaveNoNull(root);
  }

  /** A setting that is not a list makes `fromMap` fail instead of falling back. */
  lemma NonListFails(root: string, m: map<string, Value>, s: string)
    ensures FromMap(root, Some(m["extensions" := Str(s)])) == Err(ClassCast("extensions"))
  {
  }

  /**
   * A blank cache path is treated differently by the two configurations:
   * this one resolves it against the root, the full configuration falls
   * back to the default file.
   */
  lemma BlankCachePathDiverges(root: string)
    requires IsAbsolute(root)
    ensures var r := FromMap(root, Some(map["cacheFile" := Str(" ")]));
      r.Ok? && r.value.cacheFile == Resolve(root, " ") && r.value.cacheFile != Defaults(root).cacheFile
    ensures JavaConfig.ResolveCachePath(root, Some(" "), JavaConfig.Defaults(root).cacheFile)
      == JavaConfig.Defaults(root).cacheFile
  {
    CachePathOnly(root, " ");
    assert root != "";
    var blank := Resolve(root, " ");
    var json := Defaults(root).cacheFile;
    assert blank[|blank| - 1] == ' ';
    assert json[|json| - 1] == 'n';
  }
}
