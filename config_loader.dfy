/**
 * Loading the Java discovery configuration: the project file, then the
 * Java-specific file, then inline overrides are deep-merged into one map,
 * whose `discovery` section is handed to `fromMap`.
 */
module ConfigLoader {
  import opened Text
  import opened JsonValue
  import opened JavaPath
  import opened JavaConfig

  /**
   * `mergeInto(target, source)` as a value: every key of `source` lands in
   * the result; where both sides hold maps they are merged recursively,
   * otherwise the incoming value replaces the existing one.
   */
  function Merge(target: map<string, Value>, source: map<string, Value>): (r: map<string, Value>)
    ensures r.Keys == target.Keys + source.Keys
    ensures forall k :: k in target && k !in source ==> r[k] == target[k]
    ensures forall k :: k in source && !(k in target && target[k].Map? && source[k].Map?) ==> r[k] == source[k]
    ensures forall k :: k in source && k in target && target[k].Map? && source[k].Map? ==> r[k].Map?
    decreases Map(source)
  {
    map k | k in target.Keys + source.Keys ::
      if k !in source then target[k]
      else if k in target && target[k].Map? && source[k].Map? then Map(Merge(target[k].entries, source[k].entries))
      else source[k]
  }

  /** Merging an empty map changes nothing. */
  lemma MergeEmptySource(target: map<string, Value>)
    ensures Merge(target, map[]) == target
  {
  }

  /** Merging into an empty map copies the source. */
  lemma MergeIntoEmpty(source: map<string, Value>)
    ensures Merge(map[], source) == source
  {
  }

  /** Merging a map into itself changes nothing. */
  lemma {:induction false} MergeSelf(m: map<string, Value>)
    ensures Merge(m, m) == m
    decreases Map(m)
  {
    var r := Merge(m, m);
    forall k | k in m
      ensures r[k] == m[k]
    {
      if m[k].Map? {
        MergeSelf(m[k].entries);
      }
    }
  }

  /** Merging the same source twice is the same as merging it once. */
  lemma {:induction false} MergeIdempotent(target: map<string, Value>, source: map<string, Value>)
    ensures Merge(Merge(target, source), source) == Merge(target, source)
    decreases Map(source)
  {
    var once := Merge(target, source);
    var twice := Merge(once, source);
    forall k | k in twice
      ensures twice[k] == once[k]
    {
      if k in source && source[k].Map? {
        if k in target && target[k].Map? {
          MergeIdempotent(target[k].entries, source[k].entries);
        } else {
          MergeSelf(source[k].entries);
        }
      }
    }
  }

  /** A later non-map value wins over whatever an earlier merge put there. */
  lemma LaterScalarWins(target: map<string, Value>, first: map<string, Value>, second: map<string, Value>, k: string)
    requires k in second && !second[k].Map?
    ensures Merge(Merge(target, first), second)[k] == second[k]
  {
  }

  /** The merge loop over the source's entries, recursing into nested maps. */
  method MergeMaps(target: map<string, Value>, source: map<string, Value>) returns (r: map<string, Value>)
    ensures r == Merge(target, source)
    decreases Map(source)
  {
    r := target;
    var remaining := source.Keys;
    while remaining != {}
      invariant remaining <= source.Keys
      invariant r.Keys == target.Keys + (source.Keys - remaining)
      invariant forall k :: k in r && k !in source.Keys - remaining ==> r[k] == target[k]
      invariant forall k :: k in source.Keys - remaining ==> r[k] == Merge(target, source)[k]
      decreases remaining
    {
      var key :| key in remaining;
      var existing := Get(r, key);
      var incoming := source[key];
      assert existing == Get(target, key);
      if existing.Map? && incoming.Map? {
        var nested := MergeMaps(existing.entries, incoming.entries);
        r := r[key := Map(nested)];
      } else {
        r := r[key := incoming];
      }
      remaining := remaining - {key};
    }
    assert source.Keys - remaining == source.Keys;
  }

  /** A mutable configuration map, as `load` threads it through successive merges. */
  class ConfigMap {
    var entries: map<string, Value>

    constructor (initial: map<string, Value>)
      ensures entries == initial
    {
      entries := initial;
    }

    method MergeInto(source: map<string, Value>)
      modifies this
      ensures entries == Merge(old(entries), source)
    {
      entries := MergeMaps(entries, source);
    }
  }

  /** `castMap`: a map section as it is, anything else as an empty map. */
  function Section(v: Value): (m: map<string, Value>)
    ensures v.Map? ==> m == v.entries
    ensures !v.Map? ==> m == map[]
  {
    if v.Map? then v.entries else map[]
  }

  /** `castMap`'s copy loop: every entry of a map section is copied. */
  method CastMap(v: Value) returns (r: map<string, Value>)
    ensures r == Section(v)
  {
    r := map[];
    if v.Map? {
      var raw := v.entries;
      var remaining := raw.Keys;
      while remaining != {}
        invariant remaining <= raw.Keys
        invariant r.Keys == raw.Keys - remaining
        invariant forall k :: k in r ==> r[k] == raw[k]
        decreases remaining
      {
        var key :| key in remaining;
        r := r[key := raw[key]];
        remaining := remaining - {key};
      }
    }
  }

  const Initial: map<string, Value> := map["discovery" := Map(map[])]

  /** One optional source merged in; a missing one changes nothing. */
  function MergeOptional(base: map<string, Value>, source: Option<map<string, Value>>): (r: map<string, Value>)
    ensures source.None? ==> r == base
    ensures source.Some? ==> r == Merge(base, source.value)
  {
    if source.Some? then Merge(base, source.value) else base
  }

  /** Optional sources merged in precedence order, lowest first. */
  function MergeAll(base: map<string, Value>, sources: seq<Option<map<string, Value>>>): (r: map<string, Value>)
    ensures base.Keys <= r.Keys
    ensures (forall i :: 0 <= i < |sources| ==> sources[i].None?) ==> r == base
    decreases |sources|
  {
    if sources == [] then base
    else MergeAll(MergeOptional(base, sources[0]), sources[1..])
  }

  /** Three sources are merged one after another. */
  lemma MergeAllThree(base: map<string, Value>, a: Option<map<string, Value>>, b: Option<map<string, Value>>,
                      c: Option<map<string, Value>>)
    ensures MergeAll(base, [a, b, c]) == MergeOptional(MergeOptional(MergeOptional(base, a), b), c)
  {
    var x := MergeOptional(base, a);
    var y := MergeOptional(x, b);
    assert [a, b, c][1..] == [b, c];
    assert [b, c][1..] == [c];
    assert [c][1..] == [];
    assert MergeAll(y, [c]) == MergeAll(MergeOptional(y, c), []);
    assert MergeAll(x, [b, c]) == MergeAll(y, [c]);
  }

  /** The `discovery` section after the project file, the Java file and the inline overrides. */
  function Settings(projectFile: Option<map<string, Value>>, javaFile: Option<map<string, Value>>,
                    inline: Option<map<string, Value>>): (m: map<string, Value>)
    ensures projectFile.None? && javaFile.None? && inline.None? ==> m == map[]
  {
    Section(Get(MergeAll(Initial, [projectFile, javaFile, inline]), "discovery"))
  }

  /**
   * `load`: a file that is missing or does not parse contributes nothing
   * (`None`); the merged `discovery` section configures the engine.
   */
  method Load(root: string, projectFile: Option<map<string, Value>>, javaFile: Option<map<string, Value>>,
              inline: Option<map<string, Value>>, mapText: MapText) returns (config: DiscoveryConfig)
    ensures config == Configure(root, Some(Settings(projectFile, javaFile, inline)), mapText)
  {
    var merged := new ConfigMap(Initial);
    if projectFile.Some? {
      merged.MergeInto(projectFile.value);
    }
    assert merged.entries == MergeOptional(Initial, projectFile);
    if javaFile.Some? {
      merged.MergeInto(javaFile.value);
    }
    assert merged.entries == MergeOptional(MergeOptional(Initial, projectFile), javaFile);
    if inline.Some? {
      merged.MergeInto(inline.value);
    }
    MergeAllThree(Initial, projectFile, javaFile, inline);
    var discovery := CastMap(Get(merged.entries, "discovery"));
    config := FromMap(root, Some(discovery), mapText);
  }

  /** With no file and no overrides, an absolute root is configured with the defaults. */
  lemma NothingConfigured(root: string, mapText: MapText)
    requires IsAbsolute(root) && IsValidPath(root)
    ensures Configure(root, Some(Settings(None, None, None)), mapText) == Defaults(root)
  {
    EmptyMapIsDefaults(root, mapText);
  }

  /** A non-map setting in the inline overrides' `discovery` section beats both files. */
  lemma InlineWins(projectFile: Option<map<string, Value>>, javaFile: Option<map<string, Value>>,
                   inline: map<string, Value>, k: string)
    requires "discovery" in inline && inline["discovery"].Map?
    requires k in inline["discovery"].entries && !inline["discovery"].entries[k].Map?
    ensures k in Settings(projectFile, javaFile, Some(inline))
    ensures Settings(projectFile, javaFile, Some(inline))[k] == inline["discovery"].entries[k]
  {
    MergeAllThree(Initial, projectFile, javaFile, Some(inline));
  }

  /** The Java file's settings beat the project file's, key by key, when no override touches them. */
  lemma JavaFileBeatsProjectFile(projectFile: Option<map<string, Value>>, javaFile: map<string, Value>, k: string)
    requires "discovery" in javaFile && javaFile["discovery"].Map?
    requires k in javaFile["discovery"].entries && !javaFile["discovery"].entries[k].Map?
    ensures k in Settings(projectFile, Some(javaFile), None)
    ensures Settings(projectFile, Some(javaFile), None)[k] == javaFile["discovery"].entries[k]
  {
    MergeAllThree(Initial, projectFile, Some(javaFile), None);
  }
}
