/**
 * The loosely typed values a parsed JSON configuration hands to the Java
 * configuration code (`Map<String, Object>` and what it contains), and
 * Java's `toString` of them.
 */
module JsonValue {
  import opened Text

  /**
   * A JSON number as the parser delivers it: an integer (`Integer`, `Long`
   * or `BigInteger`), or a floating-point value (`Double`) with its exact
   * value and its Java rendering (`Double.toString`).
   */
  datatype Number = Int(i: int) | Float(r: real, text: string)

  datatype Value =
    | Null
    | Bool(b: bool)
    | Num(n: Number)
    | Str(s: string)
    | List(items: seq<Value>)
    | Map(entries: map<string, Value>)

  /** `map.get(key)`: a missing key reads as null. */
  function Get(m: map<string, Value>, key: string): (v: Value)
    ensures key !in m ==> v == Null
    ensures key in m ==> v == m[key]
  {
    if key in m then m[key] else Null
  }

  /** Java's rendering of a map, whose entry order the hash map decides. */
  type MapText = map<string, Value> -> string

  /** Decimal rendering of a Java integer, with a leading `-` when negative. */
  function IntToString(i: int): (r: string)
    ensures |r| >= 1
    ensures i >= 0 ==> r == NatToString(i)
    ensures i < 0 ==> r == "-" + NatToString(-i)
  {
    if i >= 0 then NatToString(i) else "-" + NatToString(-i)
  }

  /** `String.valueOf(v)`: strings as they are, lists as `[a, b]`, maps by `mapText`. */
  function Stringify(v: Value, mapText: MapText): (r: string)
    ensures v.Str? ==> r == v.s
    ensures v.List? ==> StartsWith(r, "[") && EndsWith(r, "]")
    decreases v, 1
  {
    match v
    case Null => "null"
    case Bool(b) => if b then "true" else "false"
    case Num(Int(i)) => IntToString(i)
    case Num(Float(_, text)) => text
    case Str(s) => s
    case List(items) =>
      var inner := Join(StringifyAll(items, mapText), ", ");
      assert ("[" + inner + "]")[..1] == "[";
      assert ("[" + inner + "]")[|"[" + inner + "]"| - 1..] == "]";
      "[" + inner + "]"
    case Map(entries) => mapText(entries)
  }

  function StringifyAll(items: seq<Value>, mapText: MapText): (r: seq<string>)
    ensures |r| == |items|
    decreases items, 0
  {
    if items == [] then [] else [Stringify(items[0], mapText)] + StringifyAll(items[1..], mapText)
  }
}
