/**
 * The slice of `java.nio.file.Path` (Unix flavour) and `java.lang.String`
 * that the Java configuration code relies on: absolute paths, resolving a
 * relative path against a root, the characters `Path.of` refuses, and the
 * whitespace notions of `String.trim` and `String.isBlank`.
 */
module JavaPath {
  import opened Text

  /** A path is absolute when it starts at the file-system root. */
  predicate IsAbsolute(p: string) {
    StartsWith(p, "/")
  }

  /** `Path.of` throws `InvalidPathException` on a NUL character. */
  predicate IsValidPath(p: string) {
    '\0' !in p
  }

  /** `root.resolve(other)`: an absolute or empty `other` needs no root. */
  function Resolve(root: string, other: string): (r: string)
    ensures IsAbsolute(other) ==> r == other
    ensures other == "" ==> r == root
    ensures !IsAbsolute(other) && other != "" && root != "" ==> StartsWith(r, root) && EndsWith(r, other)
    ensures IsAbsolute(root) && other != "" ==> IsAbsolute(r)
  {
    if IsAbsolute(other) || root == "" then other
    else if other == "" then root
    else if EndsWith(root, "/") then root + other
    else root + "/" + other
  }

  /** Resolving a valid path against an absolute, valid root gives an absolute, valid path. */
  lemma ResolvedIsValid(root: string, other: string)
    requires IsAbsolute(root) && IsValidPath(root) && IsValidPath(other)
    ensures IsAbsolute(Resolve(root, other)) && IsValidPath(Resolve(root, other))
  {
    if !IsAbsolute(other) && other != "" {
      var sep := if EndsWith(root, "/") then "" else "/";
      assert Resolve(root, other) == root + sep + other;
      assert '\0' !in sep;
    }
  }

  /** The characters `String.trim` strips: every code point up to the space. */
  predicate IsTrimmed(c: char) {
    c <= ' '
  }

  function TrimLeading(s: string): (r: string)
    ensures |r| <= |s| && r == s[|s| - |r|..]
    ensures r == [] || !IsTrimmed(r[0])
    ensures forall i :: 0 <= i < |s| - |r| ==> IsTrimmed(s[i])
  {
    if |s| > 0 && IsTrimmed(s[0]) then
      var t := TrimLeading(s[1..]);
      assert s[1..][|s| - 1 - |t|..] == s[|s| - |t|..];
      assert forall i :: 1 <= i < |s| - |t| ==> s[i] == s[1..][i - 1];
      t
    else s
  }

  function TrimTrailing(s: string): (r: string)
    ensures |r| <= |s| && r == s[..|r|]
    ensures r == [] || !IsTrimmed(r[|r| - 1])
    ensures forall i :: |r| <= i < |s| ==> IsTrimmed(s[i])
  {
    if |s| > 0 && IsTrimmed(s[|s| - 1]) then
      var t := TrimTrailing(s[..|s| - 1]);
      assert s[..|s| - 1][..|t|] == s[..|t|];
      t
    else s
  }

  /** `String.trim`. */
  function JavaTrim(s: string): (r: string)
    ensures |r| <= |s|
    ensures r == [] || (!IsTrimmed(r[0]) && !IsTrimmed(r[|r| - 1]))
    ensures (forall i :: 0 <= i < |s| ==> !IsTrimmed(s[i])) ==> r == s
  {
    TrimTrailing(TrimLeading(s))
  }

  /** `Character.isWhitespace` on ASCII: space, tab, line breaks, form feed and the separators 0x1C-0x1F. */
  predicate IsWhitespace(c: char) {
    c == ' ' || ('\t' <= c <= '\r') || ('\U{1C}' <= c <= '\U{1F}')
  }

  /** `String.isBlank`. */
  predicate IsBlank(s: string) {
    forall i :: 0 <= i < |s| ==> IsWhitespace(s[i])
  }
}
