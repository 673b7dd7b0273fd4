/**
 * Splitting text into lines: at every '\n' (what a multi-line regex sees as
 * line starts), and the way Rust's `str::lines` does it (a final empty line is
 * not reported and a "\r\n" ending loses its '\r').
 */
module LineSplit {
  import opened Text

  /** The pieces of `s` between '\n' characters, first to last. */
  function SplitLines(s: string): (r: seq<string>)
    ensures |r| >= 1
    ensures forall i :: 0 <= i < |r| ==> '\n' !in r[i]
    decreases |s|
  {
    match IndexOf(s, '\n')
    case None => [s]
    case Some(k) => [s[..k]] + SplitLines(s[k + 1..])
  }

  /** Joining the pieces with '\n' gives back the text. */
  lemma {:induction false} SplitLinesJoin(s: string)
    ensures Join(SplitLines(s), "\n") == s
    decreases |s|
  {
    var found := IndexOf(s, '\n');
    if found.Some? {
      var k := found.value;
      var p, rest := s[..k], s[k + 1..];
      assert s == p + "\n" + rest;
      SplitLinesJoin(rest);
      SplitFirstPiece(p, rest);
      JoinFront(p, SplitLines(rest), "\n");
    }
  }

  /** Joining a piece in front of at least one more. */
  lemma JoinFront(p: string, qs: seq<string>, sep: string)
    requires |qs| >= 1
    ensures Join([p] + qs, sep) == p + sep + Join(qs, sep)
  {
    assert ([p] + qs)[1..] == qs;
  }

  /** Splitting text with no '\n' inside its pieces inverts joining. */
  lemma {:induction false} JoinSplitLines(parts: seq<string>)
    requires |parts| >= 1
    requires forall i :: 0 <= i < |parts| ==> '\n' !in parts[i]
    ensures SplitLines(Join(parts, "\n")) == parts
    decreases |parts|
  {
    if |parts| > 1 {
      var rest := Join(parts[1..], "\n");
      assert Join(parts, "\n") == parts[0] + "\n" + rest;
      SplitFirstPiece(parts[0], rest);
      JoinSplitLines(parts[1..]);
      assert parts == [parts[0]] + parts[1..];
    }
  }

  /** A piece without '\n' followed by '\n' splits off as the first line. */
  lemma SplitFirstPiece(piece: string, rest: string)
    requires '\n' !in piece
    ensures SplitLines(piece + "\n" + rest) == [piece] + SplitLines(rest)
  {
    var s := piece + "\n" + rest;
    var k := |piece|;
    assert s[k] == '\n' && s[..k] == piece;
    var found := IndexOf(s, '\n');
    assert found == Some(k);
    assert s[k + 1..] == rest;
  }

  /** A line without the '\r' it ends with, if any. */
  function DropCR(line: string): string {
    if |line| > 0 && line[|line| - 1] == '\r' then line[..|line| - 1] else line
  }

  /** Each line with the '\r' of a "\r\n" ending removed. */
  function DropCRs(lines: seq<string>): (r: seq<string>)
    ensures |r| == |lines|
    ensures forall i :: 0 <= i < |r| ==> r[i] == DropCR(lines[i])
  {
    if lines == [] then [] else [DropCR(lines[0])] + DropCRs(lines[1..])
  }

  /** The lines reported for the '\n'-separated pieces: every piece but the
      last loses the '\r' before its '\n', and an empty last piece is dropped. */
  function LinesOf(ps: seq<string>): (r: seq<string>)
    requires |ps| >= 1
    ensures |ps| - 1 <= |r| <= |ps|
    ensures forall i :: 0 <= i < |r| && i < |ps| - 1 ==> r[i] == DropCR(ps[i])
    ensures |r| == |ps| ==> r[|ps| - 1] == ps[|ps| - 1]
  {
    var last := ps[|ps| - 1];
    var body := DropCRs(ps[..|ps| - 1]);
    if last == [] then body else body + [last]
  }

  /** A piece in front adds exactly its own line. */
  lemma LinesOfCons(p: string, qs: seq<string>)
    requires |qs| >= 1
    ensures LinesOf([p] + qs) == [DropCR(p)] + LinesOf(qs)
  {
    var ps := [p] + qs;
    assert ps[|ps| - 1] == qs[|qs| - 1];
    assert ps[..|ps| - 1] == [p] + qs[..|qs| - 1];
    assert ([p] + qs[..|qs| - 1])[1..] == qs[..|qs| - 1];
  }

  /** Rust's `str::lines`: the pieces, without a final empty one and with the
      '\r' of every "\r\n" ending removed. */
  function StrLines(s: string): (r: seq<string>)
    ensures forall i :: 0 <= i < |r| ==> '\n' !in r[i]
    ensures |SplitLines(s)| - 1 <= |r| <= |SplitLines(s)|
    ensures s == [] ==> r == []
  {
    var ps := SplitLines(s);
    var r := LinesOf(ps);
    forall i | 0 <= i < |r| ensures '\n' !in r[i] {
      if i < |ps| - 1 && r[i] != ps[i] {
        assert r[i] == ps[i][..|ps[i]| - 1];
        assert forall c :: c in r[i] ==> c in ps[i];
      }
    }
    r
  }

  /** A line ended by '\n' is reported without the '\n' and without a '\r'
      just before it, and the rest of the text is split on its own. */
  lemma StrLinesCons(p: string, rest: string)
    requires '\n' !in p
    ensures StrLines(p + "\n" + rest) == [DropCR(p)] + StrLines(rest)
  {
    SplitFirstPiece(p, rest);
    LinesOfCons(p, SplitLines(rest));
  }

  /** A "\r\n" ending loses its '\r' along with the '\n'. */
  lemma StrLinesCrlf(p: string, rest: string)
    requires '\n' !in p
    ensures StrLines(p + "\r\n" + rest) == [p] + StrLines(rest)
  {
    assert p + "\r\n" + rest == (p + "\r") + "\n" + rest;
    assert '\n' !in p + "\r";
    StrLinesCons(p + "\r", rest);
    assert (p + "\r")[..|p|] == p;
  }

  /** The last line, with no '\n' after it, is reported as it is, '\r' and all,
      unless it is empty. */
  lemma StrLinesLast(p: string)
    requires '\n' !in p
    ensures StrLines(p) == if p == [] then [] else [p]
  {
    assert SplitLines(p) == [p];
  }

  lemma NoCR(p: string)
    requires '\r' !in p
    ensures DropCR(p) == p
  {
    if p != [] {
      assert p[|p| - 1] in p;
    }
  }

  /** For text with no '\r' that does not end in '\n', the lines are the
      '\n'-separated pieces, and a final '\n' adds no empty line. */
  lemma {:induction false} StrLinesPlain(s: string)
    requires s != [] && '\r' !in s && s[|s| - 1] != '\n'
    ensures StrLines(s) == SplitLines(s)
    ensures StrLines(s + "\n") == SplitLines(s)
    decreases |s|
  {
    var found := IndexOf(s, '\n');
    if found.None? {
      NoCR(s);
      StrLinesLast(s);
      StrLinesCons(s, "");
      assert s + "\n" == s + "\n" + "";
    } else {
      var p, rest := SplitAtFirst(s, found.value);
      StrLinesPlain(rest);
      PlainStep(p, rest);
      PlainStepNewline(p, rest);
    }
  }

  /** Text with no '\r' that does not end in '\n', cut at its first '\n'. */
  lemma SplitAtFirst(s: string, k: nat) returns (p: string, rest: string)
    requires k < |s| && s[k] == '\n' && '\n' !in s[..k]
    requires '\r' !in s && s[|s| - 1] != '\n'
    ensures s == p + "\n" + rest && s + "\n" == p + "\n" + (rest + "\n")
    ensures '\n' !in p && '\r' !in p && '\r' !in rest
    ensures rest != [] && rest[|rest| - 1] != '\n' && |rest| < |s|
  {
    p, rest := s[..k], s[k + 1..];
    assert s == p + "\n" + rest;
    assert rest[|rest| - 1] == s[|s| - 1];
  }

  /** One step of `StrLinesPlain`: a first line without '\r' in front of text already split plainly. */
  lemma PlainStep(p: string, rest: string)
    requires '\n' !in p && '\r' !in p
    requires StrLines(rest) == SplitLines(rest)
    ensures StrLines(p + "\n" + rest) == SplitLines(p + "\n" + rest)
  {
    SplitFirstPiece(p, rest);
    NoCR(p);
    StrLinesCons(p, rest);
  }

  /** The same step with the final '\n' in place. */
  lemma PlainStepNewline(p: string, rest: string)
    requires '\n' !in p && '\r' !in p
    requires StrLines(rest + "\n") == SplitLines(rest)
    ensures StrLines(p + "\n" + (rest + "\n")) == SplitLines(p + "\n" + rest)
  {
    SplitFirstPiece(p, rest);
    NoCR(p);
    StrLinesCons(p, rest + "\n");
  }
}
