/** Small pure helpers of the game (libs/utils.py): rounding half away from
    zero, stripping `//` comments from chart text, and the scroll speed of a
    note lane in pixels per frame. Python floats are modelled as `real`. */
module Utils {
  import opened Common

  function Abs(x: real): real {
    if x >= 0.0 then x else -x
  }

  /** `rounded`: the integer part of |x| plus one when the fraction is at
      least one half, with the sign of x put back. */
  function Rounded(x: real): (r: int)
    ensures Abs(r as real - x) <= 0.5
    ensures Abs(r as real - x) == 0.5 ==> Abs(r as real) > Abs(x)
    ensures x >= 0.0 ==> r >= 0
    ensures x <= 0.0 ==> r <= 0
  {
    var sign := if x >= 0.0 then 1 else -1;
    var a := Abs(x);
    var whole := a.Floor;
    sign * (if a - whole as real >= 0.5 then whole + 1 else whole)
  }

  /** Rounding commutes with negation: ties go away from zero on both sides. */
  lemma RoundedOdd(x: real)
    ensures Rounded(-x) == -Rounded(x)
  {
    assert Abs(-x) == Abs(x);
  }

  /** The result of `rounded` is the only integer within one half of x that
      breaks ties away from zero. */
  lemma RoundedUnique(x: real, n: int)
    requires Abs(n as real - x) <= 0.5
    requires Abs(n as real - x) == 0.5 ==> Abs(n as real) > Abs(x)
    ensures n == Rounded(x)
  {
  }

  /** Python's `str.isspace` for one character: the ASCII and Unicode
      whitespace and separator characters. */
  predicate IsSpace(c: char) {
    || c == ' ' || ('\t' <= c <= '\r') || ('\U{1c}' <= c <= '\U{1f}')
    || c == '\U{85}' || c == '\U{a0}' || c == '\U{1680}'
    || ('\U{2000}' <= c <= '\U{200a}') || c == '\U{2028}' || c == '\U{2029}'
    || c == '\U{202f}' || c == '\U{205f}' || c == '\U{3000}'
  }

  /** `s.isspace()`: false on the empty string. */
  predicate AllSpace(s: string) {
    |s| > 0 && forall i :: 0 <= i < |s| ==> IsSpace(s[i])
  }

  /** A `//` starts at position i of `line`. */
  predicate CommentAt(line: string, i: int) {
    0 <= i && i + 1 < |line| && line[i] == '/' && line[i + 1] == '/'
  }

  /** `line.find('//')`: the first position of `//`, or None for -1. */
  function FindComment(line: string): (r: Option<nat>)
    ensures r.Some? ==> CommentAt(line, r.value)
    ensures r.Some? ==> forall j :: 0 <= j < r.value ==> !CommentAt(line, j)
    ensures r.None? ==> forall j :: 0 <= j < |line| ==> !CommentAt(line, j)
  {
    if |line| < 2 then None
    else if line[0] == '/' && line[1] == '/' then Some(0)
    else
      assert forall k :: 1 <= k < |line| ==> (CommentAt(line, k) <==> CommentAt(line[1..], k - 1));
      match FindComment(line[1..])
      case None => None
      case Some(i) => Some(i + 1)
  }

  /** What one line contributes to the output of `strip_comments`. */
  function KeptPart(line: string): (r: string)
    ensures FindComment(line).None? ==> r == line
    ensures FindComment(line).Some? ==> r == line[..FindComment(line).value] || r == []
    ensures forall j :: 0 <= j < |r| ==> !CommentAt(r, j)
    ensures |r| <= |line|
  {
    match FindComment(line)
    case None => line
    case Some(i) =>
      assert forall j :: 0 <= j < i ==> (CommentAt(line[..i], j) ==> CommentAt(line, j));
      if i != 0 && !AllSpace(line[..i]) then line[..i] else []
  }

  /** A commented line whose comment starts the line or follows nothing but
      whitespace contributes nothing. */
  lemma CommentOnlyLineVanishes(line: string, i: nat)
    requires CommentAt(line, i)
    requires forall j :: 0 <= j < i ==> IsSpace(line[j])
    ensures KeptPart(line) == []
  {
    var f := FindComment(line);
    assert f.Some? && f.value <= i;
    if f.value != 0 {
      assert AllSpace(line[..f.value]);
    }
  }

  /** A line with text before its first comment keeps exactly that text. */
  lemma CodeBeforeCommentKept(line: string, i: nat)
    requires CommentAt(line, i)
    requires forall j :: 0 <= j < i ==> !CommentAt(line, j)
    requires exists j :: 0 <= j < i && !IsSpace(line[j])
    ensures KeptPart(line) == line[..i]
  {
    var f := FindComment(line);
    assert f == Some(i);
    var j :| 0 <= j < i && !IsSpace(line[j]);
    assert line[..i][j] == line[j];
  }

  /** The concatenation of the kept parts, the reference for `strip_comments`. */
  function Concat(lines: seq<string>): string {
    if |lines| == 0 then [] else Concat(lines[..|lines| - 1]) + KeptPart(lines[|lines| - 1])
  }

  function TotalLength(lines: seq<string>): nat {
    if |lines| == 0 then 0 else TotalLength(lines[..|lines| - 1]) + |lines[|lines| - 1]|
  }

  lemma {:induction false} ConcatShorter(lines: seq<string>)
    ensures |Concat(lines)| <= TotalLength(lines)
  {
    if |lines| > 0 {
      ConcatShorter(lines[..|lines| - 1]);
    }
  }

  /** `strip_comments` over the lines `code.splitlines()` produces: each
      line's kept part is appended with no separator. */
  method StripComments(lines: seq<string>) returns (result: string)
    ensures result == Concat(lines)
    ensures |result| <= TotalLength(lines)
    ensures |lines| == 1 ==> forall j :: 0 <= j < |result| ==> !CommentAt(result, j)
  {
    result := [];
    var index := 0;
    while index < |lines|
      invariant 0 <= index <= |lines|
      invariant result == Concat(lines[..index])
    {
      var line := lines[index];
      var comment := FindComment(line);
      if comment.None? {
        result := result + line;
      } else if comment.value != 0 && !AllSpace(line[..comment.value]) {
        result := result + line[..comment.value];
      }
      assert lines[..index + 1][..index] == lines[..index];
      index := index + 1;
    }
    assert lines[..index] == lines;
    ConcatShorter(lines);
    if |lines| == 1 {
      assert Concat(lines) == KeptPart(lines[0]);
    }
  }

  /** `get_pixels_per_frame`: 0 for a stopped chart; otherwise the distance
      divided by the frames (at 60 per second) one measure of
      `timeSignature` beats lasts. A zero time signature divides by zero in
      Python, modelled as None. */
  function PixelsPerFrame(bpm: real, timeSignature: real, distance: real): (r: Option<real>)
    ensures bpm == 0.0 ==> r == Some(0.0)
    ensures bpm != 0.0 ==> (r.None? <==> timeSignature == 0.0)
    ensures r.Some? && bpm != 0.0 ==> r.value * (60.0 * (timeSignature * (60.0 / bpm))) == distance
  {
    if bpm == 0.0 then Some(0.0)
    else
      var beatDuration := 60.0 / bpm;
      var totalTime := timeSignature * beatDuration;
      var totalFrames := 60.0 * totalTime;
      if totalFrames == 0.0 then None else Some(distance / totalFrames)
  }
}
