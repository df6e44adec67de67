/** Python string operations the chart reader and the menus rely on,
    over `string` (a sequence of characters): prefix and suffix tests,
    `split` on one separator character, `strip` and ASCII `lower`. */
module Text {
  import opened Common
  import Utils

  predicate StartsWith(s: string, prefix: string) {
    |prefix| <= |s| && s[..|prefix|] == prefix
  }

  predicate EndsWith(s: string, suffix: string) {
    |suffix| <= |s| && s[|s| - |suffix|..] == suffix
  }

  /** `s.find(c)` for one character: the first position, or None for -1. */
  function Find(s: string, c: char): (r: Option<nat>)
    ensures r.Some? ==> r.value < |s| && s[r.value] == c && c !in s[..r.value]
    ensures r.None? <==> c !in s
  {
    if |s| == 0 then None
    else if s[0] == c then Some(0)
    else
      match Find(s[1..], c)
      case None => None
      case Some(i) =>
        assert s[..i + 1] == [s[0]] + s[1..][..i];
        Some(i + 1)
  }

  /** `s.split(sep)`: the pieces between the separators, always at least one. */
  function Split(s: string, sep: char): (r: seq<string>)
    ensures |r| >= 1
    ensures forall i :: 0 <= i < |r| ==> sep !in r[i]
    decreases |s|
  {
    match Find(s, sep)
    case None => [s]
    case Some(i) => [s[..i]] + Split(s[i + 1..], sep)
  }

  /** `sep.join(pieces)`. */
  function Join(pieces: seq<string>, sep: char): string
    requires |pieces| >= 1
  {
    if |pieces| == 1 then pieces[0] else pieces[0] + [sep] + Join(pieces[1..], sep)
  }

  /** Joining the pieces of a split gives back the string. */
  lemma {:induction false} JoinSplit(s: string, sep: char)
    ensures Join(Split(s, sep), sep) == s
    decreases |s|
  {
    match Find(s, sep)
    case None =>
    case Some(i) =>
      var rest := Split(s[i + 1..], sep);
      var pieces := [s[..i]] + rest;
      assert Split(s, sep) == pieces;
      assert pieces[0] == s[..i] && pieces[1..] == rest;
      JoinSplit(s[i + 1..], sep);
      assert Join(pieces, sep) == s[..i] + [sep] + Join(rest, sep);
      assert s == s[..i] + [sep] + s[i + 1..];
  }

  /** `s.split(':')[1]`: the text after the first colon up to the next one;
      None where Python raises IndexError because there is no colon. */
  function AfterColon(s: string): (r: Option<string>)
    ensures r.None? <==> ':' !in s
    ensures r.Some? ==> ':' !in r.value
  {
    var pieces := Split(s, ':');
    if |pieces| >= 2 then Some(pieces[1])
    else
      assert Join(pieces, ':') == pieces[0] by { JoinSplit(s, ':'); }
      JoinSplit(s, ':');
      None
  }

  /** `c.lower()` for ASCII letters. */
  function LowerChar(c: char): char {
    if 'A' <= c <= 'Z' then (c as int + 32) as char else c
  }

  function Lower(s: string): (r: string)
    ensures |r| == |s|
    ensures forall i :: 0 <= i < |s| ==> r[i] == LowerChar(s[i])
  {
    if |s| == 0 then [] else [LowerChar(s[0])] + Lower(s[1..])
  }

  /** `s.lstrip()`. */
  function StripLeft(s: string): (r: string)
    ensures |r| <= |s| && r == s[|s| - |r|..]
    ensures |r| > 0 ==> !Utils.IsSpace(r[0])
    ensures forall i :: 0 <= i < |s| - |r| ==> Utils.IsSpace(s[i])
  {
    if |s| > 0 && Utils.IsSpace(s[0]) then StripLeft(s[1..]) else s
  }

  /** `s.rstrip()`. */
  function StripRight(s: string): (r: string)
    ensures |r| <= |s| && r == s[..|r|]
    ensures |r| > 0 ==> !Utils.IsSpace(r[|r| - 1])
    ensures forall i :: |r| <= i < |s| ==> Utils.IsSpace(s[i])
  {
    if |s| > 0 && Utils.IsSpace(s[|s| - 1]) then StripRight(s[..|s| - 1]) else s
  }

  /** `s.strip()`. */
  function Strip(s: string): (r: string)
    ensures |r| <= |s|
    ensures |r| > 0 ==> !Utils.IsSpace(r[0]) && !Utils.IsSpace(r[|r| - 1])
  {
    StripRight(StripLeft(s))
  }

  predicate IsDigit(c: char) { '0' as int <= c as int <= '9' as int }

  /** `s.isdigit()` over ASCII digits: false on the empty string. */
  predicate AllDigits(s: string) {
    |s| > 0 && forall i :: 0 <= i < |s| ==> IsDigit(s[i])
  }

  /** The value of a string of decimal digits, as `int(s)` computes it. */
  function DigitsValue(s: string): (r: nat)
    requires forall i :: 0 <= i < |s| ==> IsDigit(s[i])
  {
    if |s| == 0 then 0
    else
      assert IsDigit(s[|s| - 1]);
      DigitsValue(s[..|s| - 1]) * 10 + (s[|s| - 1] as int - '0' as int)
  }

  /** The first separator after a key without separators is the one
      following the key. */
  lemma {:induction false} FindAfterKey(key: string, c: char, rest: string)
    requires c !in key
    ensures Find(key + [c] + rest, c) == Some(|key|)
  {
    if |key| > 0 {
      FindAfterKey(key[1..], c, rest);
      assert (key + [c] + rest)[1..] == key[1..] + [c] + rest;
    }
  }

  /** Three separator-free fields joined by the separator split back into
      those fields. */
  lemma SplitThree(a: string, b: string, c: string, sep: char)
    requires sep !in a && sep !in b && sep !in c
    ensures Split(a + [sep] + (b + [sep] + c), sep) == [a, b, c]
  {
    SplitTwo(b, c, sep);
    SplitAfterKey(a, sep, b + [sep] + c);
  }

  lemma SplitTwo(b: string, c: string, sep: char)
    requires sep !in b && sep !in c
    ensures Split(b + [sep] + c, sep) == [b, c]
  {
    SplitAfterKey(b, sep, c);
    SplitWithoutSep(c, sep);
  }

  /** A string without the separator splits into itself. */
  lemma SplitWithoutSep(s: string, c: char)
    requires c !in s
    ensures Split(s, c) == [s]
  {
  }

  /** `(key + sep + rest).split(sep)` starts with the key. */
  lemma SplitAfterKey(key: string, c: char, rest: string)
    requires c !in key
    ensures Split(key + [c] + rest, c) == [key] + Split(rest, c)
  {
    var s := key + [c] + rest;
    FindAfterKey(key, c, rest);
    assert s[..|key|] == key;
    assert s[|key| + 1..] == rest;
  }

  /** The value of a `KEY:value` line is the value up to its next colon. */
  lemma AfterColonOfKey(key: string, value: string)
    requires ':' !in key
    ensures AfterColon(key + ":" + value) == Some(Split(value, ':')[0])
    ensures ':' !in value ==> AfterColon(key + ":" + value) == Some(value)
  {
    SplitAfterKey(key, ':', value);
    assert key + ":" + value == key + [':'] + value;
  }
}
