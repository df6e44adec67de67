/** Key bindings as stored in the configuration file and as used by the game
    (libs/config.py). A single letter or digit is stored as its character and
    used as its upper-case character code; the named raylib keys are a table
    this model does not have, so every other binding is `None` here. */
module Config {
  import opened Common

  predicate IsUpper(c: char) { 'A' <= c <= 'Z' }
  predicate IsLower(c: char) { 'a' <= c <= 'z' }
  predicate IsDigit(c: char) { '0' <= c <= '9' }

  /** `str.isalnum` for one ASCII character. */
  predicate IsAlnum(c: char) { IsUpper(c) || IsLower(c) || IsDigit(c) }

  function Upper(c: char): (u: char)
    ensures IsLower(c) ==> IsUpper(u) && u as int == c as int - 32
    ensures !IsLower(c) ==> u == c
  {
    if IsLower(c) then (c as int - 32) as char else c
  }

  /** A code of a letter or digit key. */
  predicate IsCharKeyCode(k: int) { 65 <= k <= 90 || 48 <= k <= 57 }

  /** `get_key_code` for a one-character alphanumeric key: the code of its
      upper-case character. */
  function KeyCode(key: string): (r: Option<int>)
    ensures r.Some? <==> |key| == 1 && IsAlnum(key[0])
    ensures r.Some? ==> IsCharKeyCode(r.value)
    ensures r.Some? && !IsLower(key[0]) ==> r.value == key[0] as int
  {
    if |key| == 1 && IsAlnum(key[0]) then Some(Upper(key[0]) as int) else None
  }

  /** `get_key_string` for a letter or digit code: the character itself. */
  function KeyString(code: int): (r: Option<string>)
    ensures r.Some? <==> IsCharKeyCode(code)
    ensures r.Some? ==> |r.value| == 1 && r.value[0] as int == code
  {
    if 65 <= code <= 90 then Some([code as char])
    else if 48 <= code <= 57 then Some([code as char])
    else None
  }

  /** A stored upper-case letter or digit survives conversion to a code and
      back; a lower-case letter comes back in upper case. */
  lemma KeyStringOfKeyCode(c: char)
    requires IsAlnum(c)
    ensures KeyString(KeyCode([c]).value) == Some([Upper(c)])
  {
  }

  /** A letter or digit code survives conversion to a string and back. */
  lemma KeyCodeOfKeyString(k: int)
    requires IsCharKeyCode(k)
    ensures KeyCode(KeyString(k).value) == Some(k)
  {
  }

  /** The conversion `get_config` applies to a list of bindings: every entry
      becomes its code, and one unknown entry makes the whole load fail. */
  function LoadBindings(bindings: seq<string>): (r: Option<seq<int>>)
    ensures r.Some? <==> forall i :: 0 <= i < |bindings| ==> KeyCode(bindings[i]).Some?
    ensures r.Some? ==> |r.value| == |bindings|
    ensures r.Some? ==> forall i :: 0 <= i < |bindings| ==> r.value[i] == KeyCode(bindings[i]).value
  {
    if |bindings| == 0 then Some([])
    else
      match LoadBindings(bindings[..|bindings| - 1])
      case None => None
      case Some(front) =>
        match KeyCode(bindings[|bindings| - 1])
        case None => None
        case Some(k) => Some(front + [k])
  }

  /** The conversion `save_config` applies to a list of bound codes. */
  function SaveBindings(codes: seq<int>): (r: Option<seq<string>>)
    ensures r.Some? <==> forall i :: 0 <= i < |codes| ==> KeyString(codes[i]).Some?
    ensures r.Some? ==> |r.value| == |codes|
    ensures r.Some? ==> forall i :: 0 <= i < |codes| ==> r.value[i] == KeyString(codes[i]).value
  {
    if |codes| == 0 then Some([])
    else
      match SaveBindings(codes[..|codes| - 1])
      case None => None
      case Some(front) =>
        match KeyString(codes[|codes| - 1])
        case None => None
        case Some(s) => Some(front + [s])
  }

  /** Saving after loading gives back bindings written as upper-case letters
      and digits. */
  lemma SaveAfterLoad(bindings: seq<string>)
    requires forall i :: 0 <= i < |bindings| ==> |bindings[i]| == 1 && (IsUpper(bindings[i][0]) || IsDigit(bindings[i][0]))
    ensures LoadBindings(bindings).Some?
    ensures SaveBindings(LoadBindings(bindings).value) == Some(bindings)
  {
    var codes := LoadBindings(bindings).value;
    forall i | 0 <= i < |codes|
      ensures KeyString(codes[i]) == Some(bindings[i])
    {
      KeyStringOfKeyCode(bindings[i][0]);
      assert bindings[i] == [bindings[i][0]];
    }
    var saved := SaveBindings(codes);
    assert saved.Some?;
    assert saved.value == bindings;
  }

  /** Loading after saving gives back letter and digit codes. */
  lemma LoadAfterSave(codes: seq<int>)
    requires forall i :: 0 <= i < |codes| ==> IsCharKeyCode(codes[i])
    ensures SaveBindings(codes).Some?
    ensures LoadBindings(SaveBindings(codes).value) == Some(codes)
  {
    var strings := SaveBindings(codes).value;
    forall i | 0 <= i < |strings|
      ensures KeyCode(strings[i]) == Some(codes[i])
    {
      KeyCodeOfKeyString(codes[i]);
    }
    var loaded := LoadBindings(strings);
    assert loaded.Some?;
    assert loaded.value == codes;
  }
}
