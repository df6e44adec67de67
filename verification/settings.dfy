/** The settings screen (scenes/settings.py): stepping through the config
    sections and their settings, and changing a setting's value by its
    type. */
module Settings {
  import opened Common

  /** A setting's value, by the Python type the screen tests for: a bool,
      a number, a string, a list of key names, a list of gamepad buttons, or
      anything else (which the screen leaves alone). */
  datatype Value = BoolV(b: bool) | NumV(x: real) | StrV(s: string) |
                   KeyListV(keys: seq<string>) | ButtonListV(buttons: seq<int>) | OtherV

  /** One config section: its name and its settings in file order. */
  datatype Section = Section(name: string, settings: seq<(string, Value)>)

  /** The header row: the config's section names and a final "Exit". */
  function Headers(config: seq<Section>): (r: seq<string>)
    ensures |r| == |config| + 1 && r[|config|] == "Exit"
    ensures forall i :: 0 <= i < |config| ==> r[i] == config[i].name
  {
    seq(|config|, i requires 0 <= i < |config| => config[i].name) + ["Exit"]
  }

  /** `t in s` on strings. */
  predicate Contains(s: string, t: string)
    decreases |s|
  {
    (|t| <= |s| && s[..|t|] == t) || (|s| > 0 && Contains(s[1..], t))
  }

  // ---------------------------------------------------------------------
  // Changing one value.

  /** `handle_boolean_toggle`. */
  function Toggle(b: bool): (r: bool)
    ensures r != b
  {
    !b
  }

  lemma ToggleTwice(b: bool)
    ensures Toggle(Toggle(b)) == b
  {
  }

  const SampleRates: seq<real> := [-1.0, 22050.0, 44100.0, 48000.0, 88200.0, 96000.0]

  const BufferSizes: seq<real> := [-1.0, 32.0, 64.0, 128.0, 256.0, 512.0, 1024.0]

  /** The position a value counts as in a list of allowed values: its index,
      or 2 when it is not one of them. */
  function PositionIn(values: seq<real>, v: real): (i: int)
    requires |values| > 2
    ensures 0 <= i < |values|
    ensures v in values ==> values[i] == v
    ensures v !in values ==> i == 2
  {
    if v in values then IndexOf(values, v) else 2
  }

  /** One step along a list of allowed values, stopping at its ends. */
  function StepAlong(values: seq<real>, v: real, increment: int): (r: real)
    requires |values| > 2 && increment in {-1, 1}
    ensures r in values
  {
    values[Max(0, Min(|values| - 1, PositionIn(values, v) + increment))]
  }

  /** `handle_numeric_change`: sample rate and buffer size step along their
      lists; every other number moves by exactly the increment (the 1000
      step the source gives the sample rate is replaced by the list). */
  function NumericChange(key: string, v: real, increment: int): (r: real)
    requires increment in {-1, 1}
    ensures key == "sample_rate" ==> r in SampleRates
    ensures key == "buffer_size" ==> r in BufferSizes
    ensures key !in {"sample_rate", "buffer_size"} ==> r == v + increment as real
  {
    if key == "sample_rate" then StepAlong(SampleRates, v, increment)
    else if key == "buffer_size" then StepAlong(BufferSizes, v, increment)
    else v + increment as real
  }

  predicate Ascending(values: seq<real>) {
    forall i, j :: 0 <= i < j < |values| ==> values[i] < values[j]
  }

  /** On an allowed value, a step moves exactly one position, clamped at
      both ends, and the opposite step comes back; an unknown value counts
      as the third. */
  lemma {:induction false} StepAlongMoves(values: seq<real>, i: int)
    requires |values| > 2 && Ascending(values) && 0 <= i < |values|
    ensures StepAlong(values, values[i], 1) == values[Min(i + 1, |values| - 1)]
    ensures StepAlong(values, values[i], -1) == values[Max(i - 1, 0)]
    ensures i < |values| - 1 ==> StepAlong(values, StepAlong(values, values[i], 1), -1) == values[i]
    ensures i > 0 ==> StepAlong(values, StepAlong(values, values[i], -1), 1) == values[i]
  {
    AscendingPosition(values, i);
    if i < |values| - 1 {
      AscendingPosition(values, i + 1);
    }
    if i > 0 {
      AscendingPosition(values, i - 1);
    }
  }

  lemma AscendingPosition(values: seq<real>, i: int)
    requires |values| > 2 && Ascending(values) && 0 <= i < |values|
    ensures PositionIn(values, values[i]) == i
  {
    assert forall j :: 0 <= j < |values| && j != i ==> values[j] != values[i];
  }

  lemma UnknownCountsAsThird(values: seq<real>, v: real)
    requires |values| > 2 && v !in values
    ensures StepAlong(values, v, 1) == values[Min(3, |values| - 1)]
    ensures StepAlong(values, v, -1) == values[1]
  {
  }

  /** The sample rate and buffer size lists are ascending, so both behave
      as above. */
  lemma AllowedListsAscend()
    ensures Ascending(SampleRates) && Ascending(BufferSizes)
  {
  }

  /** Any other number comes back after a step each way. */
  lemma NumericUndo(key: string, v: real)
    requires key !in {"sample_rate", "buffer_size"}
    ensures NumericChange(key, NumericChange(key, v, 1), -1) == v
  {
  }

  /** `handle_string_cycle`: the language alternates between "ja" and
      "en", an unknown language becomes "ja", and other strings stay. */
  function StringCycle(key: string, v: string): (r: string)
    ensures key == "language" ==> r in {"ja", "en"} && (v in {"ja", "en"} ==> r != v)
    ensures key == "language" && v !in {"ja", "en"} ==> r == "ja"
    ensures key != "language" ==> r == v
  {
    if key == "language" then
      if v == "ja" then "en" else if v == "en" then "ja" else "ja"
    else v
  }

  lemma StringCycleTwice(key: string, v: string)
    requires key != "language" || v in {"ja", "en"}
    ensures StringCycle(key, StringCycle(key, v)) == v
  {
  }

  // ---------------------------------------------------------------------
  // The screen.

  /** The screen's state: the config, the header and setting cursors,
      whether a section is open, and whether a key or gamepad binding is
      being captured. */
  datatype Editor = Editor(config: seq<Section>, headerIndex: int, settingIndex: int,
                           inEdit: bool, editingKey: bool, editingGamepad: bool)

  function EditorStart(config: seq<Section>): Editor {
    Editor(config, 0, 0, false, false, false)
  }

  /** `get_current_settings`: the settings under the current header, none
      under "Exit". */
  function CurrentSettings(e: Editor): (r: seq<(string, Value)>)
    requires 0 <= e.headerIndex <= |e.config|
    ensures e.headerIndex == |e.config| ==> r == []
    ensures e.headerIndex < |e.config| && e.config[e.headerIndex].name != "Exit" ==> r == e.config[e.headerIndex].settings
  {
    if Headers(e.config)[e.headerIndex] == "Exit" then [] else e.config[e.headerIndex].settings
  }

  /** The cursors are in range: a header of the list, and the first
      setting or one of the current section's. */
  predicate ValidEditor(e: Editor) {
    0 <= e.headerIndex <= |e.config| && 0 <= e.settingIndex &&
    (e.settingIndex == 0 || e.settingIndex < |CurrentSettings(e)|)
  }

  lemma EditorStartValid(config: seq<Section>)
    ensures ValidEditor(EditorStart(config))
  {
  }

  /** The header cursor moves round the list, and the setting cursor
      returns to the first setting. */
  function NextHeader(e: Editor): (r: Editor)
    requires ValidEditor(e)
    ensures ValidEditor(r) && r.settingIndex == 0
    ensures r.headerIndex == if e.headerIndex == |e.config| then 0 else e.headerIndex + 1
  {
    ModCases(e.headerIndex + 1, |e.config| + 1);
    e.(headerIndex := (e.headerIndex + 1) % (|e.config| + 1), settingIndex := 0)
  }

  function PreviousHeader(e: Editor): (r: Editor)
    requires ValidEditor(e)
    ensures ValidEditor(r) && r.settingIndex == 0
    ensures r.headerIndex == if e.headerIndex == 0 then |e.config| else e.headerIndex - 1
  {
    ModCases(e.headerIndex - 1, |e.config| + 1);
    e.(headerIndex := (e.headerIndex - 1) % (|e.config| + 1), settingIndex := 0)
  }

  lemma HeadersUndo(e: Editor)
    requires ValidEditor(e) && e.settingIndex == 0
    ensures PreviousHeader(NextHeader(e)) == e
    ensures NextHeader(PreviousHeader(e)) == e
  {
  }

  /** The setting cursor moves round the current section. */
  function NextSetting(e: Editor): (r: Editor)
    requires ValidEditor(e) && |CurrentSettings(e)| > 0
    ensures ValidEditor(r) && r.headerIndex == e.headerIndex
    ensures r.settingIndex == if e.settingIndex == |CurrentSettings(e)| - 1 then 0 else e.settingIndex + 1
  {
    var n := |CurrentSettings(e)|;
    ModCases(e.settingIndex + 1, n);
    e.(settingIndex := (e.settingIndex + 1) % n)
  }

  function PreviousSetting(e: Editor): (r: Editor)
    requires ValidEditor(e) && |CurrentSettings(e)| > 0
    ensures ValidEditor(r) && r.headerIndex == e.headerIndex
    ensures r.settingIndex == if e.settingIndex == 0 then |CurrentSettings(e)| - 1 else e.settingIndex - 1
  {
    var n := |CurrentSettings(e)|;
    ModCases(e.settingIndex - 1, n);
    e.(settingIndex := (e.settingIndex - 1) % n)
  }

  lemma SettingsUndo(e: Editor)
    requires ValidEditor(e) && |CurrentSettings(e)| > 0
    ensures PreviousSetting(NextSetting(e)) == e
    ensures NextSetting(PreviousSetting(e)) == e
  {
  }

  /** Store a value for the current setting; the config keeps its sections,
      names and sizes. */
  function SetCurrent(e: Editor, v: Value): (r: Editor)
    requires ValidEditor(e) && |CurrentSettings(e)| > 0
    ensures ValidEditor(r)
    ensures r.headerIndex == e.headerIndex && r.settingIndex == e.settingIndex && r.inEdit == e.inEdit
    ensures r.editingKey == e.editingKey && r.editingGamepad == e.editingGamepad
    ensures Headers(r.config) == Headers(e.config)
    ensures |CurrentSettings(r)| == |CurrentSettings(e)|
    ensures CurrentSettings(r)[e.settingIndex] == (CurrentSettings(e)[e.settingIndex].0, v)
    ensures forall j :: 0 <= j < |CurrentSettings(e)| && j != e.settingIndex ==> CurrentSettings(r)[j] == CurrentSettings(e)[j]
  {
    var h := e.headerIndex;
    var section := e.config[h];
    var settings := section.settings[e.settingIndex := (section.settings[e.settingIndex].0, v)];
    var config := e.config[h := section.(settings := settings)];
    assert Headers(config) == Headers(e.config);
    e.(config := config)
  }

  /** A right don on a setting: flip a bool, step a number up, cycle a
      string (or, under a key or gamepad section, start capturing a
      binding), and start capturing for a binding list. */
  function ApplyRight(e: Editor, header: string, key: string, v: Value): (r: Editor)
    requires ValidEditor(e) && |CurrentSettings(e)| > 0
    ensures ValidEditor(r) && r.headerIndex == e.headerIndex && r.settingIndex == e.settingIndex
    ensures v.BoolV? ==> r == SetCurrent(e, BoolV(Toggle(v.b)))
    ensures v.NumV? ==> r == SetCurrent(e, NumV(NumericChange(key, v.x, 1)))
    ensures v.StrV? && !Contains(header, "keys") && !Contains(header, "gamepad") ==>
              r == SetCurrent(e, StrV(StringCycle(key, v.s)))
    ensures v.StrV? && Contains(header, "keys") ==> r == e.(editingKey := true)
    ensures v.StrV? && !Contains(header, "keys") && Contains(header, "gamepad") ==> r == e.(editingGamepad := true)
    ensures v.KeyListV? ==> r.(editingKey := e.editingKey) == e
    ensures v.KeyListV? ==> (r.editingKey <==> e.editingKey || (|v.keys| > 0 && |v.keys[0]| == 1))
    ensures v.ButtonListV? ==> r.(editingGamepad := e.editingGamepad) == e
    ensures v.ButtonListV? ==> (r.editingGamepad <==> e.editingGamepad || |v.buttons| > 0)
    ensures v.OtherV? ==> r == e
  {
    match v
    case BoolV(b) => SetCurrent(e, BoolV(Toggle(b)))
    case NumV(x) => SetCurrent(e, NumV(NumericChange(key, x, 1)))
    case StrV(s) =>
      if Contains(header, "keys") then e.(editingKey := true)
      else if Contains(header, "gamepad") then e.(editingGamepad := true)
      else SetCurrent(e, StrV(StringCycle(key, s)))
    case KeyListV(keys) =>
      if |keys| > 0 && |keys[0]| == 1 then e.(editingKey := true) else e
    case ButtonListV(buttons) =>
      if |buttons| > 0 then e.(editingGamepad := true) else e
    case OtherV => e
  }

  /** A left don: flip a bool, step a number down, cycle a string outside
      the key and gamepad sections; nothing else. */
  function ApplyLeft(e: Editor, header: string, key: string, v: Value): (r: Editor)
    requires ValidEditor(e) && |CurrentSettings(e)| > 0
    ensures ValidEditor(r) && r.headerIndex == e.headerIndex && r.settingIndex == e.settingIndex
    ensures !r.editingKey && !r.editingGamepad <==> !e.editingKey && !e.editingGamepad
    ensures v.NumV? ==> r == SetCurrent(e, NumV(NumericChange(key, v.x, -1)))
    ensures v.BoolV? ==> r == SetCurrent(e, BoolV(Toggle(v.b)))
    ensures v.StrV? && !Contains(header, "keys") && !Contains(header, "gamepad") ==>
              r == SetCurrent(e, StrV(StringCycle(key, v.s)))
    ensures v.StrV? && (Contains(header, "keys") || Contains(header, "gamepad")) ==> r == e
    ensures v.KeyListV? || v.ButtonListV? || v.OtherV? ==> r == e
  {
    match v
    case BoolV(b) => SetCurrent(e, BoolV(Toggle(b)))
    case NumV(x) => SetCurrent(e, NumV(NumericChange(key, x, -1)))
    case StrV(s) =>
      if !Contains(header, "keys") && !Contains(header, "gamepad") then SetCurrent(e, StrV(StringCycle(key, s))) else e
    case _ => e
  }

  /** A left don undoes a right don on a boolean, and on a string the
      right don cycles (a language outside the key and gamepad sections). */
  lemma LeftUndoesRight(e: Editor, header: string, key: string)
    requires ValidEditor(e) && |CurrentSettings(e)| > 0
    requires var v := CurrentSettings(e)[e.settingIndex].1;
      || v.BoolV?
      || (v.StrV? && !Contains(header, "keys") && !Contains(header, "gamepad") && (key != "language" || v.s in {"ja", "en"}))
    ensures var r := ApplyRight(e, header, key, CurrentSettings(e)[e.settingIndex].1);
      ApplyLeft(r, header, key, CurrentSettings(r)[r.settingIndex].1) == e
  {
    var v := CurrentSettings(e)[e.settingIndex].1;
    var r := ApplyRight(e, header, key, v);
    var back := if v.BoolV? then BoolV(Toggle(Toggle(v.b))) else StrV(StringCycle(key, StringCycle(key, v.s)));
    if v.StrV? {
      StringCycleTwice(key, v.s);
    }
    assert back == v;
    SetCurrentRestores(e, CurrentSettings(r)[r.settingIndex].1);
  }

  /** Storing a value and then the old one gives back the editor. */
  lemma SetCurrentRestores(e: Editor, v: Value)
    requires ValidEditor(e) && |CurrentSettings(e)| > 0
    ensures SetCurrent(SetCurrent(e, v), CurrentSettings(e)[e.settingIndex].1) == e
  {
    var h, i := e.headerIndex, e.settingIndex;
    var section := e.config[h];
    assert section.settings[i := (section.settings[i].0, v)][i := section.settings[i]] == section.settings;
    assert e.config[h := section] == e.config;
  }

  /** The buttons read in one frame: the drum keys, whether the back key
      is down, the key code pressed (0 for none) and the gamepad button
      pressed (0 for none). */
  datatype Input = Input(rKat: bool, lKat: bool, lDon: bool, rDon: bool, back: bool, key: int, button: int)

  /** A frame's result: the screen, and whether it leaves for the entry
      screen. */
  datatype Step = Step(editor: Editor, exit: bool)

  /** `update_key_binding`: a letter key binds the current setting to it;
      the back key cancels. */
  function CaptureKey(e: Editor, key: int, backKey: int): (r: Editor)
    requires ValidEditor(e)
    ensures ValidEditor(r) && r.headerIndex == e.headerIndex && r.settingIndex == e.settingIndex
    ensures |CurrentSettings(r)| == |CurrentSettings(e)|
    ensures 65 <= key <= 90 && |CurrentSettings(e)| > 0 ==>
              !r.editingKey && CurrentSettings(r)[e.settingIndex].1 == KeyListV([[key as char]])
    ensures key == 0 ==> r == e
  {
    if key == 0 then e
    else if 65 <= key <= 90 then
      if |CurrentSettings(e)| > 0 then SetCurrent(e, KeyListV([[key as char]])).(editingKey := false) else e
    else if key == backKey then e.(editingKey := false)
    else e
  }

  /** `update_gamepad_binding`: a button binds the current setting to it;
      the back key cancels. */
  function CaptureButton(e: Editor, button: int, back: bool): (r: Editor)
    requires ValidEditor(e)
    ensures ValidEditor(r) && r.headerIndex == e.headerIndex && r.settingIndex == e.settingIndex
    ensures |CurrentSettings(r)| == |CurrentSettings(e)|
    ensures button != 0 && |CurrentSettings(e)| > 0 ==>
              !r.editingGamepad && CurrentSettings(r)[e.settingIndex].1 == ButtonListV([button])
    ensures back ==> !r.editingGamepad
  {
    var e1 := if button != 0 && |CurrentSettings(e)| > 0 then SetCurrent(e, ButtonListV([button])).(editingGamepad := false) else e;
    if back then e1.(editingGamepad := false) else e1
  }

  /** `update` for one frame: a binding capture takes the frame; a don on
      "Exit" leaves; outside a section the kats move between headers and
      a don opens the section; inside, the kats move between settings, the
      dons change the current one and back closes the section. */
  function Update(e: Editor, i: Input, backKey: int): (r: Step)
    requires ValidEditor(e)
    ensures ValidEditor(r.editor)
    ensures r.exit <==> !e.editingKey && !e.editingGamepad && Headers(e.config)[e.headerIndex] == "Exit" && (i.lDon || i.rDon)
    ensures r.exit ==> r.editor == e
    ensures !e.editingKey && !e.editingGamepad && !e.inEdit && r.editor.inEdit ==>
              r.editor.headerIndex == e.headerIndex < |e.config|
  {
    if e.editingKey then Step(CaptureKey(e, i.key, backKey), false)
    else if e.editingGamepad then Step(CaptureButton(e, i.button, i.back), false)
    else
      var header := Headers(e.config)[e.headerIndex];
      if header == "Exit" && (i.lDon || i.rDon) then Step(e, true)
      else if !e.inEdit then
        if i.rKat then Step(NextHeader(e), false)
        else if i.lKat then Step(PreviousHeader(e), false)
        else if (i.lDon || i.rDon) && header != "Exit" then Step(e.(inEdit := true), false)
        else Step(e, false)
      else
        var settings := CurrentSettings(e);
        if |settings| == 0 then Step(e.(inEdit := false), false)
        else if i.rKat then Step(NextSetting(e), false)
        else if i.lKat then Step(PreviousSetting(e), false)
        else if i.rDon then Step(ApplyRight(e, header, settings[e.settingIndex].0, settings[e.settingIndex].1), false)
        else if i.lDon then Step(ApplyLeft(e, header, settings[e.settingIndex].0, settings[e.settingIndex].1), false)
        else if i.back then Step(e.(inEdit := false), false)
        else Step(e, false)
  }

  /** The "Exit" header is the last one: no config section is named so. */
  lemma ExitIsLast(e: Editor)
    requires ValidEditor(e) && Headers(e.config)[e.headerIndex] == "Exit"
    requires forall j :: 0 <= j < |e.config| ==> e.config[j].name != "Exit"
    ensures e.headerIndex == |e.config|
  {
  }
}
