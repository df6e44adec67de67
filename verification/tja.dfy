/** The TJA chart reader (libs/tja.py): the base score of a chart, the
    course metadata, the splitting of a course into bars, the per-character
    note tokenizer, the syllable (moji) assignment, the merge of notes and
    bar lines hashed into a chart fingerprint, and the inverse modifier.
    Times are `real` milliseconds; Python's float rounding is not modelled. */
module Tja {
  import opened Common
  import Utils
  import opened Text

  /** The class of a note object: a plain `Note`, a `Drumroll` or a
      `Balloon` (a kusudama is a balloon with the flag set). */
  datatype NoteKind = Plain | Roll | Balloon(count: int, kusudama: bool)

  /** A note of a chart; `moji` is -1 until a syllable is assigned. */
  datatype Note = Note(noteType: int, hitMs: real, index: int, moji: int, gogo: bool, kind: NoteKind)

  /* ---------------- calculate_base_score ---------------- */

  const ScoreBudget: int := 1000000
  const RollPointsPerSecond: real := 16.920079999994086

  /** A note that earns the per-note score: not a roll, not a balloon, and
      not the type-8 end of a roll. */
  predicate Ordinary(n: Note) {
    n.kind.Plain? && n.noteType != 8
  }

  function OrdinaryCount(notes: seq<Note>): (r: nat)
    ensures r <= |notes|
  {
    if |notes| == 0 then 0
    else OrdinaryCount(notes[..|notes| - 1]) + (if Ordinary(notes[|notes| - 1]) then 1 else 0)
  }

  function BalloonCount(notes: seq<Note>): nat {
    if |notes| == 0 then 0
    else BalloonCount(notes[..|notes| - 1]) + (if notes[|notes| - 1].kind.Balloon? then 1 else 0)
  }

  /** The hits a balloon is worth for the score: its count, capped at 100. */
  function BalloonHitsOf(n: Note): int {
    if n.kind.Balloon? then Min(100, n.kind.count) else 0
  }

  function BalloonHits(notes: seq<Note>): int {
    if |notes| == 0 then 0
    else BalloonHits(notes[..|notes| - 1]) + BalloonHitsOf(notes[|notes| - 1])
  }

  /** Every balloon contributes at most 100 hits to the score budget. */
  lemma {:induction false} BalloonHitsCapped(notes: seq<Note>)
    ensures BalloonHits(notes) <= 100 * BalloonCount(notes)
  {
    if |notes| > 0 {
      BalloonHitsCapped(notes[..|notes| - 1]);
    }
  }

  /** The length of the roll at position k: the time to the note after it,
      or nothing for a roll that is the last note. */
  function RollLength(notes: seq<Note>, k: nat): real
    requires k < |notes|
  {
    var next := if k < |notes| - 1 then k + 1 else |notes| - 1;
    if notes[k].kind.Roll? then notes[next].hitMs - notes[k].hitMs else 0.0
  }

  function RollMsUpTo(notes: seq<Note>, i: nat): real
    requires i <= |notes|
  {
    if i == 0 then 0.0 else RollMsUpTo(notes, i - 1) + RollLength(notes, i - 1)
  }

  function Ceil(x: real): (r: int)
    ensures r as real >= x && (r - 1) as real < x
  {
    -((-x).Floor)
  }

  /** The per-note score for `ordinary` notes once balloons and rolls took
      their share of the million points. */
  function BaseScoreFor(ordinary: nat, balloonHits: int, rollMs: real): (r: int)
    ensures ordinary == 0 ==> r == ScoreBudget
    ensures r % 10 == 0
  {
    if ordinary == 0 then ScoreBudget
    else
      Ceil(Budget(balloonHits, rollMs) / ordinary as real / 10.0) * 10
  }

  /** What is left of the million points once balloons and rolls took their
      share. */
  function Budget(balloonHits: int, rollMs: real): real {
    ScoreBudget as real - (balloonHits * 100) as real - RollPointsPerSecond * rollMs / 1000.0 * 100.0
  }

  /** The base score is the smallest multiple of ten that, given to every
      ordinary note, reaches the budget. */
  lemma BaseScoreIsLeastMultiple(ordinary: nat, balloonHits: int, rollMs: real)
    requires ordinary > 0
    ensures var r := BaseScoreFor(ordinary, balloonHits, rollMs);
      && r as real * ordinary as real >= Budget(balloonHits, rollMs)
      && (r - 10) as real * ordinary as real < Budget(balloonHits, rollMs)
  {
    var b := Budget(balloonHits, rollMs);
    var n := ordinary as real;
    var y := b / n / 10.0;
    var c := Ceil(y);
    var r := BaseScoreFor(ordinary, balloonHits, rollMs);
    assert r == c * 10;
    assert y * 10.0 * n == b;
    assert r as real == c as real * 10.0;
    assert (r - 10) as real == (c - 1) as real * 10.0;
    assert c as real * 10.0 * n >= y * 10.0 * n;
    assert (c - 1) as real * 10.0 * n < y * 10.0 * n;
    assert (r - 10) as real * n == (c - 1) as real * 10.0 * n;
    assert r as real * n == c as real * 10.0 * n;
    assert (r - 10) as real * n < b;
    assert (r - 10) as real * ordinary as real < Budget(balloonHits, rollMs);
  }

  /** The base score of a chart from its counted notes, balloons and rolls. */
  function BaseScore(notes: seq<Note>): int {
    BaseScoreFor(OrdinaryCount(notes), BalloonHits(notes), RollMsUpTo(notes, |notes|))
  }

  /** `calculate_base_score`: one pass over the played notes. */
  method CalculateBaseScore(notes: seq<Note>) returns (score: int)
    ensures score == BaseScore(notes)
    ensures OrdinaryCount(notes) == 0 ==> score == ScoreBudget
    ensures score % 10 == 0
  {
    var totalNotes := 0;
    var balloonCount := 0;
    var drumrollMsec := 0.0;
    var i := 0;
    while i < |notes|
      invariant 0 <= i <= |notes|
      invariant totalNotes == OrdinaryCount(notes[..i])
      invariant balloonCount == BalloonHits(notes[..i])
      invariant drumrollMsec == RollMsUpTo(notes, i)
    {
      var note := notes[i];
      var nextNote := if i < |notes| - 1 then notes[i + 1] else notes[|notes| - 1];
      assert notes[..i + 1][..i] == notes[..i];
      if note.kind.Roll? {
        drumrollMsec := drumrollMsec + (nextNote.hitMs - note.hitMs);
      } else if note.kind.Balloon? {
        balloonCount := balloonCount + Min(100, note.kind.count);
      } else if note.noteType == 8 {
      } else {
        totalNotes := totalNotes + 1;
      }
      i := i + 1;
    }
    assert notes[..i] == notes;
    if totalNotes == 0 {
      score := ScoreBudget;
    } else {
      score := Ceil((ScoreBudget as real - (balloonCount * 100) as real - RollPointsPerSecond * drumrollMsec / 1000.0 * 100.0) / totalNotes as real / 10.0) * 10;
    }
  }

  /** Type-8 roll ends never earn the per-note score: appending one after a
      note that is not a roll leaves the base score unchanged. */
  lemma RollEndNotCounted(notes: seq<Note>, end: Note)
    requires end.kind.Plain? && end.noteType == 8
    requires |notes| > 0 ==> !notes[|notes| - 1].kind.Roll?
    ensures BaseScore(notes + [end]) == BaseScore(notes)
  {
    var s := notes + [end];
    assert s[..|s| - 1] == notes;
    RollMsPrefix(notes, end, |notes|);
  }

  /** Appending a note changes no roll length before the last old note. */
  lemma {:induction false} RollMsPrefix(notes: seq<Note>, end: Note, i: nat)
    requires i <= |notes|
    requires |notes| > 0 ==> !notes[|notes| - 1].kind.Roll?
    ensures RollMsUpTo(notes + [end], i) == RollMsUpTo(notes, i)
  {
    if i > 0 {
      RollMsPrefix(notes, end, i - 1);
      var s := notes + [end];
      assert s[i - 1] == notes[i - 1];
      if i - 1 < |notes| - 1 {
        assert s[i] == notes[i];
      }
    }
  }

  /* ---------------- get_metadata: course data ---------------- */

  /** Per-course metadata; `scoreinit`/`scorediff` are read but never used. */
  datatype CourseData = CourseData(level: int, balloon: seq<int>, scoreInit: seq<int>, scoreDiff: int, isBranching: bool)

  const DefaultCourse: CourseData := CourseData(0, [], [], 0, false)

  /** The course being read and the course data read so far. */
  datatype MetaState = MetaState(current: Option<int>, courses: map<int, CourseData>)

  const InitialMeta: MetaState := MetaState(None, map[])

  /** The course being read always has an entry. */
  predicate MetaValid(st: MetaState) {
    st.current.Some? ==> st.current.value in st.courses
  }

  /** The spellings of each course number in a COURSE header. */
  predicate NamesCourse(value: string, d: int) {
    || (0 <= d <= 6 && value == [('0' as int + d) as char])
    || (d == 6 && value == "dan")
    || (d == 5 && value == "tower")
    || (d == 4 && (value == "edit" || value == "ura"))
    || (d == 3 && value == "oni")
    || (d == 2 && value == "hard")
    || (d == 1 && value == "normal")
    || (d == 0 && value == "easy")
  }

  /** The course a lower-cased, stripped COURSE value selects. */
  function CourseNumber(value: string): (r: Option<int>)
    ensures r.Some? ==> 0 <= r.value <= 6 && NamesCourse(value, r.value)
    ensures r.None? ==> forall d :: !NamesCourse(value, d)
  {
    if value == "6" || value == "dan" then Some(6)
    else if value == "5" || value == "tower" then Some(5)
    else if value == "4" || value == "edit" || value == "ura" then Some(4)
    else if value == "3" || value == "oni" then Some(3)
    else if value == "2" || value == "hard" then Some(2)
    else if value == "1" || value == "normal" then Some(1)
    else if value == "0" || value == "easy" then Some(0)
    else None
  }

  /** A COURSE value names at most one course. */
  lemma CourseNamesDisjoint(value: string, d: int, e: int)
    requires NamesCourse(value, d) && NamesCourse(value, e)
    ensures d == e
  {
    if 0 <= d <= 6 && value == [('0' as int + d) as char] {
      assert value[0] as int == '0' as int + d;
    }
    if 0 <= e <= 6 && value == [('0' as int + e) as char] {
      assert value[0] as int == '0' as int + e;
    }
  }

  /** `[int(x) for x in data.split(',') if x != '']`; None when one of the
      pieces is not an integer and Python raises ValueError. */
  function ParseIntList(pieces: seq<string>, parseInt: string -> Option<int>): (r: Option<seq<int>>)
    ensures r.Some? ==> |r.value| <= |pieces|
  {
    if |pieces| == 0 then Some([])
    else
      match ParseIntList(pieces[..|pieces| - 1], parseInt)
      case None => None
      case Some(front) =>
        var x := pieces[|pieces| - 1];
        if x == "" then Some(front)
        else
          match parseInt(x)
          case None => None
          case Some(v) => Some(front + [v])
  }

  /** Header keys whose value `get_metadata` reads as `split(':')[1]`
      before the COURSE header, and whether that value is a float. */
  predicate SongHeaderNeedsColon(item: string) {
    || StartsWith(item, "BPM") || StartsWith(item, "WAVE") || StartsWith(item, "OFFSET")
    || StartsWith(item, "DEMOSTART") || StartsWith(item, "BGMOVIE")
    || StartsWith(item, "MOVIEOFFSET") || StartsWith(item, "SCENEPRESET")
  }

  predicate SongHeaderIsFloat(item: string) {
    || StartsWith(item, "BPM") || StartsWith(item, "OFFSET")
    || StartsWith(item, "DEMOSTART") || StartsWith(item, "MOVIEOFFSET")
  }

  /** The value of a LEVEL header: 0 when empty, otherwise the float it
      holds truncated toward zero; None when it is not a number. */
  function LevelStep(c: CourseData, data: string, parseFloat: string -> Option<real>): (r: Option<CourseData>)
    ensures data == "" ==> r == Some(c.(level := 0))
    ensures data != "" ==> (r.None? <==> parseFloat(data).None?)
    ensures data != "" && r.Some? ==> r.value == c.(level := Trunc(parseFloat(data).value))
  {
    if data == "" then Some(c.(level := 0))
    else
      match parseFloat(data)
      case None => None
      case Some(v) => Some(c.(level := Trunc(v)))
  }

  /** One header line of a course (LEVEL, BALLOON*, SCOREINIT, SCOREDIFF)
      applied to the course data being read. */
  function CourseHeaderStep(c: CourseData, item: string, parseFloat: string -> Option<real>, parseInt: string -> Option<int>): (r: Option<CourseData>)
    ensures r.Some? ==> r.value.isBranching == c.isBranching
  {
    if StartsWith(item, "LEVEL") then
      match AfterColon(item)
      case None => None
      case Some(data) => LevelStep(c, data, parseFloat)
    else if StartsWith(item, "BALLOONNOR") || StartsWith(item, "BALLOONEXP") then
      match AfterColon(item)
      case None => None
      case Some(data) =>
        if data == "" then Some(c)
        else (match ParseIntList(Split(data, ','), parseInt) case None => None case Some(l) => Some(c.(balloon := c.balloon + l)))
    else if StartsWith(item, "BALLOONMAS") then
      match AfterColon(item)
      case None => None
      case Some(data) =>
        if data == "" then Some(c)
        else (match ParseIntList(Split(data, ','), parseInt) case None => None case Some(l) => Some(c.(balloon := l)))
    else if StartsWith(item, "BALLOON") then
      match AfterColon(item)
      case None => Some(c.(balloon := []))
      case Some(data) =>
        if data == "" then Some(c)
        else (match ParseIntList(Split(data, ','), parseInt) case None => None case Some(l) => Some(c.(balloon := l)))
    else if StartsWith(item, "SCOREINIT") then
      match AfterColon(item)
      case None => None
      case Some(data) =>
        if data == "" then Some(c)
        else (match ParseIntList(Split(data, ','), parseInt) case None => Some(c.(scoreInit := [0, 0])) case Some(l) => Some(c.(scoreInit := l)))
    else if StartsWith(item, "SCOREDIFF") then
      match AfterColon(item)
      case None => None
      case Some(data) =>
        if data == "" then Some(c)
        else (match parseFloat(data) case None => None case Some(v) => Some(c.(scoreDiff := Trunc(v))))
    else Some(c)
  }

  /** A COURSE header with value `value`: a recognised course becomes
      current and its data is reset, whatever was read for it before. An
      unrecognised value keeps the current course, and its data is reset
      all the same. */
  function CourseStep(st: MetaState, value: string): (r: MetaState)
    ensures var n := CourseNumber(Strip(Lower(value)));
      && (n.Some? ==> r.current == n && r.courses == st.courses[n.value := DefaultCourse])
      && (n.None? && st.current.Some? ==> r.current == st.current && r.courses == st.courses[st.current.value := DefaultCourse])
      && (n.None? && st.current.None? ==> r == st)
    ensures MetaValid(r)
  {
    var current := match CourseNumber(Strip(Lower(value))) case Some(d) => Some(d) case None => st.current;
    if current.Some? then MetaState(current, st.courses[current.value := DefaultCourse])
    else st
  }

  /** One stripped, non-empty line of the file applied by `get_metadata`;
      None where Python raises (a missing colon, an unparsable number).
      Song-level values other than course data are not kept. */
  function MetadataStep(st: MetaState, item: string, parseFloat: string -> Option<real>, parseInt: string -> Option<int>): (r: Option<MetaState>)
    requires MetaValid(st)
    requires |item| > 0
    ensures r.Some? ==> MetaValid(r.value)
  {
    if StartsWith(item, "#BRANCH") && st.current.Some? then
      var d := st.current.value;
      Some(st.(courses := st.courses[d := st.courses[d].(isBranching := true)]))
    else if StartsWith(item, "#") || IsDigit(item[0]) then Some(st)
    else if StartsWith(item, "SUBTITLE") then (if |item| <= 8 then None else Some(st))
    else if StartsWith(item, "TITLE") then (if |item| <= 5 then None else Some(st))
    else if SongHeaderNeedsColon(item) then
      match AfterColon(item)
      case None => None
      case Some(data) =>
        if SongHeaderIsFloat(item) && data != "" && parseFloat(data).None? then None else Some(st)
    else if StartsWith(item, "COURSE") then
      match AfterColon(item)
      case None => None
      case Some(value) => Some(CourseStep(st, value))
    else if st.current.Some? then
      var d := st.current.value;
      match CourseHeaderStep(st.courses[d], item, parseFloat, parseInt)
      case None => None
      case Some(c) => Some(st.(courses := st.courses[d := c]))
    else Some(st)
  }

  /** `get_metadata` over the stripped, non-empty lines of the file. */
  function Metadata(items: seq<string>, parseFloat: string -> Option<real>, parseInt: string -> Option<int>): (r: Option<MetaState>)
    requires forall i :: 0 <= i < |items| ==> |items[i]| > 0
    ensures r.Some? ==> MetaValid(r.value)
  {
    if |items| == 0 then Some(InitialMeta)
    else
      match Metadata(items[..|items| - 1], parseFloat, parseInt)
      case None => None
      case Some(st) => MetadataStep(st, items[|items| - 1], parseFloat, parseInt)
  }

  /* ---------------- data_to_notes ---------------- */

  /** The lower-case name of a course number; "" for numbers without one. */
  function DiffName(diff: int): string {
    if diff == 0 then "easy" else if diff == 1 then "normal" else if diff == 2 then "hard"
    else if diff == 3 then "oni" else if diff == 4 then "edit" else if diff == 5 then "tower"
    else if diff == 6 then "dan" else ""
  }

  /** Whether a `COURSE:` line selects course `diff`: by its number, or by
      the name `DiffName` gives (so "ura" does not select course 4 here). */
  predicate SelectsCourse(line: string, diff: int)
    requires StartsWith(line, "COURSE:")
  {
    var value := Lower(Strip(line[7..]));
    (AllDigits(value) && DigitsValue(value) == diff) || value == DiffName(diff)
  }

  predicate IsCourseLine(line: string) { StartsWith(line, "COURSE:") }

  predicate IsStartLine(line: string) { line == "#START" || line == "#START P1" }

  /** Whether the most recent `COURSE:` line before position i selects
      `diff`: the `target_found` flag of the section search. */
  predicate TargetFound(data: seq<string>, diff: int, i: nat)
    requires i <= |data|
  {
    if i == 0 then false
    else if IsCourseLine(data[i - 1]) then SelectsCourse(data[i - 1], diff)
    else TargetFound(data, diff, i - 1)
  }

  /** The section search from position i: returns the first line after the
      first `#START` seen under the selected course, and the first `#END`
      under the selected course after it. */
  function ScanSection(data: seq<string>, diff: int, i: nat, noteStart: Option<nat>): (r: Option<(nat, nat)>)
    requires i <= |data|
    requires noteStart.Some? ==> 0 < noteStart.value <= i
    ensures r.Some? ==> 0 < r.value.0 <= r.value.1 < |data|
    decreases |data| - i
  {
    if i == |data| then None
    else
      var line := data[i];
      if IsCourseLine(line) then ScanSection(data, diff, i + 1, noteStart)
      else if TargetFound(data, diff, i) then
        if noteStart.None? && IsStartLine(line) then ScanSection(data, diff, i + 1, Some(i + 1))
        else if line == "#END" && noteStart.Some? then Some((noteStart.value, i))
        else ScanSection(data, diff, i + 1, noteStart)
      else ScanSection(data, diff, i + 1, noteStart)
  }

  /** What the search promises: the section starts after a start line and
      ends at an `#END` line, both read under a COURSE line selecting the
      course. */
  lemma {:induction false} ScanSectionSound(data: seq<string>, diff: int, i: nat, noteStart: Option<nat>)
    requires i <= |data|
    requires noteStart.Some? ==> 0 < noteStart.value <= i
    requires noteStart.Some? ==> IsStartLine(data[noteStart.value - 1]) && TargetFound(data, diff, noteStart.value - 1)
    ensures var r := ScanSection(data, diff, i, noteStart);
      r.Some? ==>
        && IsStartLine(data[r.value.0 - 1]) && TargetFound(data, diff, r.value.0 - 1)
        && data[r.value.1] == "#END" && TargetFound(data, diff, r.value.1)
    decreases |data| - i
  {
    if i < |data| {
      ScanSectionStep(data, diff, i, noteStart);
      var t := !IsCourseLine(data[i]) && TargetFound(data, diff, i);
      if !(t && data[i] == "#END" && noteStart.Some?) {
        var next := if t && noteStart.None? && IsStartLine(data[i]) then Some(i + 1) else noteStart;
        ScanSectionSound(data, diff, i + 1, next);
      }
    }
  }

  /** One line of the section search: an `#END` under the course after a
      start line ends it; a start line under the course before any other
      starts the section; every other line moves on. */
  lemma ScanSectionStep(data: seq<string>, diff: int, i: nat, noteStart: Option<nat>)
    requires i < |data|
    requires noteStart.Some? ==> 0 < noteStart.value <= i
    ensures var t := !IsCourseLine(data[i]) && TargetFound(data, diff, i);
      ScanSection(data, diff, i, noteStart) ==
        if t && data[i] == "#END" && noteStart.Some? then Some((noteStart.value, i))
        else ScanSection(data, diff, i + 1, if t && noteStart.None? && IsStartLine(data[i]) then Some(i + 1) else noteStart)
  {
  }

  /** A COURSE line selecting the course, then a start line and an `#END`
      line with no COURSE line in between, is always found. */
  lemma {:induction false} ScanSectionComplete(data: seq<string>, diff: int, i: nat, noteStart: Option<nat>, s: nat, e: nat)
    requires i <= |data|
    requires noteStart.Some? ==> 0 < noteStart.value <= i
    requires i <= e < |data| && s < e && data[e] == "#END"
    requires TargetFound(data, diff, i)
    requires forall k :: i <= k <= e ==> !IsCourseLine(data[k])
    requires noteStart.None? ==> i <= s && IsStartLine(data[s])
    ensures ScanSection(data, diff, i, noteStart).Some?
    decreases |data| - i
  {
    var line := data[i];
    assert TargetFound(data, diff, i + 1);
    if noteStart.None? && IsStartLine(line) {
      if i < e {
        ScanSectionComplete(data, diff, i + 1, Some(i + 1), s, e);
      }
    } else if line == "#END" && noteStart.Some? {
    } else {
      if i == e {
        assert false;
      } else {
        ScanSectionComplete(data, diff, i + 1, noteStart, s, e);
      }
    }
  }

  /** A bar holding only commands (an empty bar included). */
  predicate AllCommands(bar: seq<string>) {
    forall k :: 0 <= k < |bar| ==> StartsWith(bar[k], "#")
  }

  /** A line that closes the bar being read. */
  predicate ClosesBar(line: string) {
    !StartsWith(line, "#") && EndsWith(line, ",")
  }

  /** The bar splitting of `data_to_notes` with `bar` already collected. */
  function SplitBars(lines: seq<string>, bar: seq<string>): (r: seq<seq<string>>)
    ensures forall k :: 0 <= k < |r| ==> |r[k]| > 0
    decreases |lines|
  {
    if |lines| == 0 then (if |bar| > 0 then [bar] else [])
    else
      var line := lines[0];
      if StartsWith(line, "#") then SplitBars(lines[1..], bar + [line])
      else if line == "," then [CloseBar(bar)] + SplitBars(lines[1..], [])
      else if EndsWith(line, ",") then [bar + [line[..|line| - 1]]] + SplitBars(lines[1..], [])
      else SplitBars(lines[1..], bar + [line])
  }

  /** The bar a lone comma closes: padded with "" when it holds no note,
      so that it still counts as a bar. */
  function CloseBar(bar: seq<string>): (r: seq<string>)
    ensures |r| > 0 && !AllCommands(r)
    ensures DropEmpty(r) == DropEmpty(bar)
  {
    if |bar| == 0 || AllCommands(bar) then
      DropEmptyAppend(bar, [""]);
      assert DropEmpty([""]) == [];
      assert !StartsWith("", "#");
      assert (bar + [""])[|bar|] == "";
      bar + [""]
    else bar
  }

  /** `data_to_notes`: the bars of the selected course's section, or none
      when the section is not found. */
  function DataToNotes(data: seq<string>, diff: int): (r: seq<seq<string>>)
    ensures ScanSection(data, diff, 0, None).None? ==> r == []
    ensures forall k :: 0 <= k < |r| ==> |r[k]| > 0
  {
    match ScanSection(data, diff, 0, None)
    case None => []
    case Some((noteStart, noteEnd)) => SplitBars(data[noteStart..noteEnd], [])
  }

  function Closers(lines: seq<string>): nat {
    if |lines| == 0 then 0 else (if ClosesBar(lines[0]) then 1 else 0) + Closers(lines[1..])
  }

  /** Every comma-terminated line closes exactly one bar, and at most one
      unclosed bar is kept at the end. */
  lemma {:induction false} SplitBarsCount(lines: seq<string>, bar: seq<string>)
    ensures Closers(lines) <= |SplitBars(lines, bar)| <= Closers(lines) + 1
    ensures |lines| > 0 && ClosesBar(lines[|lines| - 1]) ==> |SplitBars(lines, bar)| == Closers(lines)
    decreases |lines|
  {
    if |lines| > 0 {
      var line := lines[0];
      if StartsWith(line, "#") {
        SplitBarsCount(lines[1..], bar + [line]);
      } else if EndsWith(line, ",") {
        SplitBarsCount(lines[1..], []);
        if |lines| > 1 {
          assert lines[1..][|lines[1..]| - 1] == lines[|lines| - 1];
        } else {
          assert SplitBars(lines[1..], []) == [];
        }
      } else {
        SplitBarsCount(lines[1..], bar + [line]);
        if |lines| > 1 {
          assert lines[1..][|lines[1..]| - 1] == lines[|lines| - 1];
        }
      }
    }
  }

  predicate ClosedBarsHaveNotes(bars: seq<seq<string>>) {
    forall k :: 0 <= k < |bars| - 1 ==> !AllCommands(bars[k])
  }

  /** Every bar closed by a comma holds something other than commands: a
      note string, or the "" that keeps an empty bar a bar. */
  lemma {:induction false} ClosedBarsHoldNotes(lines: seq<string>, bar: seq<string>)
    requires forall k :: 0 <= k < |lines| ==> |lines[k]| > 0
    ensures ClosedBarsHaveNotes(SplitBars(lines, bar))
    decreases |lines|
  {
    if |lines| > 0 {
      var line := lines[0];
      if StartsWith(line, "#") {
        ClosedBarsHoldNotes(lines[1..], bar + [line]);
        assert SplitBars(lines, bar) == SplitBars(lines[1..], bar + [line]);
      } else if line == "," {
        ClosedBarsHoldNotes(lines[1..], []);
      } else if EndsWith(line, ",") {
        ClosedBarsHoldNotes(lines[1..], []);
        var closed := bar + [line[..|line| - 1]];
        assert !StartsWith(closed[|closed| - 1], "#") by {
          if |line| > 1 {
            assert line[..|line| - 1][0] == line[0];
          }
        }
      } else {
        ClosedBarsHoldNotes(lines[1..], bar + [line]);
      }
    }
  }

  function Flatten(bars: seq<seq<string>>): seq<string> {
    if |bars| == 0 then [] else bars[0] + Flatten(bars[1..])
  }

  function DropEmpty(s: seq<string>): seq<string> {
    if |s| == 0 then [] else (if s[0] == "" then [] else [s[0]]) + DropEmpty(s[1..])
  }

  lemma {:induction false} DropEmptyAppend(a: seq<string>, b: seq<string>)
    ensures DropEmpty(a + b) == DropEmpty(a) + DropEmpty(b)
  {
    if |a| > 0 {
      DropEmptyAppend(a[1..], b);
      assert (a + b)[1..] == a[1..] + b;
    } else {
      assert a + b == b;
    }
  }

  /** What one line of a section contributes to the bars: a lone comma
      nothing, a command itself, a note line without its trailing comma. */
  function CleanedLine(line: string): seq<string> {
    if StartsWith(line, "#") then [line]
    else if line == "," then []
    else if EndsWith(line, ",") then [line[..|line| - 1]]
    else [line]
  }

  function Cleaned(lines: seq<string>): seq<string> {
    if |lines| == 0 then [] else CleanedLine(lines[0]) + Cleaned(lines[1..])
  }

  /** Closing a bar in front of the remaining bars. */
  lemma FlattenClosed(closed: seq<string>, tail: seq<seq<string>>)
    ensures DropEmpty(Flatten([closed] + tail)) == DropEmpty(closed) + DropEmpty(Flatten(tail))
  {
    assert ([closed] + tail)[1..] == tail;
    assert Flatten([closed] + tail) == closed + Flatten(tail);
    DropEmptyAppend(closed, Flatten(tail));
  }

  /** A comma-terminated note line other than a lone comma keeps a
      non-empty text. */
  lemma CutLineNotEmpty(line: string)
    requires EndsWith(line, ",") && line != ","
    requires |line| > 0
    ensures DropEmpty([line[..|line| - 1]]) == [line[..|line| - 1]]
  {
    assert line[..|line| - 1] != "";
  }

  /** A command or an unterminated note line joins the open bar. */
  lemma KeepsContentJoin(lines: seq<string>, bar: seq<string>)
    requires |lines| > 0 && |lines[0]| > 0
    requires StartsWith(lines[0], "#") || (lines[0] != "," && !EndsWith(lines[0], ","))
    requires DropEmpty(Flatten(SplitBars(lines[1..], bar + [lines[0]]))) == DropEmpty(bar + [lines[0]]) + Cleaned(lines[1..])
    ensures DropEmpty(Flatten(SplitBars(lines, bar))) == DropEmpty(bar) + Cleaned(lines)
  {
    var line := lines[0];
    SplitBarsJoins(lines, bar);
    assert DropEmpty(bar + [line]) == DropEmpty(bar) + [line] by {
      DropEmptyAppend(bar, [line]);
      assert DropEmpty([line]) == [line];
    }
    assert Cleaned(lines) == [line] + Cleaned(lines[1..]) by {
      assert CleanedLine(line) == [line];
    }
    assert DropEmpty(bar) + Cleaned(lines) == (DropEmpty(bar) + [line]) + Cleaned(lines[1..]);
  }

  lemma SplitBarsJoins(lines: seq<string>, bar: seq<string>)
    requires |lines| > 0
    requires StartsWith(lines[0], "#") || (lines[0] != "," && !EndsWith(lines[0], ","))
    ensures SplitBars(lines, bar) == SplitBars(lines[1..], bar + [lines[0]])
  {
  }

  /** A lone comma closes the open bar, padded with "" when it holds no note. */
  lemma KeepsContentLoneComma(lines: seq<string>, bar: seq<string>)
    requires |lines| > 0 && lines[0] == ","
    requires DropEmpty(Flatten(SplitBars(lines[1..], []))) == Cleaned(lines[1..])
    ensures DropEmpty(Flatten(SplitBars(lines, bar))) == DropEmpty(bar) + Cleaned(lines)
  {
    var tail := SplitBars(lines[1..], []);
    assert !StartsWith(lines[0], "#") by {
      assert lines[0][..1] == [','];
      assert [','] != "#";
    }
    assert SplitBars(lines, bar) == [CloseBar(bar)] + tail;
    FlattenClosed(CloseBar(bar), tail);
    assert Cleaned(lines) == Cleaned(lines[1..]) by {
      assert CleanedLine(lines[0]) == [];
    }
  }

  /** A comma-terminated note line closes the open bar with its text. */
  lemma KeepsContentCut(lines: seq<string>, bar: seq<string>)
    requires |lines| > 0 && |lines[0]| > 0
    requires !StartsWith(lines[0], "#") && lines[0] != "," && EndsWith(lines[0], ",")
    requires DropEmpty(Flatten(SplitBars(lines[1..], []))) == Cleaned(lines[1..])
    ensures DropEmpty(Flatten(SplitBars(lines, bar))) == DropEmpty(bar) + Cleaned(lines)
  {
    var line := lines[0];
    var cut := line[..|line| - 1];
    var closed := bar + [cut];
    var tail := SplitBars(lines[1..], []);
    assert SplitBars(lines, bar) == [closed] + tail;
    FlattenClosed(closed, tail);
    DropEmptyAppend(bar, [cut]);
    CutLineNotEmpty(line);
    assert CleanedLine(line) == [cut];
    assert Cleaned(lines) == [cut] + Cleaned(lines[1..]);
  }

  /** Bar splitting loses and invents nothing: apart from the "" that keeps
      an empty bar a bar, the bars hold the section's lines in order, lone
      commas dropped and trailing commas cut. */
  lemma {:induction false} SplitBarsKeepsContent(lines: seq<string>, bar: seq<string>)
    requires forall k :: 0 <= k < |lines| ==> |lines[k]| > 0
    ensures DropEmpty(Flatten(SplitBars(lines, bar))) == DropEmpty(bar) + Cleaned(lines)
    decreases |lines|
  {
    if |lines| == 0 {
      assert Cleaned(lines) == [];
      if |bar| > 0 {
        assert Flatten([bar]) == bar + Flatten([]);
        assert Flatten([bar]) == bar;
      } else {
        assert DropEmpty(bar) == [];
      }
    } else {
      var line := lines[0];
      if StartsWith(line, "#") || (line != "," && !EndsWith(line, ",")) {
        SplitBarsKeepsContent(lines[1..], bar + [line]);
        KeepsContentJoin(lines, bar);
      } else if line == "," {
        SplitBarsKeepsContent(lines[1..], []);
        KeepsContentLoneComma(lines, bar);
      } else {
        SplitBarsKeepsContent(lines[1..], []);
        KeepsContentCut(lines, bar);
      }
    }
  }

  /* ---------------- get_moji ---------------- */

  /** The syllable drawn under a note of each type when no rhythm rule
      applies (`se_notes`). */
  const SeNotes: map<int, int> := map[1 := 0, 2 := 3, 3 := 5, 4 := 6, 5 := 7, 6 := 8, 7 := 9, 8 := 10, 9 := 11]

  predicate HasSyllable(n: Note) { 1 <= n.noteType <= 9 }

  /** Two note lists that differ at most in their syllables. */
  predicate SameButMoji(a: seq<Note>, b: seq<Note>) {
    |a| == |b| && forall i :: 0 <= i < |a| ==> a[i].(moji := 0) == b[i].(moji := 0)
  }

  /** The syllable of the next-to-last don or kat: the quick form when the
      newest note follows within an eighth of a measure less one ms. */
  function PrevMoji(prev: Note, cur: Note, msPerMeasure: real): int
    requires HasSyllable(prev)
  {
    var threshold := msPerMeasure / 8.0 - 1.0;
    if prev.noteType == 1 then (if cur.hitMs - prev.hitMs <= threshold then 1 else 0)
    else if prev.noteType == 2 then (if cur.hitMs - prev.hitMs <= threshold then 4 else 3)
    else SeNotes[prev.noteType]
  }

  /** Three dons in quick succession ending at the next-to-last note, set
      off by gaps of at least an eighth of a measure on both sides when
      there are more than five notes: the middle one reads "ko". */
  predicate MiddleOfQuickTriplet(notes: seq<Note>, msPerMeasure: real)
    requires |notes| > 3
  {
    var n := |notes|;
    var eighth := msPerMeasure / 8.0;
    && notes[n - 4].noteType == 1 && notes[n - 3].noteType == 1 && notes[n - 2].noteType == 1
    && notes[n - 3].hitMs - notes[n - 4].hitMs < eighth
    && notes[n - 2].hitMs - notes[n - 3].hitMs < eighth
    && (n > 5 ==> notes[n - 4].hitMs - notes[n - 5].hitMs >= eighth && notes[n - 1].hitMs - notes[n - 2].hitMs >= eighth)
  }

  /** `get_moji`, called after a note is appended: assigns syllables to the
      newest note, the one before it, and the middle of a quick triplet. */
  function AssignMoji(notes: seq<Note>, msPerMeasure: real): (r: seq<Note>)
    requires |notes| > 1 ==> HasSyllable(notes[|notes| - 1]) && HasSyllable(notes[|notes| - 2])
    ensures SameButMoji(r, notes)
    ensures |notes| <= 1 ==> r == notes
    ensures forall i :: 0 <= i < |notes| - 3 ==> r[i] == notes[i]
    ensures |notes| > 1 ==>
      var n := |notes|;
      && r[n - 1].moji == (if notes[n - 1].noteType == 1 then 0 else if notes[n - 1].noteType == 2 then 3 else SeNotes[notes[n - 1].noteType])
      && r[n - 2].moji == PrevMoji(notes[n - 2], notes[n - 1], msPerMeasure)
    ensures |notes| > 3 ==> r[|notes| - 3].moji == (if MiddleOfQuickTriplet(notes, msPerMeasure) then 2 else notes[|notes| - 3].moji)
  {
    if |notes| <= 1 then notes
    else
      var n := |notes|;
      var cur := notes[n - 1];
      var prev := notes[n - 2];
      var curMoji := if cur.noteType == 1 then 0 else if cur.noteType == 2 then 3 else SeNotes[cur.noteType];
      var s := notes[n - 1 := cur.(moji := curMoji)][n - 2 := prev.(moji := PrevMoji(prev, cur, msPerMeasure))];
      if n > 3 && MiddleOfQuickTriplet(notes, msPerMeasure) then s[n - 3 := s[n - 3].(moji := 2)]
      else s
  }

  /** The syllables are those of `se_notes` and the quick forms: 0 to 11. */
  predicate MojiInRange(notes: seq<Note>) {
    forall i :: 0 <= i < |notes| ==> 0 <= notes[i].moji <= 11
  }

  lemma AssignMojiInRange(notes: seq<Note>, msPerMeasure: real)
    requires |notes| > 1 ==> HasSyllable(notes[|notes| - 1]) && HasSyllable(notes[|notes| - 2])
    requires MojiInRange(notes)
    ensures MojiInRange(AssignMoji(notes, msPerMeasure))
  {
  }

  /** The syllables depend only on the notes' types and times, so a second
      pass over the same notes changes nothing. */
  lemma AssignMojiIdempotent(notes: seq<Note>, msPerMeasure: real)
    requires |notes| > 1 ==> HasSyllable(notes[|notes| - 1]) && HasSyllable(notes[|notes| - 2])
    ensures var r := AssignMoji(notes, msPerMeasure);
            (|r| > 1 ==> HasSyllable(r[|r| - 1]) && HasSyllable(r[|r| - 2]))
            && AssignMoji(r, msPerMeasure) == r
  {
    var r := AssignMoji(notes, msPerMeasure);
    var n := |notes|;
    if n > 1 {
      forall i | 0 <= i < n ensures r[i].noteType == notes[i].noteType && r[i].hitMs == notes[i].hitMs {
        assert r[i].(moji := 0) == notes[i].(moji := 0);
      }
      if n > 3 {
        assert MiddleOfQuickTriplet(r, msPerMeasure) == MiddleOfQuickTriplet(notes, msPerMeasure);
      }
      var again := AssignMoji(r, msPerMeasure);
      forall i | 0 <= i < n ensures again[i] == r[i] {
        assert again[i].(moji := 0) == r[i].(moji := 0);
      }
    }
  }

  /* ---------------- notes_to_position: the note tokenizer ---------------- */

  /** The tokenizer's state: the time of the next character, the next global
      note index, the balloon count, the unused BALLOON values, the note list
      being filled, and whether any note was made before (`prev_note`). */
  datatype TokState = TokState(ms: real, index: int, count: int, balloons: seq<int>, notes: seq<Note>, hasPrev: bool)

  predicate AllHaveSyllables(notes: seq<Note>) {
    forall i :: 0 <= i < |notes| ==> HasSyllable(notes[i])
  }

  /** The note a digit character makes, before its syllable is assigned. */
  function MakeNote(c: char, st: TokState, gogo: bool): (n: Note)
    requires '1' as int <= c as int <= '9' as int
    ensures HasSyllable(n) && n.noteType == c as int - '0' as int
    ensures n.hitMs == st.ms && n.index == st.index
    ensures n.kind.Roll? <==> c == '5' || c == '6'
    ensures n.kind.Balloon? <==> c == '7' || c == '9'
    ensures n.kind.Balloon? ==> n.kind.count == (if |st.balloons| == 0 then 1 else st.balloons[0]) && (n.kind.kusudama <==> c == '9')
  {
    var kind :=
      if c == '5' || c == '6' then Roll
      else if c == '7' || c == '9' then Balloon(if |st.balloons| == 0 then 1 else st.balloons[0], c == '9')
      else Plain;
    Note(c as int - '0' as int, st.ms, st.index, -1, gogo, kind)
  }

  /** Whether character c makes a note in state st: a digit other than 0,
      and not a 9 right after a type-9 note. */
  predicate MakesNote(c: char, st: TokState) {
    c != '.' && c != '0' && IsDigit(c)
    && !(c == '9' && |st.notes| > 0 && st.notes[|st.notes| - 1].noteType == 9)
  }

  /** One character of the per-character loop of `notes_to_position`.
      None where Python raises because a type-8 note has no note before it. */
  function TokStep(c: char, increment: real, msPerMeasure: real, gogo: bool, st: TokState): (r: Option<TokState>)
    requires AllHaveSyllables(st.notes)
    ensures r.None? <==> MakesNote(c, st) && c == '8' && !st.hasPrev
    ensures r.Some? ==> AllHaveSyllables(r.value.notes)
    ensures r.Some? ==> r.value.ms == st.ms + (if c == '.' then 0.0 else increment)
    ensures r.Some? && !MakesNote(c, st) ==> r.value == st.(ms := r.value.ms)
    ensures r.Some? && MakesNote(c, st) ==>
      && r.value.index == st.index + 1 && r.value.hasPrev
      && |r.value.notes| == |st.notes| + 1
      && SameButMoji(r.value.notes, st.notes + [MakeNote(c, st, gogo)])
  {
    if c == '.' then Some(st)
    else if c == '0' || !IsDigit(c) then Some(st.(ms := st.ms + increment))
    else if c == '9' && |st.notes| > 0 && st.notes[|st.notes| - 1].noteType == 9 then
      Some(st.(ms := st.ms + increment))
    else if c == '8' && !st.hasPrev then None
    else
      var note := MakeNote(c, st, gogo);
      var isBalloon := c == '7' || c == '9';
      Some(TokState(
        st.ms + increment, st.index + 1,
        if isBalloon then st.count + 1 else st.count,
        if isBalloon && |st.balloons| > 0 then st.balloons[1..] else st.balloons,
        AssignMoji(st.notes + [note], msPerMeasure), true))
  }

  /** The per-character loop of `notes_to_position` over one bar string. */
  function Tokenize(part: string, increment: real, msPerMeasure: real, gogo: bool, st: TokState): (r: Option<TokState>)
    requires AllHaveSyllables(st.notes)
    ensures r.Some? ==> AllHaveSyllables(r.value.notes)
    decreases |part|
  {
    if |part| == 0 then Some(st)
    else
      match TokStep(part[0], increment, msPerMeasure, gogo, st)
      case None => None
      case Some(next) => Tokenize(part[1..], increment, msPerMeasure, gogo, next)
  }

  /** The characters of a bar string that advance time: all but ".". */
  function TimedChars(part: string): nat {
    if |part| == 0 then 0 else (if part[0] == '.' then 0 else 1) + TimedChars(part[1..])
  }

  /** Every character but "." advances the time by one increment, whether
      or not it makes a note. */
  lemma TokenizeTime(part: string, increment: real, msPerMeasure: real, gogo: bool, st: TokState)
    requires AllHaveSyllables(st.notes)
    requires Tokenize(part, increment, msPerMeasure, gogo, st).Some?
    ensures Tokenize(part, increment, msPerMeasure, gogo, st).value.ms == st.ms + increment * TimedChars(part) as real
  {
    TokenizeTimeAfter(part, increment, msPerMeasure, gogo, st);
    TimeAfterSpan(part, increment, st.ms);
  }

  /** The time after the characters of `part`, one increment per character
      other than ".". */
  function TimeAfter(part: string, increment: real, ms: real): real
    decreases |part|
  {
    if |part| == 0 then ms else TimeAfter(part[1..], increment, ms + (if part[0] == '.' then 0.0 else increment))
  }

  lemma {:induction false} TokenizeTimeAfter(part: string, increment: real, msPerMeasure: real, gogo: bool, st: TokState)
    requires AllHaveSyllables(st.notes)
    requires Tokenize(part, increment, msPerMeasure, gogo, st).Some?
    ensures Tokenize(part, increment, msPerMeasure, gogo, st).value.ms == TimeAfter(part, increment, st.ms)
    decreases |part|
  {
    if |part| > 0 {
      TokenizeUnfold(part, increment, msPerMeasure, gogo, st);
      var next := TokStep(part[0], increment, msPerMeasure, gogo, st).value;
      TokenizeTimeAfter(part[1..], increment, msPerMeasure, gogo, next);
    }
  }

  lemma {:induction false} TimeAfterSpan(part: string, increment: real, ms: real)
    ensures TimeAfter(part, increment, ms) == ms + increment * TimedChars(part) as real
    decreases |part|
  {
    if |part| > 0 {
      var d := if part[0] == '.' then 0 else 1;
      var mid := ms + (if d == 0 then 0.0 else increment);
      TimeAfterSpan(part[1..], increment, mid);
      TimeStep(ms, mid, TimeAfter(part, increment, ms), increment, d, TimedChars(part[1..]), TimedChars(part));
    }
  }

  /** Adding one step of 0 or `x` to a time `k` steps of `x` long. */
  lemma TimeStep(start: real, mid: real, end: real, x: real, d: nat, k: nat, n: nat)
    requires d <= 1 && n == d + k
    requires mid == start + (if d == 0 then 0.0 else x)
    requires end == mid + x * k as real
    ensures end == start + x * n as real
  {
    if d == 1 {
      assert n as real == k as real + 1.0;
      assert x * (k as real + 1.0) == x * k as real + x;
    }
  }

  /** A successful tokenization of a non-empty string is one step and the
      tokenization of the rest. */
  lemma TokenizeUnfold(part: string, increment: real, msPerMeasure: real, gogo: bool, st: TokState)
    requires AllHaveSyllables(st.notes)
    requires |part| > 0 && Tokenize(part, increment, msPerMeasure, gogo, st).Some?
    ensures TokStep(part[0], increment, msPerMeasure, gogo, st).Some?
    ensures Tokenize(part, increment, msPerMeasure, gogo, st)
         == Tokenize(part[1..], increment, msPerMeasure, gogo, TokStep(part[0], increment, msPerMeasure, gogo, st).value)
  {
  }

  /** `r` continues the note list of `st`: the old notes are kept (up to
      their syllables), each new note took the next global index, and no
      new type-9 note directly follows a type-9 note. */
  predicate Continues(st: TokState, r: TokState) {
    var m := |st.notes|;
    && m <= |r.notes|
    && r.index == st.index + (|r.notes| - m)
    && SameButMoji(r.notes[..m], st.notes)
    && (forall k :: m <= k < |r.notes| ==> r.notes[k].index == st.index + (k - m))
    && (forall k :: m <= k < |r.notes| && k > 0 ==> !(r.notes[k].noteType == 9 && r.notes[k - 1].noteType == 9))
  }

  lemma ContinuesStep(c: char, increment: real, msPerMeasure: real, gogo: bool, st: TokState)
    requires AllHaveSyllables(st.notes)
    requires TokStep(c, increment, msPerMeasure, gogo, st).Some?
    ensures Continues(st, TokStep(c, increment, msPerMeasure, gogo, st).value)
  {
    var r := TokStep(c, increment, msPerMeasure, gogo, st).value;
    var m := |st.notes|;
    if MakesNote(c, st) {
      var note := MakeNote(c, st, gogo);
      assert r.notes[m].(moji := 0) == (st.notes + [note])[m].(moji := 0);
      forall i | 0 <= i < m
        ensures r.notes[..m][i].(moji := 0) == st.notes[i].(moji := 0)
      {
        assert r.notes[i].(moji := 0) == (st.notes + [note])[i].(moji := 0);
      }
      if m > 0 && r.notes[m].noteType == 9 {
        assert r.notes[m - 1].(moji := 0) == st.notes[m - 1].(moji := 0);
      }
    } else {
      assert r.notes[..m] == st.notes;
    }
  }

  lemma ContinuesTrans(a: TokState, b: TokState, c: TokState)
    requires Continues(a, b) && Continues(b, c)
    ensures Continues(a, c)
  {
    var m := |a.notes|;
    var p := |b.notes|;
    forall i | 0 <= i < m
      ensures c.notes[..m][i].(moji := 0) == a.notes[i].(moji := 0)
    {
      assert c.notes[..p][i].(moji := 0) == b.notes[i].(moji := 0);
      assert b.notes[..m][i].(moji := 0) == a.notes[i].(moji := 0);
    }
    forall k | m <= k < |c.notes|
      ensures c.notes[k].index == a.index + (k - m)
    {
      if k < p {
        assert c.notes[..p][k].(moji := 0) == b.notes[k].(moji := 0);
      }
    }
    forall k | m <= k < |c.notes| && k > 0
      ensures !(c.notes[k].noteType == 9 && c.notes[k - 1].noteType == 9)
    {
      if k < p {
        assert c.notes[..p][k].(moji := 0) == b.notes[k].(moji := 0);
        assert c.notes[..p][k - 1].(moji := 0) == b.notes[k - 1].(moji := 0);
      } else if k == p && k - 1 >= 0 {
        if k - 1 >= m {
          assert c.notes[..p][k - 1].(moji := 0) == b.notes[k - 1].(moji := 0);
        }
      }
    }
  }

  /** Tokenizing a bar string keeps the notes already made, gives the new
      notes consecutive global indices, and never makes a type-9 note right
      after another. */
  lemma {:induction false} TokenizeContinues(part: string, increment: real, msPerMeasure: real, gogo: bool, st: TokState)
    requires AllHaveSyllables(st.notes)
    requires Tokenize(part, increment, msPerMeasure, gogo, st).Some?
    ensures Continues(st, Tokenize(part, increment, msPerMeasure, gogo, st).value)
    decreases |part|
  {
    if |part| == 0 {
      assert st.notes[..|st.notes|] == st.notes;
    } else {
      TokenizeUnfold(part, increment, msPerMeasure, gogo, st);
      var next := TokStep(part[0], increment, msPerMeasure, gogo, st).value;
      ContinuesStep(part[0], increment, msPerMeasure, gogo, st);
      TokenizeContinues(part[1..], increment, msPerMeasure, gogo, next);
      ContinuesTrans(st, next, Tokenize(part, increment, msPerMeasure, gogo, st).value);
    }
  }

  /** The hit counts of the balloons among `notes`, in order. */
  function BalloonCounts(notes: seq<Note>): seq<int> {
    if |notes| == 0 then []
    else BalloonCounts(notes[..|notes| - 1]) + (if notes[|notes| - 1].kind.Balloon? then [notes[|notes| - 1].kind.count] else [])
  }

  /** The counts the next n balloons take from the BALLOON values: the
      values in order, then 1 for every balloon once they are used up. */
  function NextCounts(values: seq<int>, n: nat): (r: seq<int>)
    ensures |r| == n
  {
    if n == 0 then []
    else [if |values| == 0 then 1 else values[0]] + NextCounts(if |values| == 0 then [] else values[1..], n - 1)
  }

  function DropValues(values: seq<int>, n: nat): seq<int> {
    values[Min(n, |values|)..]
  }

  lemma {:induction false} NextCountsSplit(values: seq<int>, n1: nat, n2: nat)
    ensures NextCounts(values, n1 + n2) == NextCounts(values, n1) + NextCounts(DropValues(values, n1), n2)
  {
    if n1 > 0 {
      var rest := if |values| == 0 then [] else values[1..];
      NextCountsSplit(rest, n1 - 1, n2);
      assert DropValues(rest, n1 - 1) == DropValues(values, n1);
      assert n1 + n2 - 1 == (n1 - 1) + n2;
    }
  }

  lemma {:induction false} BalloonCountsAppend(a: seq<Note>, b: seq<Note>)
    ensures BalloonCounts(a + b) == BalloonCounts(a) + BalloonCounts(b)
    decreases |b|
  {
    if |b| == 0 {
      assert a + b == a;
    } else {
      BalloonCountsAppend(a, b[..|b| - 1]);
      assert (a + b)[..|a + b| - 1] == a + b[..|b| - 1];
    }
  }

  lemma {:induction false} BalloonCountsSameButMoji(a: seq<Note>, b: seq<Note>)
    requires SameButMoji(a, b)
    ensures BalloonCounts(a) == BalloonCounts(b)
    decreases |a|
  {
    if |a| > 0 {
      assert a[|a| - 1].(moji := 0) == b[|b| - 1].(moji := 0);
      BalloonCountsSameButMoji(a[..|a| - 1], b[..|b| - 1]);
    }
  }

  /** The balloons' hit counts after are those before followed by the next
      BALLOON values in order (1 each once they run out), and the balloon
      count grows by one per balloon made. */
  predicate TakesBalloonValues(st: TokState, r: TokState) {
    && st.count <= r.count
    && BalloonCounts(r.notes) == BalloonCounts(st.notes) + NextCounts(st.balloons, r.count - st.count)
    && r.balloons == DropValues(st.balloons, r.count - st.count)
  }

  lemma BalloonStep(c: char, increment: real, msPerMeasure: real, gogo: bool, st: TokState)
    requires AllHaveSyllables(st.notes)
    requires TokStep(c, increment, msPerMeasure, gogo, st).Some?
    ensures TakesBalloonValues(st, TokStep(c, increment, msPerMeasure, gogo, st).value)
  {
    var r := TokStep(c, increment, msPerMeasure, gogo, st).value;
    ContinuesStep(c, increment, msPerMeasure, gogo, st);
    BalloonStepNew(c, increment, msPerMeasure, gogo, st);
    CountsExtend(r.notes, st.notes, NextCounts(st.balloons, r.count - st.count));
  }

  /** The counts of the notes one step adds are the next BALLOON values. */
  lemma BalloonStepNew(c: char, increment: real, msPerMeasure: real, gogo: bool, st: TokState)
    requires AllHaveSyllables(st.notes)
    requires TokStep(c, increment, msPerMeasure, gogo, st).Some?
    ensures var r := TokStep(c, increment, msPerMeasure, gogo, st).value;
      && |st.notes| <= |r.notes| && st.count <= r.count
      && BalloonCounts(r.notes[|st.notes|..]) == NextCounts(st.balloons, r.count - st.count)
      && r.balloons == DropValues(st.balloons, r.count - st.count)
  {
    var r := TokStep(c, increment, msPerMeasure, gogo, st).value;
    var m := |st.notes|;
    if MakesNote(c, st) {
      var note := MakeNote(c, st, gogo);
      assert r.notes[m..] == [r.notes[m]];
      assert r.notes[m].(moji := 0) == (st.notes + [note])[m].(moji := 0);
      assert BalloonCounts([r.notes[m]]) == BalloonCounts([]) + (if note.kind.Balloon? then [note.kind.count] else []);
    } else {
      assert r.notes[m..] == [];
    }
  }

  /** Notes that keep an old list up to syllables and add `added`'s worth of
      balloon counts have the old counts followed by `added`. */
  lemma CountsExtend(rn: seq<Note>, sn: seq<Note>, added: seq<int>)
    requires |sn| <= |rn| && SameButMoji(rn[..|sn|], sn)
    requires BalloonCounts(rn[|sn|..]) == added
    ensures BalloonCounts(rn) == BalloonCounts(sn) + added
  {
    var m := |sn|;
    BalloonCountsSameButMoji(rn[..m], sn);
    assert rn == rn[..m] + rn[m..];
    BalloonCountsAppend(rn[..m], rn[m..]);
  }

  /** Taking balloon values composes: the counts `b` added after `a` and
      those `c` added after `b` are the next values of `a` in order. */
  lemma BalloonTrans(a: TokState, b: TokState, c: TokState)
    requires TakesBalloonValues(a, b) && TakesBalloonValues(b, c)
    ensures TakesBalloonValues(a, c)
  {
    var n1 := b.count - a.count;
    var n2 := c.count - b.count;
    assert c.count - a.count == n1 + n2;
    CountsCompose(BalloonCounts(a.notes), BalloonCounts(b.notes), BalloonCounts(c.notes), a.balloons, n1, n2);
    DropValuesTwice(a.balloons, n1, n2);
  }

  lemma CountsCompose(ca: seq<int>, cb: seq<int>, cc: seq<int>, values: seq<int>, n1: nat, n2: nat)
    requires cb == ca + NextCounts(values, n1)
    requires cc == cb + NextCounts(DropValues(values, n1), n2)
    ensures cc == ca + NextCounts(values, n1 + n2)
  {
    NextCountsSplit(values, n1, n2);
    assert cc == ca + (NextCounts(values, n1) + NextCounts(DropValues(values, n1), n2));
  }

  lemma DropValuesTwice(values: seq<int>, n1: nat, n2: nat)
    ensures DropValues(DropValues(values, n1), n2) == DropValues(values, n1 + n2)
  {
  }

  /** Over a whole bar string, the balloons made take the next BALLOON
      values in order, and 1 each once the values are used up. */
  lemma {:induction false} TokenizeBalloons(part: string, increment: real, msPerMeasure: real, gogo: bool, st: TokState)
    requires AllHaveSyllables(st.notes)
    requires Tokenize(part, increment, msPerMeasure, gogo, st).Some?
    ensures TakesBalloonValues(st, Tokenize(part, increment, msPerMeasure, gogo, st).value)
    decreases |part|
  {
    if |part| > 0 {
      TokenizeUnfold(part, increment, msPerMeasure, gogo, st);
      var next := TokStep(part[0], increment, msPerMeasure, gogo, st).value;
      var r := Tokenize(part, increment, msPerMeasure, gogo, st).value;
      BalloonStep(part[0], increment, msPerMeasure, gogo, st);
      TokenizeBalloons(part[1..], increment, msPerMeasure, gogo, next);
      BalloonTrans(st, next, r);
    }
  }

  // The merge of play notes and bar lines in `hash_note_data`.

  /** Ordered by hit time, the comparison notes define. */
  predicate SortedByHit(s: seq<Note>) {
    forall i, j :: 0 <= i < j < |s| ==> s[i].hitMs <= s[j].hitMs
  }

  /** The two-finger merge: the play note goes first when it is not later. */
  function Merge(a: seq<Note>, b: seq<Note>): (r: seq<Note>)
    ensures multiset(r) == multiset(a) + multiset(b)
    ensures |r| == |a| + |b|
    decreases |a| + |b|
  {
    if |a| == 0 then
      assert a + b == b;
      b
    else if |b| == 0 then
      a
    else if a[0].hitMs <= b[0].hitMs then
      assert a == [a[0]] + a[1..];
      [a[0]] + Merge(a[1..], b)
    else
      assert b == [b[0]] + b[1..];
      [b[0]] + Merge(a, b[1..])
  }

  /** `hash_note_data`'s loop and the two `extend` calls that follow it. */
  method HashMerge(playNotes: seq<Note>, bars: seq<Note>) returns (merged: seq<Note>)
    ensures merged == Merge(playNotes, bars)
    ensures multiset(merged) == multiset(playNotes) + multiset(bars)
  {
    merged := [];
    var i := 0;
    var j := 0;
    while i < |playNotes| && j < |bars|
      invariant 0 <= i <= |playNotes| && 0 <= j <= |bars|
      invariant merged + Merge(playNotes[i..], bars[j..]) == Merge(playNotes, bars)
      decreases |playNotes| - i + |bars| - j
    {
      MergeStep(playNotes, bars, i, j);
      var x := if playNotes[i].hitMs <= bars[j].hitMs then playNotes[i] else bars[j];
      if playNotes[i].hitMs <= bars[j].hitMs {
        i := i + 1;
      } else {
        j := j + 1;
      }
      AppendShift(merged, x, Merge(playNotes[i..], bars[j..]));
      merged := merged + [x];
    }
    MergeEnd(playNotes[i..], bars[j..]);
    merged := merged + playNotes[i..] + bars[j..];
  }

  /** One step of the merge, read at positions `i` and `j`. */
  lemma MergeStep(a: seq<Note>, b: seq<Note>, i: nat, j: nat)
    requires i < |a| && j < |b|
    ensures a[i].hitMs <= b[j].hitMs ==> Merge(a[i..], b[j..]) == [a[i]] + Merge(a[i + 1..], b[j..])
    ensures a[i].hitMs > b[j].hitMs ==> Merge(a[i..], b[j..]) == [b[j]] + Merge(a[i..], b[j + 1..])
  {
    assert a[i..][0] == a[i] && a[i..][1..] == a[i + 1..];
    assert b[j..][0] == b[j] && b[j..][1..] == b[j + 1..];
  }

  lemma AppendShift(m: seq<Note>, x: Note, rest: seq<Note>)
    ensures m + ([x] + rest) == (m + [x]) + rest
  {
  }

  /** Once either side is used up the merge is the other side. */
  lemma MergeEnd(a: seq<Note>, b: seq<Note>)
    requires |a| == 0 || |b| == 0
    ensures Merge(a, b) == a + b
  {
    if |a| == 0 {
      assert a + b == b;
    } else {
      assert a + b == a;
    }
  }

  /** No note of `s` is earlier than `t`. */
  predicate NotBefore(s: seq<Note>, t: real) {
    forall i :: 0 <= i < |s| ==> t <= s[i].hitMs
  }

  lemma MergeNotBefore(a: seq<Note>, b: seq<Note>, t: real)
    requires NotBefore(a, t) && NotBefore(b, t)
    ensures NotBefore(Merge(a, b), t)
  {
    var m := Merge(a, b);
    forall k | 0 <= k < |m| ensures t <= m[k].hitMs {
      assert m[k] in multiset(a) + multiset(b);
      if m[k] in multiset(a) {
        var x :| 0 <= x < |a| && a[x] == m[k];
      } else {
        var y :| 0 <= y < |b| && b[y] == m[k];
      }
    }
  }

  lemma ConsSorted(x: Note, m: seq<Note>)
    requires SortedByHit(m) && NotBefore(m, x.hitMs)
    ensures SortedByHit([x] + m)
  {
  }

  /** Merging two sorted lists gives a sorted list. */
  lemma {:induction false} MergeSorted(a: seq<Note>, b: seq<Note>)
    requires SortedByHit(a) && SortedByHit(b)
    ensures SortedByHit(Merge(a, b))
    decreases |a| + |b|
  {
    if |a| > 0 && |b| > 0 {
      if a[0].hitMs <= b[0].hitMs {
        MergeSorted(a[1..], b);
        MergeNotBefore(a[1..], b, a[0].hitMs);
        ConsSorted(a[0], Merge(a[1..], b));
      } else {
        MergeSorted(a, b[1..]);
        MergeNotBefore(a, b[1..], b[0].hitMs);
        ConsSorted(b[0], Merge(a, b[1..]));
      }
    }
  }

  /** The number of leading notes of `a` that are not later than `t`. */
  function LeadingUpTo(a: seq<Note>, t: real): (k: nat)
    ensures k <= |a|
    ensures forall i :: 0 <= i < k ==> a[i].hitMs <= t
    ensures k < |a| ==> a[k].hitMs > t
  {
    if |a| == 0 || a[0].hitMs > t then 0 else 1 + LeadingUpTo(a[1..], t)
  }

  /** Every play note up to the first bar's time, ties included, is placed
      before that bar, and the bar comes next when play notes remain. */
  lemma {:induction false} MergeTiesTakePlayNote(a: seq<Note>, b: seq<Note>)
    requires |b| > 0
    ensures LeadingUpTo(a, b[0].hitMs) <= |Merge(a, b)|
    ensures Merge(a, b) == a[..LeadingUpTo(a, b[0].hitMs)] + Merge(a[LeadingUpTo(a, b[0].hitMs)..], b)
    ensures Merge(a[LeadingUpTo(a, b[0].hitMs)..], b)[0] == b[0]
    decreases |a|
  {
    var k := LeadingUpTo(a, b[0].hitMs);
    if k == 0 {
      assert a[..0] == [];
      assert a[0..] == a;
    } else {
      var rest := a[1..];
      assert LeadingUpTo(rest, b[0].hitMs) == k - 1;
      MergeTiesTakePlayNote(rest, b);
      assert rest[k - 1..] == a[k..];
      MergeTakesFirst(a, b);
      ConsPrefix(a, k, Merge(a[k..], b));
    }
  }

  /** The play note goes first when it is not later than the bar. */
  lemma MergeTakesFirst(a: seq<Note>, b: seq<Note>)
    requires |a| > 0 && |b| > 0 && a[0].hitMs <= b[0].hitMs
    ensures Merge(a, b) == [a[0]] + Merge(a[1..], b)
  {
  }

  lemma ConsPrefix(a: seq<Note>, k: nat, tail: seq<Note>)
    requires 0 < k <= |a|
    ensures [a[0]] + (a[1..][..k - 1] + tail) == a[..k] + tail
  {
    assert a[..k] == [a[0]] + a[1..][..k - 1];
  }

  // `modifier_inverse`.

  /** Don and kat swap, big don and big kat swap; every other type stays. */
  function InverseType(t: int): (r: int)
    ensures (t == 1 <==> r == 2) && (t == 2 <==> r == 1)
    ensures (t == 3 <==> r == 4) && (t == 4 <==> r == 3)
    ensures !(1 <= t <= 4) ==> r == t
  {
    if t == 1 then 2 else if t == 2 then 1 else if t == 3 then 4 else if t == 4 then 3 else t
  }

  /** The play notes with their types inverted, everything else kept. */
  function ModifierInverse(notes: seq<Note>): (r: seq<Note>)
    ensures |r| == |notes|
    ensures forall i :: 0 <= i < |notes| ==> r[i] == notes[i].(noteType := InverseType(notes[i].noteType))
  {
    seq(|notes|, i requires 0 <= i < |notes| => notes[i].(noteType := InverseType(notes[i].noteType)))
  }

  /** Inverting twice gives the chart back. */
  lemma InverseTwice(notes: seq<Note>)
    ensures ModifierInverse(ModifierInverse(notes)) == notes
  {
    var once := ModifierInverse(notes);
    var twice := ModifierInverse(once);
    forall i | 0 <= i < |notes| ensures twice[i] == notes[i] {
      assert InverseType(InverseType(notes[i].noteType)) == notes[i].noteType;
    }
  }
}
