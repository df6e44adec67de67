/** The dan result screen (scenes/dan/dan_result.py): the course verdict,
    the totals shown over the songs, the gauge it redraws and the two-page
    input. */
module DanResult {
  import opened Common
  import GameDan

  /** What the result keeps of an exam: its clamped progress (the filled
      part of its bar, in [0, 1]) and whether it failed. */
  datatype ExamResult = ExamResult(progress: real, failed: bool)

  datatype Verdict = VerdictFail | GoldClear | RedClear

  predicate AnyFailed(results: seq<ExamResult>) {
    exists i :: 0 <= i < |results| && results[i].failed
  }

  /** The verdict as the screen decides it: failed if any exam failed,
      otherwise gold when every stored progress is at least its exam's gold
      value (the pairs `zip` forms, so up to the shorter list), red
      otherwise. The progress is a fraction and the gold value a count, so
      the gold test compares unlike quantities. */
  function VerdictAsWritten(results: seq<ExamResult>, exams: seq<GameDan.Exam>): (v: Verdict)
    ensures v == VerdictFail <==> AnyFailed(results)
    ensures v == GoldClear <==>
              !AnyFailed(results) && forall i :: 0 <= i < Min(|results|, |exams|) ==> results[i].progress >= exams[i].gold as real
  {
    if AnyFailed(results) then VerdictFail
    else if forall i :: 0 <= i < Min(|results|, |exams|) ==> results[i].progress >= exams[i].gold as real then GoldClear
    else RedClear
  }

  /** The result the play produces for one exam: `_calculate_dan_info`'s
      clamped progress and the failure flag. */
  function ResultOf(e: GameDan.Exam, value: int, failed: bool): (r: ExamResult)
    requires e.red > 0
    ensures 0.0 <= r.progress <= 1.0 && r.failed == failed
  {
    ExamResult(GameDan.Progress(e, value), failed)
  }

  /** A gold value above 1 can never be met by a progress in [0, 1]: a
      course passed with every count past such a gold value still shows a
      red clear. */
  lemma GoldMissedAboveOne(e: GameDan.Exam, value: int)
    requires e.red > 0 && e.gold > 1
    ensures VerdictAsWritten([ResultOf(e, value, false)], [e]) == RedClear
  {
    var results := [ResultOf(e, value, false)];
    assert !AnyFailed(results);
    assert !(results[0].progress >= e.gold as real);
  }

  /** The concrete case: a `judgeperfect` exam with red 100 and gold 120
      passed with 130 GOODs. */
  lemma GoldClearMissed()
    ensures var e := GameDan.Exam("judgeperfect", 100, 120, GameDan.More);
            GoldReached(e, 130) && VerdictAsWritten([ResultOf(e, 130, false)], [e]) == RedClear
  {
    GoldMissedAboveOne(GameDan.Exam("judgeperfect", 100, 120, GameDan.More), 130);
  }

  /** Whether a measured value reaches an exam's gold value, in the
      direction its range asks for: at least gold for a `more` exam, below
      gold for a `less` exam (which fails at its red value). */
  predicate GoldReached(e: GameDan.Exam, value: int) {
    if e.range == GameDan.Less then value < e.gold else value >= e.gold
  }

  /** The verdict with the gold test made on the measured values: failed
      if any exam failed, gold when every exam reached its gold value, red
      otherwise. */
  function CourseVerdict(failed: seq<bool>, exams: seq<GameDan.Exam>, values: seq<int>): (v: Verdict)
    requires |failed| == |exams| == |values|
    ensures v == VerdictFail <==> exists i :: 0 <= i < |failed| && failed[i]
    ensures v == GoldClear <==>
              (forall i :: 0 <= i < |failed| ==> !failed[i]) && forall i :: 0 <= i < |exams| ==> GoldReached(exams[i], values[i])
    ensures v == RedClear ==> exists i :: 0 <= i < |exams| && !GoldReached(exams[i], values[i])
  {
    if exists i :: 0 <= i < |failed| && failed[i] then VerdictFail
    else if forall i :: 0 <= i < |exams| ==> GoldReached(exams[i], values[i]) then GoldClear
    else RedClear
  }

  /** For `more` exams with gold at or above red, reaching gold also fills
      the bar, so the corrected gold clear implies every bar is full. */
  lemma GoldFillsBars(failed: seq<bool>, exams: seq<GameDan.Exam>, values: seq<int>)
    requires |failed| == |exams| == |values|
    requires forall i :: 0 <= i < |exams| ==> exams[i].range == GameDan.More && 0 < exams[i].red <= exams[i].gold
    requires CourseVerdict(failed, exams, values) == GoldClear
    ensures forall i :: 0 <= i < |exams| ==> GameDan.Progress(exams[i], values[i]) == 1.0
  {
    forall i | 0 <= i < |exams|
      ensures GameDan.Progress(exams[i], values[i]) == 1.0
    {
      assert GoldReached(exams[i], values[i]);
    }
  }

  // ---------------------------------------------------------------------
  // Totals.

  /** The max-hits count: every song's GOODs, OKs, BADs and drumroll hits. */
  function MaxHits(songs: seq<GameDan.SongEntry>): int {
    if |songs| == 0 then 0
    else
      var s := songs[|songs| - 1];
      MaxHits(songs[..|songs| - 1]) + s.drumroll + s.ok + s.bad + s.good
  }

  /** The max-hits count is the sum of the four per-judgement totals the
      screen shows. */
  lemma {:induction false} MaxHitsIsTotals(songs: seq<GameDan.SongEntry>)
    ensures MaxHits(songs) == GameDan.SumGood(songs) + GameDan.SumOk(songs) + GameDan.SumBad(songs) + GameDan.SumDrumroll(songs)
  {
    if |songs| > 0 {
      MaxHitsIsTotals(songs[..|songs| - 1]);
    }
  }

  /** After the course the per-song entries sum to the running totals, so
      max hits is the judged notes plus the drumroll hits. */
  lemma MaxHitsOfCourse(entries: seq<GameDan.SongEntry>, songCount: nat, t: GameDan.Totals)
    requires |entries| < songCount
    ensures MaxHits(GameDan.AddSongEntry(entries, songCount, t)) == t.good + t.ok + t.bad + t.drumroll
  {
    MaxHitsIsTotals(GameDan.AddSongEntry(entries, songCount, t));
  }

  // ---------------------------------------------------------------------
  // The result gauge.

  /** The gauge's drawn width, `int(gauge_length * 8)`. */
  function VisualLength(gaugeLength: real): (w: int)
    ensures gaugeLength >= 0.0 ==> 0 <= w && w as real <= gaugeLength * 8.0 < w as real + 1.0
    ensures 0.0 <= gaugeLength <= GameDan.DanGaugeMax ==> w <= 712
  {
    Trunc(gaugeLength * 8.0)
  }

  /** The result gauge's flags agree with the play's dan gauge: clear and
      rainbow both exactly when the gauge is full. */
  lemma ResultGaugeFlags(gaugeLength: real)
    ensures GameDan.DanGaugeFlags(gaugeLength).0 <==> gaugeLength == 89.0
  {
  }

  // ---------------------------------------------------------------------
  // Input.

  /** The screen's page and whether its fade-out has started. */
  datatype Page = Page(second: bool, fadingOut: bool)

  /** `handle_input` for one frame: a don press on the first page turns to
      the second; one on the second starts the fade-out. */
  function HandleInput(p: Page, donPressed: bool): (r: Page)
    ensures !donPressed ==> r == p
    ensures donPressed && !p.second ==> r == Page(true, p.fadingOut)
    ensures donPressed && p.second ==> r == Page(true, true)
    ensures p.second ==> r.second
  {
    if donPressed then
      if p.second then p.(fadingOut := true) else p.(second := true)
    else p
  }

  /** Pages after a run of frames. */
  function Frames(p: Page, presses: seq<bool>): (r: Page)
    decreases |presses|
  {
    if |presses| == 0 then p else Frames(HandleInput(p, presses[0]), presses[1..])
  }

  function Count(presses: seq<bool>): (n: nat)
    ensures n <= |presses|
  {
    if |presses| == 0 then 0 else (if presses[0] then 1 else 0) + Count(presses[1..])
  }

  /** From the first page, the fade-out starts only after two presses: the
      first turns the page, the second starts the fade; and any press
      leaves the screen on the second page. */
  lemma {:induction false} FadeNeedsTwoPresses(p: Page, presses: seq<bool>)
    requires !p.fadingOut
    ensures Frames(p, presses).fadingOut ==> Count(presses) >= (if p.second then 1 else 2)
    ensures Count(presses) >= 1 || p.second ==> Frames(p, presses).second
    decreases |presses|
  {
    if |presses| > 0 {
      var q := HandleInput(p, presses[0]);
      var rest := presses[1..];
      if q.fadingOut {
        SecondStays(q, rest);
      } else {
        FadeNeedsTwoPresses(q, rest);
      }
    }
  }

  lemma {:induction false} SecondStays(p: Page, presses: seq<bool>)
    requires p.second
    ensures Frames(p, presses).second
    decreases |presses|
  {
    if |presses| > 0 {
      SecondStays(HandleInput(p, presses[0]), presses[1..]);
    }
  }

  lemma {:induction false} FramesKeepsFade(p: Page, presses: seq<bool>)
    requires p.fadingOut
    ensures Frames(p, presses).fadingOut
    decreases |presses|
  {
    if |presses| > 0 {
      FramesKeepsFade(HandleInput(p, presses[0]), presses[1..]);
    }
  }
}
