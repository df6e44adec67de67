/** The dan (rank exam) rules while a course is played
    (scenes/dan/game_dan.py): the value each exam measures, its progress
    bar and counter, exam failures, the dan gauge, the per-song results
    and the advance from one song of the course to the next. */
module GameDan {
  import opened Common

  /** Whether an exam asks for at least (`more`) or less than (`less`)
      its red value; any other range string counts like `more` for the
      counter and fails nothing. */
  datatype Range = More | Less | OtherRange

  datatype Exam = Exam(kind: string, red: int, gold: int, range: Range)

  /** The player's running totals the exams read. */
  datatype Totals = Totals(good: nat, ok: nat, bad: nat, score: int, maxCombo: nat, drumroll: nat, gaugeLength: real)

  const DanGaugeMax: real := 89.0

  /** Notes not yet judged. */
  function RemainingNotes(totalNotes: int, t: Totals): (r: int)
    ensures r + t.good + t.ok + t.bad == totalNotes
  {
    totalNotes - t.good - t.ok - t.bad
  }

  /** `_get_exam_progress`: the value an exam type measures, truncated to
      an integer; an unknown type measures 0. */
  function ExamValue(kind: string, t: Totals): (v: int)
    ensures kind == "gauge" ==> v == Trunc(t.gaugeLength / DanGaugeMax * 100.0)
    ensures kind == "judgeperfect" ==> v == t.good
    ensures kind == "judgegood" ==> v == t.ok + t.bad
    ensures kind == "judgebad" ==> v == t.bad
    ensures kind == "score" ==> v == t.score
    ensures kind == "combo" ==> v == t.maxCombo
    ensures kind !in {"gauge", "judgeperfect", "judgegood", "judgebad", "score", "combo"} ==> v == 0
  {
    if kind == "gauge" then Trunc(t.gaugeLength / DanGaugeMax * 100.0)
    else if kind == "judgeperfect" then t.good
    else if kind == "judgegood" then t.ok + t.bad
    else if kind == "judgebad" then t.bad
    else if kind == "score" then t.score
    else if kind == "combo" then t.maxCombo
    else 0
  }

  /** The filled part of an exam's bar: the value over the red value (one
      minus that for a `less` exam), clamped to [0, 1]. */
  function Progress(e: Exam, value: int): (p: real)
    requires e.red > 0
    ensures 0.0 <= p <= 1.0
    ensures e.range != Less && 0 <= value <= e.red ==> p * e.red as real == value as real
    ensures e.range == Less && 0 <= value <= e.red ==> p * e.red as real == (e.red - value) as real
    ensures e.range != Less ==> (p == 1.0 <==> value >= e.red)
    ensures e.range == Less ==> (p == 0.0 <==> value >= e.red)
  {
    var ratio := value as real / e.red as real;
    RatioFacts(value as real, e.red as real);
    var progress := if e.range == Less then 1.0 - ratio else ratio;
    MaxReal(0.0, MinReal(progress, 1.0))
  }

  lemma RatioFacts(v: real, r: real)
    requires r > 0.0
    ensures (v / r) * r == v
    ensures v / r >= 1.0 <==> v >= r
    ensures v / r >= 0.0 <==> v >= 0.0
  {
    var q := v / r;
    assert q * r == v;
    if q >= 1.0 {
      assert q * r >= 1.0 * r;
    }
    if q < 0.0 {
      assert q * r < 0.0;
    }
  }

  /** The number shown next to the bar: what is left before the red value
      for a `less` exam, the value itself otherwise, never below 0. */
  function Counter(e: Exam, value: int): (c: int)
    ensures c >= 0
    ensures e.range == Less ==> c == Max(0, e.red - value)
    ensures e.range != Less ==> c == Max(0, value)
  {
    if e.range == Less then Max(0, e.red - value) else Max(0, value)
  }

  datatype Bar = ExamMax | ExamGold | ExamRed

  /** The bar texture: full, at least half, or less. */
  function BarFor(progress: real): (b: Bar)
    ensures b == ExamMax <==> progress == 1.0
    ensures b == ExamGold <==> 0.5 <= progress && progress != 1.0
    ensures b == ExamRed <==> progress < 0.5
  {
    if progress == 1.0 then ExamMax else if progress >= 0.5 then ExamGold else ExamRed
  }

  /** The failure test of one exam in `_check_exam_failures`: a failed
      exam stays failed; a `more` exam fails once the course has ended
      (`end_ms` is set) below its red value, a `less` exam as soon as its
      counter reaches 0. */
  function ExamFails(failed: bool, e: Exam, value: int, endMs: real): (r: bool)
    ensures failed ==> r
    ensures !failed && e.range == More ==> (r <==> value < e.red && endMs != 0.0)
    ensures !failed && e.range == Less ==> (r <==> value >= e.red)
    ensures !failed && e.range == OtherRange ==> !r
  {
    if failed then true
    else if e.range == More then value < e.red && endMs != 0.0
    else if e.range == Less then Counter(e, value) == 0
    else false
  }

  /** A `less` exam fails exactly when its counter shows 0, which is also
      when its bar is empty. */
  lemma LessFailureEmptiesBar(e: Exam, value: int, endMs: real)
    requires e.red > 0 && e.range == Less
    ensures ExamFails(false, e, value, endMs) <==> Counter(e, value) == 0
    ensures ExamFails(false, e, value, endMs) <==> Progress(e, value) == 0.0
  {
  }

  /** `_check_exam_failures` over every exam. */
  function CheckExamFailures(failed: seq<bool>, exams: seq<Exam>, t: Totals, endMs: real): (r: seq<bool>)
    requires |failed| == |exams|
    ensures |r| == |exams|
    ensures forall i :: 0 <= i < |exams| ==> r[i] == ExamFails(failed[i], exams[i], ExamValue(exams[i].kind, t), endMs)
    ensures forall i :: 0 <= i < |exams| && failed[i] ==> r[i]
  {
    seq(|exams|, i requires 0 <= i < |exams| => ExamFails(failed[i], exams[i], ExamValue(exams[i].kind, t), endMs))
  }

  /** Once failed, an exam stays failed through any later checks. */
  lemma {:induction false} FailuresSticky(failed: seq<bool>, exams: seq<Exam>, checks: seq<(Totals, real)>, i: nat)
    requires |failed| == |exams| && i < |exams| && failed[i]
    ensures FailedAfter(failed, exams, checks)[i]
    decreases |checks|
  {
    if |checks| > 0 {
      FailuresSticky(failed, exams, checks[..|checks| - 1], i);
    }
  }

  /** The failure flags after a run of checks, each with its totals and
      end time. */
  function FailedAfter(failed: seq<bool>, exams: seq<Exam>, checks: seq<(Totals, real)>): (r: seq<bool>)
    requires |failed| == |exams|
    ensures |r| == |exams|
  {
    if |checks| == 0 then failed
    else
      var last := checks[|checks| - 1];
      CheckExamFailures(FailedAfter(failed, exams, checks[..|checks| - 1]), exams, last.0, last.1)
  }

  // ---------------------------------------------------------------------
  // The dan gauge.

  /** `DanGauge`: a GOOD adds 100 / (0.89 * total), an OK half of that and
      a BAD takes twice that, within [0, 89]. */
  function DanStep(totalNotes: int): (r: real)
    requires totalNotes > 0
    ensures r > 0.0
  {
    (1.0 / (totalNotes as real * (DanGaugeMax / 100.0))) * 100.0
  }

  predicate DanInRange(length: real) {
    0.0 <= length <= DanGaugeMax
  }

  function DanAddGood(length: real, totalNotes: int): (r: real)
    requires totalNotes > 0
    ensures r == MinReal(length + DanStep(totalNotes), DanGaugeMax)
    ensures DanInRange(length) ==> DanInRange(r) && length <= r
  {
    var l := length + DanStep(totalNotes);
    if l > DanGaugeMax then DanGaugeMax else l
  }

  function DanAddOk(length: real, totalNotes: int): (r: real)
    requires totalNotes > 0
    ensures r == MinReal(length + DanStep(totalNotes) / 2.0, DanGaugeMax)
    ensures DanInRange(length) ==> DanInRange(r) && length <= r
  {
    var l := length + (0.5 / (totalNotes as real * (DanGaugeMax / 100.0))) * 100.0;
    assert (0.5 / (totalNotes as real * (DanGaugeMax / 100.0))) * 100.0 == DanStep(totalNotes) / 2.0;
    if l > DanGaugeMax then DanGaugeMax else l
  }

  function DanAddBad(length: real, totalNotes: int): (r: real)
    requires totalNotes > 0
    ensures r == MaxReal(length - 2.0 * DanStep(totalNotes), 0.0)
    ensures DanInRange(length) ==> DanInRange(r) && r <= length
  {
    var l := length - (2.0 / (totalNotes as real * (DanGaugeMax / 100.0))) * 100.0;
    assert (2.0 / (totalNotes as real * (DanGaugeMax / 100.0))) * 100.0 == 2.0 * DanStep(totalNotes);
    if l < 0.0 then 0.0 else l
  }

  /** `DanGauge.update`: the dan gauge is clear only when it is full, and
      then it is also rainbow. */
  function DanGaugeFlags(length: real): (r: (bool, bool))
    ensures r.0 == r.1
    ensures r.0 <==> length == DanGaugeMax
  {
    var rainbow := length == DanGaugeMax;
    (rainbow, rainbow)
  }

  // ---------------------------------------------------------------------
  // Per-song results and moving through the course.

  /** One song's counts in the dan result. */
  datatype SongEntry = SongEntry(good: int, ok: int, bad: int, drumroll: int)

  function SumGood(s: seq<SongEntry>): int {
    if |s| == 0 then 0 else SumGood(s[..|s| - 1]) + s[|s| - 1].good
  }

  function SumOk(s: seq<SongEntry>): int {
    if |s| == 0 then 0 else SumOk(s[..|s| - 1]) + s[|s| - 1].ok
  }

  function SumBad(s: seq<SongEntry>): int {
    if |s| == 0 then 0 else SumBad(s[..|s| - 1]) + s[|s| - 1].bad
  }

  function SumDrumroll(s: seq<SongEntry>): int {
    if |s| == 0 then 0 else SumDrumroll(s[..|s| - 1]) + s[|s| - 1].drumroll
  }

  /** At the end of a song, while fewer songs have entries than the course
      has songs, an entry is added holding the running totals less the
      earlier entries; so the entries then sum to the running totals. */
  function AddSongEntry(entries: seq<SongEntry>, songCount: nat, t: Totals): (r: seq<SongEntry>)
    ensures |entries| < songCount ==> |r| == |entries| + 1 && r[..|entries|] == entries
    ensures |entries| >= songCount ==> r == entries
    ensures |entries| < songCount ==>
              SumGood(r) == t.good && SumOk(r) == t.ok && SumBad(r) == t.bad && SumDrumroll(r) == t.drumroll
    ensures |r| <= Max(|entries|, songCount)
  {
    if |entries| < songCount then
      var e := SongEntry(t.good - SumGood(entries), t.ok - SumOk(entries), t.bad - SumBad(entries), t.drumroll - SumDrumroll(entries));
      var r := entries + [e];
      assert r[..|r| - 1] == entries;
      r
    else entries
  }

  /** The song position after the end of a song: the next song while one
      is left, otherwise unchanged (the course is over). */
  function NextSongIndex(index: nat, songCount: nat): (r: nat)
    requires index < songCount
    ensures r < songCount
    ensures index < songCount - 1 ==> r == index + 1
    ensures index == songCount - 1 ==> r == index
  {
    if index == songCount - 1 then index else index + 1
  }

  /** The end time of the last song is latched on its first frame past the
      end and not moved after. */
  function LatchEnd(endMs: real, now: real): (r: real)
    ensures endMs != 0.0 ==> r == endMs
    ensures endMs == 0.0 ==> r == now
  {
    if endMs != 0.0 then endMs else now
  }
}
