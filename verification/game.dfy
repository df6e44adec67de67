/** The judgement and scoring rules of one player in a song
    (scenes/game.py): timing windows, the score, combo and judgement
    counters, drumrolls and balloons, the per-player soul gauge, the
    branch choice at the end of a branch section, and the rule deciding
    what `write_score` stores. Times are milliseconds as `real`. */
module Game {
  import opened Common
  import Tja

  // Note types, as the chart letters number them.
  const Don: int := 1
  const Kat: int := 2
  const DonBig: int := 3
  const KatBig: int := 4
  const RollHead: int := 5
  const RollHeadBig: int := 6
  const BalloonHead: int := 7
  const Tail: int := 8
  const Kusudama: int := 9

  /** The lane of the drum: the centre (don) or the rim (kat). */
  datatype Drum = DonDrum | KatDrum

  datatype Judgment = Good | Ok | Bad

  /** How much worse a judgement is: GOOD 0, OK 1, BAD 2. */
  function Rank(j: Judgment): nat {
    match j
    case Good => 0
    case Ok => 1
    case Bad => 2
  }

  function Abs(x: real): real {
    if x >= 0.0 then x else -x
  }

  // ---------------------------------------------------------------------
  // Timing windows and the judgement of one hit.

  /** Half-widths of the GOOD, OK and BAD windows around a note. */
  datatype Windows = Windows(good: real, ok: real, bad: real)

  const StandardWindows: Windows := Windows(25.0250015258789, 75.0750045776367, 108.441665649414)
  const EasyWindows: Windows := Windows(41.7083358764648, 108.441665649414, 125.125)

  /** The windows `check_note` uses: the easy set below NORMAL. */
  function WindowsFor(difficulty: int): (w: Windows)
    ensures w == EasyWindows <==> difficulty < 1
    ensures w == StandardWindows <==> difficulty >= 1
    ensures 0.0 < w.good < w.ok < w.bad
  {
    if difficulty < 1 then EasyWindows else StandardWindows
  }

  /** The judgement of a hit at `ms` on a note due at `hitMs`: GOOD inside
      the good window, else OK inside the ok window, else BAD inside the
      bad window; outside the bad window the hit judges nothing. */
  function Judge(ms: real, hitMs: real, w: Windows): (r: Option<Judgment>)
    requires 0.0 <= w.good <= w.ok <= w.bad
    ensures r == Some(Good) <==> Abs(ms - hitMs) <= w.good
    ensures r == Some(Ok) <==> w.good < Abs(ms - hitMs) <= w.ok
    ensures r == Some(Bad) <==> w.ok < Abs(ms - hitMs) <= w.bad
    ensures r.None? <==> w.bad < Abs(ms - hitMs)
  {
    if ms > hitMs + w.bad then None
    else if hitMs - w.good <= ms <= hitMs + w.good then Some(Good)
    else if hitMs - w.ok <= ms <= hitMs + w.ok then Some(Ok)
    else if hitMs - w.bad <= ms <= hitMs + w.bad then Some(Bad)
    else None
  }

  /** A hit closer to the note is never judged worse than a farther one. */
  lemma CloserIsNoWorse(ms1: real, ms2: real, hitMs: real, w: Windows)
    requires 0.0 <= w.good <= w.ok <= w.bad
    requires Abs(ms1 - hitMs) <= Abs(ms2 - hitMs)
    requires Judge(ms2, hitMs, w).Some?
    ensures Judge(ms1, hitMs, w).Some?
    ensures Rank(Judge(ms1, hitMs, w).value) <= Rank(Judge(ms2, hitMs, w).value)
  {
  }

  /** Points for an OK: half the base score rounded down to a multiple of
      ten, `10 * floor(base_score / 2 / 10)`. */
  function OkPoints(baseScore: int): (r: int)
    ensures r % 10 == 0
    ensures 2 * r <= baseScore < 2 * r + 20
    ensures baseScore >= 0 ==> r >= 0
  {
    10 * (baseScore / 20)
  }

  // ---------------------------------------------------------------------
  // The soul gauge.

  const GaugeMax: real := 87.0

  /** One row of the gauge table: the clear rate and the OK and BAD
      multipliers of a difficulty and star level. */
  datatype GaugeRow = GaugeRow(clearRate: real, okMultiplier: real, badMultiplier: real)

  function EasyRows(): seq<GaugeRow> {
    [GaugeRow(36.0, 0.75, -0.5), GaugeRow(38.0, 0.75, -0.5), GaugeRow(38.0, 0.75, -0.5),
     GaugeRow(44.0, 0.75, -0.5), GaugeRow(44.0, 0.75, -0.5)]
  }

  function NormalRows(): seq<GaugeRow> {
    [GaugeRow(45.939, 0.75, -0.5), GaugeRow(45.939, 0.75, -0.5), GaugeRow(48.676, 0.75, -0.5),
     GaugeRow(49.232, 0.75, -0.75), GaugeRow(52.5, 0.75, -1.0), GaugeRow(52.5, 0.75, -1.0),
     GaugeRow(52.5, 0.75, -1.0)]
  }

  function HardRows(): seq<GaugeRow> {
    [GaugeRow(54.325, 0.75, -0.75), GaugeRow(54.325, 0.75, -0.75), GaugeRow(50.774, 0.75, -1.0),
     GaugeRow(48.410, 0.75, -1.17), GaugeRow(47.246, 0.75, -1.25), GaugeRow(48.120, 0.75, -1.25),
     GaugeRow(48.120, 0.75, -1.25), GaugeRow(48.120, 0.75, -1.25)]
  }

  function OniRows(): seq<GaugeRow> {
    [GaugeRow(56.603, 0.5, -1.6), GaugeRow(56.603, 0.5, -1.6), GaugeRow(56.603, 0.5, -1.6),
     GaugeRow(56.603, 0.5, -1.6), GaugeRow(56.603, 0.5, -1.6), GaugeRow(56.603, 0.5, -1.6),
     GaugeRow(56.603, 0.5, -1.6), GaugeRow(56.0, 0.5, -2.0), GaugeRow(61.428, 0.5, -2.0),
     GaugeRow(61.428, 0.5, -2.0)]
  }

  /** Python's index into a four-entry per-difficulty list: -1 to -4
      count from the end, and anything outside -4 to 3 is out of range. */
  function DifficultySlot(difficulty: int): (i: int)
    ensures -4 <= difficulty <= 3 <==> 0 <= i < 4
    ensures 0 <= difficulty ==> i == difficulty
  {
    if difficulty < 0 then difficulty + 4 else difficulty
  }

  /** `table[difficulty]`: the rows of EASY, NORMAL, HARD and ONI, with no
      rows where Python raises IndexError. */
  function TableFor(difficulty: int): seq<GaugeRow> {
    var i := DifficultySlot(difficulty);
    if i == 0 then EasyRows()
    else if i == 1 then NormalRows()
    else if i == 2 then HardRows()
    else if i == 3 then OniRows()
    else []
  }

  /** Every row of the table raises the gauge on GOOD and OK and lowers it
      on BAD. */
  predicate RowSigns(row: GaugeRow) {
    row.clearRate > 0.0 && row.okMultiplier > 0.0 && row.badMultiplier < 0.0
  }

  /** `table[difficulty][level - 1]` with Python's indexing: a level of 0
      or below counts from the end of the row list, and an index past
      either end is None, where Python raises IndexError. */
  function RowFor(difficulty: int, level: int): (r: Option<GaugeRow>)
    ensures r.Some? <==> -|TableFor(difficulty)| <= level - 1 < |TableFor(difficulty)|
    ensures r.Some? ==> RowSigns(r.value)
  {
    var rows := TableFor(difficulty);
    var i := level - 1;
    if 0 <= i < |rows| then Some(rows[i])
    else if -|rows| <= i < 0 then Some(rows[|rows| + i])
    else None
  }

  /** The gauge score at which a difficulty clears, before the
      `- 1` the clear test subtracts. */
  function ClearStart(difficulty: int): real {
    var i := DifficultySlot(difficulty);
    if i <= 0 then 52.0 else if i == 1 then 60.0 else 69.0
  }

  datatype Gauge = Gauge(length: real, totalNotes: int, difficulty: int, level: int, isClear: bool, isRainbow: bool)

  /** A new gauge: empty, with the difficulty capped at ONI and the level
      at 10. */
  function NewGauge(difficulty: int, level: int, totalNotes: int): (g: Gauge)
    ensures g.length == 0.0 && !g.isClear && !g.isRainbow
    ensures g.difficulty <= 3 && g.level <= 10
    ensures difficulty <= 3 ==> g.difficulty == difficulty
    ensures level <= 10 ==> g.level == level
  {
    Gauge(0.0, totalNotes, Min(3, difficulty), Min(10, level), false, false)
  }

  /** A gauge the add operations can work on: Python would divide by zero
      or index past the table otherwise. */
  predicate Usable(g: Gauge) {
    g.totalNotes > 0 && RowFor(g.difficulty, g.level).Some?
  }

  predicate InRange(g: Gauge) {
    0.0 <= g.length <= GaugeMax
  }

  /** The gauge points one GOOD is worth. */
  function Step(g: Gauge): (r: real)
    requires Usable(g)
    ensures r > 0.0
  {
    var row := RowFor(g.difficulty, g.level).value;
    (1.0 / g.totalNotes as real) * (100.0 * (ClearStart(g.difficulty) / row.clearRate))
  }

  function AddGood(g: Gauge): (r: Gauge)
    requires Usable(g)
    ensures Usable(r) && r.totalNotes == g.totalNotes
    ensures r.length <= GaugeMax
    ensures g.length <= GaugeMax ==> g.length <= r.length
    ensures r.length < GaugeMax ==> r.length == g.length + Step(g)
    ensures InRange(g) ==> InRange(r)
  {
    var length := g.length + Step(g);
    g.(length := if length > GaugeMax then GaugeMax else length)
  }

  /** The gauge change an OK or BAD makes: its multiplier times the GOOD
      step. The source writes it as `(multiplier / total_notes) * (100 *
      (clear_start / clear_rate))`, the same real number. */
  function Scaled(g: Gauge, multiplier: real): (r: real)
    requires Usable(g)
    ensures multiplier > 0.0 ==> r > 0.0
    ensures multiplier < 0.0 ==> r < 0.0
  {
    multiplier * Step(g)
  }

  function AddOk(g: Gauge): (r: Gauge)
    requires Usable(g)
    ensures Usable(r) && r.totalNotes == g.totalNotes
    ensures r.length <= GaugeMax
    ensures g.length <= GaugeMax ==> g.length <= r.length
    ensures r.length < GaugeMax ==> r.length == g.length + Scaled(g, RowFor(g.difficulty, g.level).value.okMultiplier)
    ensures InRange(g) ==> InRange(r)
  {
    var length := g.length + Scaled(g, RowFor(g.difficulty, g.level).value.okMultiplier);
    g.(length := if length > GaugeMax then GaugeMax else length)
  }

  function AddBad(g: Gauge): (r: Gauge)
    requires Usable(g)
    ensures Usable(r) && r.totalNotes == g.totalNotes
    ensures r.length >= 0.0
    ensures g.length >= 0.0 ==> r.length <= g.length
    ensures r.length > 0.0 ==> r.length == g.length + Scaled(g, RowFor(g.difficulty, g.level).value.badMultiplier)
    ensures InRange(g) ==> InRange(r)
  {
    var length := g.length + Scaled(g, RowFor(g.difficulty, g.level).value.badMultiplier);
    g.(length := if length < 0.0 then 0.0 else length)
  }

  /** `Gauge.update`: clear above the clear start less one (the ONI start
      is the HARD one), rainbow exactly at the maximum. */
  function UpdateGauge(g: Gauge): (r: Gauge)
    ensures r.length == g.length
    ensures r.isClear <==> g.length > ClearStart(Min(g.difficulty, 2)) - 1.0
    ensures r.isRainbow <==> g.length == GaugeMax
  {
    g.(isClear := g.length > ClearStart(Min(g.difficulty, 2)) - 1.0, isRainbow := g.length == GaugeMax)
  }

  /** A full gauge is clear on every difficulty. */
  lemma RainbowIsClear(g: Gauge)
    ensures UpdateGauge(g).isRainbow ==> UpdateGauge(g).isClear
  {
  }

  // ---------------------------------------------------------------------
  // The player's judgement state.

  /** Score, judgement counters and combos. */
  datatype Counters = Counters(score: int, good: nat, ok: nat, bad: nat, combo: nat, maxCombo: nat, totalDrumroll: nat)

  /** The notes still to be hit: don notes, kat notes and everything else
      (rolls, balloons and their tails), each in hit order. */
  datatype Queues = Queues(dons: seq<Tja.Note>, kats: seq<Tja.Note>, others: seq<Tja.Note>)

  /** Whether a drumroll or balloon is being played, and its hit count. */
  datatype Roll = Roll(isDrumroll: bool, isBalloon: bool, currDrumroll: nat, currBalloon: nat)

  /** The branch condition being counted: accuracy (`'p'`), drumroll hits
      (`'r'`) or something else. */
  datatype Branch = Branch(isBranch: bool, condition: char, count: real)

  /** What one player keeps while a song plays. */
  datatype Player = Player(c: Counters, q: Queues, roll: Roll, branch: Branch, baseScore: int, difficulty: int, gauge: Option<Gauge>)

  predicate IsDonType(t: int) { t == Don || t == DonBig }
  predicate IsKatType(t: int) { t == Kat || t == KatBig }

  /** The gauge, when there is one, can take judgements. */
  predicate GaugeUsable(p: Player) {
    p.gauge.Some? ==> Usable(p.gauge.value)
  }

  /** What every step keeps: the combo never passes the best combo and the
      gauge stays between empty and full. */
  predicate Sound(p: Player) {
    p.c.combo <= p.c.maxCombo && (p.gauge.Some? ==> InRange(p.gauge.value))
  }

  predicate IsSuffix<T(==)>(s: seq<T>, t: seq<T>) {
    |s| <= |t| && s == t[|t| - |s|..]
  }

  /** The queues only lose notes at their fronts. */
  predicate Shrinks(q: Queues, r: Queues) {
    IsSuffix(r.dons, q.dons) && IsSuffix(r.kats, q.kats) && IsSuffix(r.others, q.others)
  }

  /** Score, judgement counts, best combo and drumroll total never go down. */
  predicate Grows(c: Counters, r: Counters) {
    c.score <= r.score && c.good <= r.good && c.ok <= r.ok && c.bad <= r.bad
    && c.maxCombo <= r.maxCombo && c.totalDrumroll <= r.totalDrumroll
  }

  /** `r` follows `p` in a song: the counters grow, the queues shrink and
      the fixed settings stay. */
  predicate Advances(p: Player, r: Player) {
    Grows(p.c, r.c) && Shrinks(p.q, r.q)
    && r.baseScore == p.baseScore && r.difficulty == p.difficulty
    && r.branch.isBranch == p.branch.isBranch && r.branch.condition == p.branch.condition
    && r.gauge.Some? == p.gauge.Some?
  }

  function Size(q: Queues): nat {
    |q.dons| + |q.kats| + |q.others|
  }

  function GaugeGood(g: Option<Gauge>): (r: Option<Gauge>)
    requires g.Some? ==> Usable(g.value)
    ensures r.Some? == g.Some? && (r.Some? ==> Usable(r.value))
    ensures g.Some? && InRange(g.value) ==> InRange(r.value)
  {
    if g.Some? then Some(AddGood(g.value)) else None
  }

  function GaugeOk(g: Option<Gauge>): (r: Option<Gauge>)
    requires g.Some? ==> Usable(g.value)
    ensures r.Some? == g.Some? && (r.Some? ==> Usable(r.value))
    ensures g.Some? && InRange(g.value) ==> InRange(r.value)
  {
    if g.Some? then Some(AddOk(g.value)) else None
  }

  function GaugeBad(g: Option<Gauge>): (r: Option<Gauge>)
    requires g.Some? ==> Usable(g.value)
    ensures r.Some? == g.Some? && (r.Some? ==> Usable(r.value))
    ensures g.Some? && InRange(g.value) ==> InRange(r.value)
  {
    if g.Some? then Some(AddBad(g.value)) else None
  }

  /** The branch counter after an event of a kind: it moves only while a
      branch section counts that kind. */
  function Counted(b: Branch, kind: char, amount: real): (r: Branch)
    ensures r.isBranch == b.isBranch && r.condition == b.condition
    ensures r.count == if b.isBranch && b.condition == kind then b.count + amount else b.count
  {
    if b.isBranch && b.condition == kind then b.(count := b.count + amount) else b
  }

  /** The queue part of `note_correct`: the note leaves the front of its
      queue when it is there (notes compare by hit time), and a balloon
      also takes the next other note, its tail, with it. */
  function PopNote(q: Queues, note: Tja.Note): (r: Queues)
    ensures Shrinks(q, r)
    ensures Size(q) - 2 <= Size(r) <= Size(q)
    ensures note.noteType != BalloonHead ==> Size(q) - 1 <= Size(r)
    ensures IsDonType(note.noteType) && |q.dons| > 0 && q.dons[0].hitMs == note.hitMs ==> r.dons == q.dons[1..]
    ensures IsKatType(note.noteType) && |q.kats| > 0 && q.kats[0].hitMs == note.hitMs ==> r.kats == q.kats[1..]
    ensures !IsDonType(note.noteType) ==> r.dons == q.dons
    ensures !IsKatType(note.noteType) ==> r.kats == q.kats
  {
    var q1 := PopFront(q, note);
    if note.noteType == BalloonHead && |q1.others| > 0 then
      DropFirstIsSuffix(q1.others);
      SuffixTrans(q.others, q1.others, q1.others[1..]);
      q1.(others := q1.others[1..])
    else q1
  }

  /** The note leaves the front of the queue of its lane when it is
      there. */
  function PopFront(q: Queues, note: Tja.Note): (r: Queues)
    ensures Shrinks(q, r)
    ensures Size(q) - 1 <= Size(r) <= Size(q)
    ensures IsDonType(note.noteType) && |q.dons| > 0 && q.dons[0].hitMs == note.hitMs ==> r.dons == q.dons[1..]
    ensures IsKatType(note.noteType) && |q.kats| > 0 && q.kats[0].hitMs == note.hitMs ==> r.kats == q.kats[1..]
    ensures !IsDonType(note.noteType) ==> r.dons == q.dons
    ensures !IsKatType(note.noteType) ==> r.kats == q.kats
  {
    var t := note.noteType;
    if IsDonType(t) && |q.dons| > 0 && q.dons[0].hitMs == note.hitMs then
      DropFirstIsSuffix(q.dons);
      q.(dons := q.dons[1..])
    else if IsKatType(t) && |q.kats| > 0 && q.kats[0].hitMs == note.hitMs then
      DropFirstIsSuffix(q.kats);
      q.(kats := q.kats[1..])
    else if !IsDonType(t) && !IsKatType(t) && |q.others| > 0 && q.others[0].hitMs == note.hitMs then
      DropFirstIsSuffix(q.others);
      q.(others := q.others[1..])
    else q
  }

  lemma DropFirstIsSuffix(s: seq<Tja.Note>)
    requires |s| > 0
    ensures IsSuffix(s[1..], s)
  {
  }

  /** The combo part of `note_correct`: notes below type 7 extend the
      combo, and the best combo follows it. */
  function ComboAfter(c: Counters, note: Tja.Note): (r: Counters)
    ensures note.noteType < 7 ==> r.combo == c.combo + 1 && r.maxCombo == Max(c.maxCombo, r.combo)
    ensures note.noteType >= 7 ==> r == c
    ensures c.combo <= c.maxCombo ==> r.combo <= r.maxCombo
    ensures Grows(c, r)
    ensures r.score == c.score && r.good == c.good && r.ok == c.ok && r.bad == c.bad
  {
    if note.noteType < 7 then
      var combo := c.combo + 1;
      c.(combo := combo, maxCombo := Max(c.maxCombo, combo))
    else c
  }

  /** `note_correct`: the note leaves the front of its lane, a note below
      type 7 adds one to the combo and may raise the best combo, and
      nothing else about the player changes. */
  function NoteCorrect(p: Player, note: Tja.Note): (r: Player)
    ensures r == p.(q := r.q, c := r.c)
    ensures IsDonType(note.noteType) && |p.q.dons| > 0 && p.q.dons[0].hitMs == note.hitMs ==> r.q.dons == p.q.dons[1..]
    ensures IsKatType(note.noteType) && |p.q.kats| > 0 && p.q.kats[0].hitMs == note.hitMs ==> r.q.kats == p.q.kats[1..]
    ensures !IsDonType(note.noteType) ==> r.q.dons == p.q.dons
    ensures !IsKatType(note.noteType) ==> r.q.kats == p.q.kats
    ensures note.noteType < 7 ==> r.c.combo == p.c.combo + 1 && r.c.maxCombo == Max(p.c.maxCombo, r.c.combo)
    ensures note.noteType >= 7 ==> r.c == p.c
    ensures r.c.score == p.c.score && r.c.good == p.c.good && r.c.ok == p.c.ok && r.c.bad == p.c.bad
    ensures Sound(p) ==> Sound(r)
    ensures Advances(p, r)
  {
    p.(q := PopNote(p.q, note), c := ComboAfter(p.c, note))
  }

  /** `check_drumroll`: 100 points and one more drumroll hit, counted for
      a drumroll branch condition. */
  function CheckDrumroll(p: Player): (r: Player)
    ensures r.c.score == p.c.score + 100 && r.c.totalDrumroll == p.c.totalDrumroll + 1
    ensures r.roll.currDrumroll == p.roll.currDrumroll + 1
    ensures r.branch == Counted(p.branch, 'r', 1.0)
    ensures r.q == p.q && r.gauge == p.gauge && r.c.combo == p.c.combo && r.c.good == p.c.good
    ensures Sound(p) ==> Sound(r)
    ensures Advances(p, r)
  {
    p.(roll := p.roll.(currDrumroll := p.roll.currDrumroll + 1),
       c := p.c.(totalDrumroll := p.c.totalDrumroll + 1, score := p.c.score + 100),
       branch := Counted(p.branch, 'r', 1.0))
  }

  /** `check_balloon` and `check_kusudama`: only DON hits count; each is
      worth 100 points, and the hit that reaches the balloon's count pops
      it, leaving balloon mode and resetting the hit counter. A popped
      balloon (not a kusudama) is also taken as a correct note. */
  function CheckBalloon(p: Player, drum: Drum, note: Tja.Note): (r: Player)
    requires note.kind.Balloon?
    ensures drum == KatDrum ==> r == p
    ensures drum == DonDrum ==> r.c.score == p.c.score + 100 && r.c.totalDrumroll == p.c.totalDrumroll + 1
    ensures drum == DonDrum && p.roll.currBalloon + 1 == note.kind.count ==> !r.roll.isBalloon && r.roll.currBalloon == 0
    ensures drum == DonDrum && p.roll.currBalloon + 1 != note.kind.count ==> r.roll == p.roll.(currBalloon := p.roll.currBalloon + 1)
    ensures r.c.good == p.c.good && r.c.ok == p.c.ok && r.c.bad == p.c.bad
    ensures note.noteType >= 7 ==> r.c.combo == p.c.combo
    ensures Sound(p) ==> Sound(r)
    ensures Advances(p, r)
  {
    if drum == KatDrum then p
    else
      var hit := p.(roll := p.roll.(currBalloon := p.roll.currBalloon + 1),
                    c := p.c.(totalDrumroll := p.c.totalDrumroll + 1, score := p.c.score + 100));
      if hit.roll.currBalloon == note.kind.count then
        var popped := if note.kind.kusudama then hit else NoteCorrect(hit, note);
        popped.(roll := popped.roll.(isBalloon := false, currBalloon := 0))
      else hit
  }

  /** The balloon state after one DON hit, as far as popping goes. */
  lemma BalloonHit(prev: Player, note: Tja.Note)
    requires note.kind.Balloon? && prev.roll.isBalloon
    ensures var r := CheckBalloon(prev, DonDrum, note);
            && r.c.score == prev.c.score + 100
            && (prev.roll.currBalloon + 1 < note.kind.count ==> r.roll.isBalloon && r.roll.currBalloon == prev.roll.currBalloon + 1)
            && (prev.roll.currBalloon + 1 == note.kind.count ==> !r.roll.isBalloon && r.roll.currBalloon == 0)
  {
  }

  /** `k` DON hits on the same balloon in a row, from a balloon entered
      with no hits: it stays up for count - 1 hits and pops on hit number
      count; every hit is worth 100 points. */
  function DonHits(p: Player, note: Tja.Note, k: nat): (r: Player)
    requires note.kind.Balloon? && p.roll.isBalloon && p.roll.currBalloon == 0
    requires k <= note.kind.count
    ensures k < note.kind.count ==> r.roll.isBalloon && r.roll.currBalloon == k
    ensures k == note.kind.count && k > 0 ==> !r.roll.isBalloon && r.roll.currBalloon == 0
    ensures r.c.score == p.c.score + 100 * k
  {
    if k == 0 then p
    else
      var prev := DonHits(p, note, k - 1);
      BalloonHit(prev, note);
      CheckBalloon(prev, DonDrum, note)
  }

  /** The effect of a GOOD on the front note. */
  function JudgedGood(p: Player, note: Tja.Note): (r: Player)
    requires GaugeUsable(p)
    ensures GaugeUsable(r)
    ensures r.c.good == p.c.good + 1 && r.c.ok == p.c.ok && r.c.bad == p.c.bad
    ensures r.c.score == p.c.score + p.baseScore
    ensures r.c.combo == if note.noteType < 7 then p.c.combo + 1 else p.c.combo
    ensures r.branch == Counted(p.branch, 'p', 1.0)
    ensures Sound(p) ==> Sound(r)
    ensures p.baseScore >= 0 ==> Advances(p, r)
  {
    var q := NoteCorrect(p.(c := p.c.(good := p.c.good + 1, score := p.c.score + p.baseScore)), note);
    q.(gauge := GaugeGood(q.gauge), branch := Counted(q.branch, 'p', 1.0))
  }

  /** The effect of an OK on the front note. */
  function JudgedOk(p: Player, note: Tja.Note): (r: Player)
    requires GaugeUsable(p)
    ensures GaugeUsable(r)
    ensures r.c.ok == p.c.ok + 1 && r.c.good == p.c.good && r.c.bad == p.c.bad
    ensures r.c.score == p.c.score + OkPoints(p.baseScore)
    ensures r.c.combo == if note.noteType < 7 then p.c.combo + 1 else p.c.combo
    ensures r.branch == Counted(p.branch, 'p', 0.5)
    ensures Sound(p) ==> Sound(r)
    ensures p.baseScore >= 0 ==> Advances(p, r)
  {
    var q := NoteCorrect(p.(c := p.c.(ok := p.c.ok + 1, score := p.c.score + OkPoints(p.baseScore))), note);
    q.(gauge := GaugeOk(q.gauge), branch := Counted(q.branch, 'p', 0.5))
  }

  /** The effect of a BAD on the front note of the drum's queue: the combo
      breaks and the note is dropped, with no points. */
  function JudgedBad(p: Player, drum: Drum): (r: Player)
    requires GaugeUsable(p)
    ensures GaugeUsable(r)
    ensures r.c == p.c.(bad := p.c.bad + 1, combo := 0)
    ensures drum == DonDrum && |p.q.dons| > 0 ==> r.q == p.q.(dons := p.q.dons[1..])
    ensures drum == KatDrum && |p.q.kats| > 0 ==> r.q == p.q.(kats := p.q.kats[1..])
    ensures r.branch == p.branch
    ensures Sound(p) ==> Sound(r)
    ensures Advances(p, r)
  {
    var q := p.q;
    var q1 := if drum == DonDrum then q.(dons := if |q.dons| > 0 then q.dons[1..] else q.dons)
              else q.(kats := if |q.kats| > 0 then q.kats[1..] else q.kats);
    p.(c := p.c.(bad := p.c.bad + 1, combo := 0), q := q1, gauge := GaugeBad(p.gauge))
  }

  /** The judged part of `check_note`: the drumroll counter resets, and a
      hit on the front note of the drum's queue is judged when it is within
      the bad window. */
  function JudgeFront(p: Player, ms: real, drum: Drum): (r: Player)
    requires GaugeUsable(p)
    ensures GaugeUsable(r)
    ensures Sound(p) ==> Sound(r)
    ensures p.baseScore >= 0 ==> Advances(p, r)
    ensures r.c.good + r.c.ok + r.c.bad <= p.c.good + p.c.ok + p.c.bad + 1
  {
    var p1 := p.(roll := p.roll.(currDrumroll := 0));
    var queue := if drum == DonDrum then p1.q.dons else p1.q.kats;
    if |queue| == 0 then p1
    else
      var note := queue[0];
      match Judge(ms, note.hitMs, WindowsFor(p.difficulty))
      case None => p1
      case Some(Good) => JudgedGood(p1, note)
      case Some(Ok) => JudgedOk(p1, note)
      case Some(Bad) => JudgedBad(p1, drum)
  }

  /** `check_note`: a hit while a drumroll is active counts for the roll,
      while a balloon is active for the balloon (None where Python raises
      because the front note is not a balloon), and otherwise is judged
      against the front note of the drum's queue. */
  function CheckNote(p: Player, ms: real, drum: Drum): (r: Option<Player>)
    requires GaugeUsable(p)
    ensures r.Some? ==> GaugeUsable(r.value)
    ensures Size(p.q) == 0 ==> r == Some(p)
    ensures r.None? <==> Size(p.q) > 0 && !p.roll.isDrumroll && p.roll.isBalloon
                          && (|p.q.others| == 0 || !p.q.others[0].kind.Balloon?)
    ensures r.Some? && Sound(p) ==> Sound(r.value)
  {
    if Size(p.q) == 0 then Some(p)
    else if p.roll.isDrumroll then Some(CheckDrumroll(p))
    else if p.roll.isBalloon then
      if |p.q.others| == 0 || !p.q.others[0].kind.Balloon? then None
      else Some(CheckBalloon(p, drum, p.q.others[0]))
    else Some(JudgeFront(p, ms, drum))
  }

  /** A hit never takes the player back, and adds at most one judgement. */
  lemma CheckNoteAdvances(p: Player, ms: real, drum: Drum)
    requires GaugeUsable(p)
    requires CheckNote(p, ms, drum).Some?
    ensures var r := CheckNote(p, ms, drum).value;
      && (p.baseScore >= 0 ==> Advances(p, r))
      && r.c.good + r.c.ok + r.c.bad <= p.c.good + p.c.ok + p.c.bad + 1
  {
  }

  /** How a hit on the front note of a queue is judged, stated through
      `Judge`: the judgement counters move by exactly the judgement, and a
      hit outside the bad window changes nothing but the drumroll counter. */
  lemma CheckNoteJudges(p: Player, ms: real, drum: Drum)
    requires GaugeUsable(p)
    requires !p.roll.isDrumroll && !p.roll.isBalloon
    requires drum == DonDrum ==> |p.q.dons| > 0
    requires drum == KatDrum ==> |p.q.kats| > 0
    ensures var note := if drum == DonDrum then p.q.dons[0] else p.q.kats[0];
            var j := Judge(ms, note.hitMs, WindowsFor(p.difficulty));
            var r := CheckNote(p, ms, drum).value;
            && (j == Some(Good) ==> r.c.good == p.c.good + 1 && r.c.score == p.c.score + p.baseScore)
            && (j == Some(Ok) ==> r.c.ok == p.c.ok + 1 && r.c.score == p.c.score + OkPoints(p.baseScore))
            && (j == Some(Bad) ==> r.c.bad == p.c.bad + 1 && r.c.combo == 0 && r.c.score == p.c.score)
            && (j.None? ==> r == p.(roll := p.roll.(currDrumroll := 0)))
  {
    assert Size(p.q) > 0;
  }

  /** A note of the don or kat queue is overdue once the bad window after
      it has passed. */
  predicate Overdue(queue: seq<Tja.Note>, now: real) {
    |queue| > 0 && queue[0].hitMs + StandardWindows.bad < now
  }

  /** One overdue front note: counted BAD, breaking the combo and taking
      one off an accuracy branch counter. */
  function Miss(p: Player): (r: Player)
    requires GaugeUsable(p)
    ensures GaugeUsable(r)
    ensures r.c == p.c.(bad := p.c.bad + 1, combo := 0)
    ensures r.branch == Counted(p.branch, 'p', -1.0)
    ensures r.q == p.q && r.roll == p.roll
    ensures Sound(p) ==> Sound(r)
  {
    p.(c := p.c.(combo := 0, bad := p.c.bad + 1), gauge := GaugeBad(p.gauge), branch := Counted(p.branch, 'p', -1.0))
  }

  /** The first half of `play_note_manager`: at most one overdue don and
      one overdue kat are counted BAD and dropped. */
  function MissOverdue(p: Player, now: real): (r: Player)
    requires GaugeUsable(p)
    ensures GaugeUsable(r)
    ensures r.c.bad == p.c.bad + (if Overdue(p.q.dons, now) then 1 else 0) + (if Overdue(p.q.kats, now) then 1 else 0)
    ensures r.q.dons == (if Overdue(p.q.dons, now) then p.q.dons[1..] else p.q.dons)
    ensures r.q.kats == (if Overdue(p.q.kats, now) then p.q.kats[1..] else p.q.kats)
    ensures r.q.others == p.q.others && r.roll == p.roll
    ensures Overdue(p.q.dons, now) || Overdue(p.q.kats, now) ==> r.c.combo == 0
    ensures !Overdue(p.q.dons, now) && !Overdue(p.q.kats, now) ==> r == p
    ensures r.c.score == p.c.score && r.c.good == p.c.good && r.c.ok == p.c.ok
    ensures Sound(p) ==> Sound(r)
    ensures Advances(p, r)
  {
    var p1 := if Overdue(p.q.dons, now) then Miss(p).(q := p.q.(dons := p.q.dons[1..])) else p;
    if Overdue(p1.q.kats, now) then Miss(p1).(q := p1.q.(kats := p1.q.kats[1..])) else p1
  }

  /** Leaving a drumroll or balloon: both modes off, both counters zero. */
  function RollEnded(): Roll {
    Roll(false, false, 0, 0)
  }

  /** The second half of `play_note_manager`: a due tail ends the roll and
      leaves the queue; a due roll or balloon head starts its mode, and ends
      it again with its tail once that is due too. None where Python
      indexes a tail that is not there. */
  function StartOrEndRoll(p: Player, now: real): (r: Option<Player>)
    ensures r.None? <==> |p.q.others| == 1 && p.q.others[0].hitMs <= now && p.q.others[0].noteType != Tail
    ensures r.Some? ==> r.value.c == p.c && r.value.gauge == p.gauge && r.value.branch == p.branch
    ensures r.Some? ==> r.value.q.dons == p.q.dons && r.value.q.kats == p.q.kats
    ensures r.Some? ==> IsSuffix(r.value.q.others, p.q.others) && |p.q.others| - 2 <= |r.value.q.others|
    ensures r.Some? ==> Advances(p, r.value)
    ensures |p.q.others| > 0 && p.q.others[0].hitMs <= now && p.q.others[0].noteType == Tail
            ==> r == Some(p.(q := p.q.(others := p.q.others[1..]), roll := RollEnded()))
    ensures |p.q.others| > 0 && p.q.others[0].hitMs <= now && r.Some? && r.value.q.others == p.q.others ==>
              && (p.q.others[0].noteType in {RollHead, RollHeadBig} ==> r.value.roll.isDrumroll)
              && (p.q.others[0].noteType in {BalloonHead, Kusudama} ==> r.value.roll.isBalloon)
  {
    if |p.q.others| == 0 then Some(p)
    else
      var note := p.q.others[0];
      if note.hitMs > now then Some(p)
      else if note.noteType == Tail then
        Some(p.(q := p.q.(others := p.q.others[1..]), roll := RollEnded()))
      else
        var roll :=
          if note.noteType == RollHead || note.noteType == RollHeadBig then p.roll.(isDrumroll := true)
          else if note.noteType == BalloonHead || note.noteType == Kusudama then p.roll.(isBalloon := true)
          else p.roll;
        if |p.q.others| < 2 then None
        else if p.q.others[1].hitMs <= now then
          Some(p.(q := p.q.(others := p.q.others[2..]), roll := RollEnded()))
        else Some(p.(roll := roll))
  }

  lemma SuffixTrans(a: seq<Tja.Note>, b: seq<Tja.Note>, c: seq<Tja.Note>)
    requires IsSuffix(b, a) && IsSuffix(c, b)
    ensures IsSuffix(c, a)
  {
    assert a[|a| - |b|..][|b| - |c|..] == a[|a| - |c|..];
  }

  lemma AdvancesTrans(a: Player, b: Player, c: Player)
    requires Advances(a, b) && Advances(b, c)
    ensures Advances(a, c)
  {
    SuffixTrans(a.q.dons, b.q.dons, c.q.dons);
    SuffixTrans(a.q.kats, b.q.kats, c.q.kats);
    SuffixTrans(a.q.others, b.q.others, c.q.others);
  }

  /** `play_note_manager`. */
  function PlayNoteManager(p: Player, now: real): (r: Option<Player>)
    requires GaugeUsable(p)
    ensures r.Some? ==> GaugeUsable(r.value)
    ensures r == StartOrEndRoll(MissOverdue(p, now), now)
    ensures r.Some? ==> r.value.c.bad <= p.c.bad + 2
    ensures r.Some? && Sound(p) ==> Sound(r.value)
    ensures r.Some? ==> Advances(p, r.value)
  {
    var missed := MissOverdue(p, now);
    var r := StartOrEndRoll(missed, now);
    if r.Some? then AdvancesTrans(p, missed, r.value); r else r
  }

  // ---------------------------------------------------------------------
  // Branches: `evaluate_branch` and `merge_branch_section`.

  /** Python's stable `sorted` on notes (which compare by hit time), as
      insertion: `x` goes after every note not later than it. */
  function InsertByHit(s: seq<Tja.Note>, x: Tja.Note): (r: seq<Tja.Note>)
    ensures multiset(r) == multiset(s) + multiset{x}
    ensures |r| == |s| + 1
    ensures Tja.SortedByHit(s) ==> Tja.SortedByHit(r)
  {
    if |s| == 0 then [x]
    else if x.hitMs < s[|s| - 1].hitMs then
      var front := InsertByHit(s[..|s| - 1], x);
      assert s == s[..|s| - 1] + [s[|s| - 1]];
      InsertSortedLast(s, x, front);
      front + [s[|s| - 1]]
    else
      s + [x]
  }

  /** Putting the last note back after the insertion into the rest keeps
      a sorted list sorted. */
  lemma InsertSortedLast(s: seq<Tja.Note>, x: Tja.Note, front: seq<Tja.Note>)
    requires |s| > 0 && x.hitMs < s[|s| - 1].hitMs
    requires multiset(front) == multiset(s[..|s| - 1]) + multiset{x}
    requires Tja.SortedByHit(s) ==> Tja.SortedByHit(front)
    ensures Tja.SortedByHit(s) ==> Tja.SortedByHit(front + [s[|s| - 1]])
  {
    if Tja.SortedByHit(s) {
      var last := s[|s| - 1];
      forall i | 0 <= i < |front| ensures front[i].hitMs <= last.hitMs {
        assert front[i] in multiset(front);
        if front[i] in multiset(s[..|s| - 1]) {
          var k :| 0 <= k < |s| - 1 && s[..|s| - 1][k] == front[i];
        }
      }
    }
  }

  function SortByHit(s: seq<Tja.Note>): (r: seq<Tja.Note>)
    ensures multiset(r) == multiset(s)
    ensures |r| == |s|
    ensures Tja.SortedByHit(r)
  {
    if |s| == 0 then []
    else
      assert s == s[..|s| - 1] + [s[|s| - 1]];
      InsertByHit(SortByHit(s[..|s| - 1]), s[|s| - 1])
  }

  /** The notes hit at time `h`, in order. */
  function AtTime(s: seq<Tja.Note>, h: real): (r: seq<Tja.Note>)
    ensures forall i :: 0 <= i < |r| ==> r[i].hitMs == h
  {
    if |s| == 0 then []
    else AtTime(s[..|s| - 1], h) + (if s[|s| - 1].hitMs == h then [s[|s| - 1]] else [])
  }

  /** An insertion only passes notes strictly later than the inserted one,
      so the notes at any one time keep their order, the inserted note
      last among them. */
  lemma {:induction false} InsertByHitStable(s: seq<Tja.Note>, x: Tja.Note, h: real)
    ensures AtTime(InsertByHit(s, x), h) == AtTime(s, h) + (if x.hitMs == h then [x] else [])
    decreases |s|
  {
    if |s| > 0 && x.hitMs < s[|s| - 1].hitMs {
      var init, last := s[..|s| - 1], s[|s| - 1];
      InsertByHitStable(init, x, h);
      InsertPasses(s, x);
      PassLaterNote(s, x, h, InsertByHit(init, x));
    } else {
      InsertAppends(s, x);
      AtTimeSnoc(s, x, h);
    }
  }

  /** A note earlier than the last one goes in before it. */
  lemma InsertPasses(s: seq<Tja.Note>, x: Tja.Note)
    requires |s| > 0 && x.hitMs < s[|s| - 1].hitMs
    ensures InsertByHit(s, x) == InsertByHit(s[..|s| - 1], x) + [s[|s| - 1]]
  {
  }

  /** A note no earlier than the last one goes at the end. */
  lemma InsertAppends(s: seq<Tja.Note>, x: Tja.Note)
    requires |s| == 0 || x.hitMs >= s[|s| - 1].hitMs
    ensures InsertByHit(s, x) == s + [x]
  {
  }

  /** Passing a note later than `x` keeps the notes at any one time in
      order. */
  lemma PassLaterNote(s: seq<Tja.Note>, x: Tja.Note, h: real, front: seq<Tja.Note>)
    requires |s| > 0 && x.hitMs < s[|s| - 1].hitMs
    requires AtTime(front, h) == AtTime(s[..|s| - 1], h) + (if x.hitMs == h then [x] else [])
    ensures AtTime(front + [s[|s| - 1]], h) == AtTime(s, h) + (if x.hitMs == h then [x] else [])
  {
    var last := s[|s| - 1];
    AtTimeSnoc(front, last, h);
    assert AtTime(s, h) == AtTime(s[..|s| - 1], h) + (if last.hitMs == h then [last] else []);
    if x.hitMs == h {
      assert last.hitMs != h;
    }
  }

  /** One more note at the end adds it at the end when it is at `h`. */
  lemma AtTimeSnoc(s: seq<Tja.Note>, x: Tja.Note, h: real)
    ensures AtTime(s + [x], h) == AtTime(s, h) + (if x.hitMs == h then [x] else [])
  {
    assert (s + [x])[..|s|] == s;
  }

  /** `sorted` is stable: the notes at any one hit time come out in the
      order they went in. */
  lemma {:induction false} SortByHitStable(s: seq<Tja.Note>, h: real)
    ensures AtTime(SortByHit(s), h) == AtTime(s, h)
    decreases |s|
  {
    if |s| > 0 {
      var init := s[..|s| - 1];
      SortByHitStable(init, h);
      InsertByHitStable(SortByHit(init), s[|s| - 1], h);
    }
  }

  /** The lanes the notes are dealt into. */
  datatype Lane = DonLane | KatLane | OtherLane

  predicate InLane(note: Tja.Note, lane: Lane) {
    match lane
    case DonLane => IsDonType(note.noteType)
    case KatLane => IsKatType(note.noteType)
    case OtherLane => !IsDonType(note.noteType) && !IsKatType(note.noteType)
  }

  /** The notes of one lane that are still ahead of `now`, in order. */
  function Ahead(s: seq<Tja.Note>, lane: Lane, now: real): (r: seq<Tja.Note>)
    ensures |r| <= |s|
    ensures forall x :: x in r <==> x in s && InLane(x, lane) && x.hitMs > now
    ensures forall x :: multiset(r)[x] == if InLane(x, lane) && x.hitMs > now then multiset(s)[x] else 0
    ensures Tja.SortedByHit(s) ==> Tja.SortedByHit(r)
  {
    if |s| == 0 then []
    else
      var rest := Ahead(s[1..], lane, now);
      assert multiset(s) == multiset{s[0]} + multiset(s[1..]) by {
        assert s == [s[0]] + s[1..];
      }
      SortedTail(s);
      if InLane(s[0], lane) && s[0].hitMs > now then
        SortedCons(s, rest);
        [s[0]] + rest
      else rest
  }

  /** A lane's queue keeps the notes' order: the queue of two stretches of
      notes is the queue of the first followed by that of the second. */
  lemma {:induction false} AheadDistributes(a: seq<Tja.Note>, b: seq<Tja.Note>, lane: Lane, now: real)
    ensures Ahead(a + b, lane, now) == Ahead(a, lane, now) + Ahead(b, lane, now)
    decreases |a|
  {
    if |a| == 0 {
      assert a + b == b;
    } else {
      assert (a + b)[0] == a[0];
      assert (a + b)[1..] == a[1..] + b;
      AheadDistributes(a[1..], b, lane, now);
    }
  }

  lemma SortedTail(s: seq<Tja.Note>)
    requires |s| > 0
    ensures Tja.SortedByHit(s) ==> Tja.SortedByHit(s[1..])
  {
    if Tja.SortedByHit(s) {
      forall i, j | 0 <= i < j < |s| - 1 ensures s[1..][i].hitMs <= s[1..][j].hitMs {
        assert s[1..][i] == s[i + 1] && s[1..][j] == s[j + 1];
      }
    }
  }

  /** Putting the first note of a sorted list before notes taken from the
      rest of it keeps them sorted. */
  lemma SortedCons(s: seq<Tja.Note>, rest: seq<Tja.Note>)
    requires |s| > 0
    requires forall x :: x in rest ==> x in s[1..]
    requires Tja.SortedByHit(s) ==> Tja.SortedByHit(rest)
    ensures Tja.SortedByHit(s) ==> Tja.SortedByHit([s[0]] + rest)
  {
    if Tja.SortedByHit(s) {
      forall k | 0 <= k < |rest| ensures s[0].hitMs <= rest[k].hitMs {
        assert rest[k] in s[1..];
        var i :| 0 <= i < |s[1..]| && s[1..][i] == rest[k];
        assert s[1 + i] == rest[k];
      }
    }
  }

  /** `merge_branch_section`: the section's play notes join the play
      notes, which are sorted again, and each lane's queue becomes the
      notes of that lane still ahead. */
  function MergeSection(playNotes: seq<Tja.Note>, section: seq<Tja.Note>, now: real): (r: (seq<Tja.Note>, Queues))
    ensures multiset(r.0) == multiset(playNotes) + multiset(section)
    ensures Tja.SortedByHit(r.0)
    ensures r.1 == Queues(Ahead(r.0, DonLane, now), Ahead(r.0, KatLane, now), Ahead(r.0, OtherLane, now))
    ensures Tja.SortedByHit(r.1.dons) && Tja.SortedByHit(r.1.kats) && Tja.SortedByHit(r.1.others)
  {
    var all := SortByHit(playNotes + section);
    (all, Queues(Ahead(all, DonLane, now), Ahead(all, KatLane, now), Ahead(all, OtherLane, now)))
  }

  datatype Level = Normal | Expert | Master

  /** The sections still to come on each branch path. */
  datatype Sections = Sections(normal: seq<seq<Tja.Note>>, expert: seq<seq<Tja.Note>>, master: seq<seq<Tja.Note>>)

  /** `curr_branch_reqs`: the expert and master thresholds, the time the
      condition is decided at, and the note count a percentage is over. */
  datatype BranchReqs = BranchReqs(expertReq: real, masterReq: real, endTime: real, totalNotes: real)

  /** The level a condition value chooses. */
  function ChosenLevel(count: real, reqs: BranchReqs): (l: Level)
    ensures l == Master <==> count >= reqs.masterReq && !(count >= reqs.expertReq && count < reqs.masterReq)
    ensures l == Expert <==> reqs.expertReq <= count < reqs.masterReq
    ensures l == Normal <==> count < reqs.expertReq && count < reqs.masterReq
  {
    if count >= reqs.expertReq && count < reqs.masterReq then Expert
    else if count >= reqs.masterReq then Master
    else Normal
  }

  function PathOf(s: Sections, l: Level): seq<seq<Tja.Note>> {
    match l
    case Normal => s.normal
    case Expert => s.expert
    case Master => s.master
  }

  function DropHead(path: seq<seq<Tja.Note>>): seq<seq<Tja.Note>> {
    if |path| > 0 then path[1..] else path
  }

  /** The value the condition is decided on: an accuracy count becomes a
      percentage of the section's notes, clamped to [0, 100]. */
  function DecidedCount(b: Branch, reqs: BranchReqs): (c: real)
    requires reqs.totalNotes != 0.0
    ensures b.condition == 'p' ==> 0.0 <= c <= 100.0
    ensures b.condition == 'p' && 0.0 <= b.count / reqs.totalNotes * 100.0 <= 100.0 ==> c == b.count / reqs.totalNotes * 100.0
    ensures b.condition != 'p' ==> c == b.count
  {
    if b.condition == 'p' then MaxReal(MinReal((b.count / reqs.totalNotes) * 100.0, 100.0), 0.0) else b.count
  }

  /** The sections left after a decision: the chosen path loses the
      section being merged, and every other path that has sections left
      loses its first one too. */
  function NextSections(s: Sections, l: Level): (r: Sections)
    requires |PathOf(s, l)| > 0
    ensures PathOf(r, l) == PathOf(s, l)[1..]
    ensures forall other: Level :: other != l ==> PathOf(r, other) == DropHead(PathOf(s, other))
  {
    Sections(
      if l == Normal then s.normal[1..] else DropHead(s.normal),
      if l == Expert then s.expert[1..] else DropHead(s.expert),
      if l == Master then s.master[1..] else DropHead(s.master))
  }

  /** The outcome of deciding a branch. */
  datatype Decided = Decided(p: Player, playNotes: seq<Tja.Note>, sections: Sections, level: Level)

  /** `evaluate_branch`: before the decision time nothing happens; at it
      the condition picks master, expert or normal, the first section of
      that path is merged in and the first sections of the other paths are
      dropped, and the condition counter restarts. None where Python pops
      an empty path. */
  function EvaluateBranch(p: Player, playNotes: seq<Tja.Note>, s: Sections, reqs: BranchReqs, now: real): (r: Option<Decided>)
    requires reqs.totalNotes != 0.0
    ensures now < reqs.endTime ==> r == Some(Decided(p, playNotes, s, Normal))
    ensures now >= reqs.endTime ==> (r.None? <==> |PathOf(s, ChosenLevel(DecidedCount(p.branch, reqs), reqs))| == 0)
    ensures now >= reqs.endTime && r.Some? ==>
              var l := ChosenLevel(DecidedCount(p.branch, reqs), reqs);
              var merged := MergeSection(playNotes, PathOf(s, l)[0], now);
              && r.value.level == l
              && r.value.sections == NextSections(s, l)
              && r.value.playNotes == merged.0
              && r.value.p == p.(q := merged.1, branch := p.branch.(isBranch := false, count := 0.0))
  {
    if now < reqs.endTime then Some(Decided(p, playNotes, s, Normal))
    else
      var l := ChosenLevel(DecidedCount(p.branch, reqs), reqs);
      var path := PathOf(s, l);
      if |path| == 0 then None
      else
        var merged := MergeSection(playNotes, path[0], now);
        var p1 := p.(q := merged.1, branch := p.branch.(isBranch := false, count := 0.0));
        Some(Decided(p1, merged.0, NextSections(s, l), l))
  }

  /** The three levels are decided by disjoint ranges that cover every
      value: master from the master threshold, expert between the
      thresholds, normal below both. With the expert threshold not above
      the master one, a higher value never picks a lower level. */
  lemma ChosenLevelMonotone(c1: real, c2: real, reqs: BranchReqs)
    requires reqs.expertReq <= reqs.masterReq
    requires c1 <= c2
    ensures LevelRank(ChosenLevel(c1, reqs)) <= LevelRank(ChosenLevel(c2, reqs))
  {
  }

  function LevelRank(l: Level): nat {
    match l
    case Normal => 0
    case Expert => 1
    case Master => 2
  }

  // ---------------------------------------------------------------------
  // `write_score`: what the score table keeps for a chart.

  const CrownNone: int := 0
  const CrownClear: int := 1
  const CrownFc: int := 2
  const CrownDfc: int := 3

  /** The crown `write_score` computes, as written: a play with BADs and no
      OKs is taken as a donderful combo, and a play without BADs as a full
      combo; otherwise a clear gauge gives a clear crown. */
  function CrownOnWrite(bad: nat, ok: nat, gaugeClear: bool): (crown: int)
    ensures bad > 0 && ok == 0 <==> crown == CrownDfc
    ensures bad == 0 <==> crown == CrownFc
    ensures crown == CrownClear <==> bad > 0 && ok > 0 && gaugeClear
    ensures crown == CrownNone <==> bad > 0 && ok > 0 && !gaugeClear
  {
    if bad != 0 && ok == 0 then CrownDfc
    else if bad == 0 then CrownFc
    else if gaugeClear then CrownClear
    else CrownNone
  }

  /** A stored row of the score table, as far as this rule reads it: the
      score and the crown (`clear`) columns, either of which may be NULL. */
  datatype Row = Row(score: Option<int>, crown: Option<int>)

  /** The crown the rule compares against: a missing or NULL crown reads
      as none. */
  function StoredCrown(row: Option<Row>): int {
    if row.Some? && row.value.crown.Some? then row.value.crown.value else CrownNone
  }

  /** The score is rewritten when the chart has no row yet, or when the
      new score is strictly above a stored one. */
  predicate ScoreWins(row: Option<Row>, newScore: int) {
    row.None? || (row.value.score.Some? && newScore > row.value.score.value)
  }

  /** The crown is rewritten when the chart has no row yet, or when the new
      crown is strictly above the stored one. */
  predicate CrownWins(row: Option<Row>, crown: int) {
    row.None? || crown > StoredCrown(row)
  }

  /** The row `write_score` leaves, as written: under autoplay nothing is
      written; a winning score replaces the whole row, its crown column
      included, and a winning crown is then written over it. */
  function WriteScoreAsWritten(auto: bool, row: Option<Row>, newScore: int, crown: int): (r: Option<Row>)
    ensures auto ==> r == row
    ensures !auto && ScoreWins(row, newScore) ==> r == Some(Row(Some(newScore), Some(crown)))
    ensures !auto && !ScoreWins(row, newScore) && CrownWins(row, crown) ==> r == Some(row.value.(crown := Some(crown)))
    ensures !auto && !ScoreWins(row, newScore) && !CrownWins(row, crown) ==> r == row
  {
    if auto then row
    else
      var replaced := if ScoreWins(row, newScore) then Some(Row(Some(newScore), Some(crown))) else row;
      if CrownWins(row, crown) then Some(replaced.value.(crown := Some(crown))) else replaced
  }

  /** As written, a better score with a lesser crown lowers the stored
      crown: the replacing row carries the new crown, and the crown update
      that follows only ever raises it. */
  lemma CrownCanDrop()
    ensures var before := Some(Row(Some(500000), Some(CrownFc)));
            var after := WriteScoreAsWritten(false, before, 600000, CrownClear);
            StoredCrown(after) == CrownClear && StoredCrown(before) == CrownFc
  {
  }

  /** The row `write_score` evidently means to leave: the better score and
      the better crown of the stored row and the new play. */
  function WriteScore(auto: bool, row: Option<Row>, newScore: int, crown: int): (r: Option<Row>)
    ensures auto ==> r == row
    ensures !auto ==> r.Some?
    ensures !auto && ScoreWins(row, newScore) ==> r.value.score == Some(newScore)
    ensures !auto && !ScoreWins(row, newScore) ==> r.value.score == row.value.score
    ensures !auto ==> r.value.crown == Some(if CrownWins(row, crown) then crown else StoredCrown(row))
  {
    if auto then row
    else
      var best := if CrownWins(row, crown) then crown else StoredCrown(row);
      if ScoreWins(row, newScore) then Some(Row(Some(newScore), Some(best)))
      else Some(row.value.(crown := Some(best)))
  }

  /** With the corrected rule the stored score and crown never go down. */
  lemma WriteScoreMonotone(auto: bool, row: Option<Row>, newScore: int, crown: int)
    requires row.Some? && row.value.score.Some?
    ensures var r := WriteScore(auto, row, newScore, crown);
            && r.Some? && r.value.score.Some?
            && r.value.score.value == Max(row.value.score.value, if auto then row.value.score.value else newScore)
            && StoredCrown(r) >= StoredCrown(row)
            && (!auto ==> StoredCrown(r) >= crown)
  {
  }
}
