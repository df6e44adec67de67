/** The result screen's rules (scenes/result.py): the crown it shows, the
    state of its gauge, and `ScoreAnimator`, which rolls each digit of a
    number through ten steps from the rightmost digit leftwards. */
module Result {
  import opened Common
  import Game

  datatype Crown = CrownDfc | CrownFc | CrownClear

  /** The crown the result screen shows: donderful with no OKs and no
      BADs, full combo with OKs but no BADs, clear otherwise. */
  function ResultCrown(ok: nat, bad: nat): (c: Crown)
    ensures c == CrownDfc <==> ok == 0 && bad == 0
    ensures c == CrownFc <==> bad == 0 && ok > 0
    ensures c == CrownClear <==> bad > 0
  {
    if ok == 0 && bad == 0 then CrownDfc else if bad == 0 then CrownFc else CrownClear
  }

  /** The crown the result screen shows and the one `write_score` stores
      differ on the plays without OKs: a perfect play is stored as a full
      combo, and a play with BADs but no OKs is stored as donderful. */
  lemma CrownsDisagreeWithoutOks(bad: nat, gaugeClear: bool)
    ensures bad == 0 ==> ResultCrown(0, bad) == CrownDfc && Game.CrownOnWrite(bad, 0, gaugeClear) == Game.CrownFc
    ensures bad > 0 ==> ResultCrown(0, bad) == CrownClear && Game.CrownOnWrite(bad, 0, gaugeClear) == Game.CrownDfc
  {
  }

  /** With OKs the two agree up to the gauge: a full combo on both without
      BADs, and with BADs the stored crown is a clear one exactly when the
      gauge cleared. */
  lemma CrownsAgreeWithOks(ok: nat, bad: nat, gaugeClear: bool)
    requires ok > 0
    ensures bad == 0 <==> ResultCrown(ok, bad) == CrownFc && Game.CrownOnWrite(bad, ok, gaugeClear) == Game.CrownFc
    ensures bad > 0 ==> (Game.CrownOnWrite(bad, ok, gaugeClear) == Game.CrownClear <==> gaugeClear)
  {
  }

  datatype GaugeState = Fail | Clear | Rainbow

  /** The result gauge: rainbow at the maximum 87, clear above 69 on every
      difficulty, failed otherwise. */
  function ResultGaugeState(length: real, selectedDifficulty: int): (s: GaugeState)
    ensures s == Rainbow <==> length == 87.0
    ensures s == Clear <==> 69.0 < length && length != 87.0
    ensures s == Fail <==> length <= 69.0 && length != 87.0
  {
    var difficulty := Min(2, selectedDifficulty);
    var clearStart := [69.0, 69.0, 69.0];
    if length == 87.0 then Rainbow
    else if length > clearStart[if 0 <= difficulty then difficulty else 0] then Clear
    else Fail
  }

  /** The result screen's gauge is stricter than the game's: whenever it
      shows a clear or a rainbow, the game's gauge of the same length has
      cleared, on every difficulty. */
  lemma ResultClearImpliesGameClear(g: Game.Gauge, selectedDifficulty: int)
    requires ResultGaugeState(g.length, selectedDifficulty) != Fail
    ensures Game.UpdateGauge(g).isClear
  {
  }

  /** A longer gauge never shows a worse state, up to the maximum. */
  lemma ResultGaugeMonotone(short: real, long: real, selectedDifficulty: int)
    requires short <= long <= 87.0
    ensures ResultGaugeState(short, selectedDifficulty) != Fail ==> ResultGaugeState(long, selectedDifficulty) != Fail
    ensures ResultGaugeState(short, selectedDifficulty) == Rainbow ==> ResultGaugeState(long, selectedDifficulty) == Rainbow
  {
  }

  /** On EASY and NORMAL the game's gauge clears at 60, where the result
      screen's gauge still shows a failure. */
  lemma ResultGaugeStricterThanGame(difficulty: int)
    requires 0 <= difficulty <= 1
    ensures var g := Game.UpdateGauge(Game.Gauge(60.0, 1, difficulty, 1, false, false));
            g.isClear && ResultGaugeState(g.length, difficulty) == Fail
  {
  }

  // ---------------------------------------------------------------------
  // `ScoreAnimator`.

  /** A decimal numeral as `str` writes a non-negative integer: digits
      0 to 9, no leading zero unless the number is 0. */
  predicate Numeral(t: seq<int>) {
    |t| > 0 && (forall i :: 0 <= i < |t| ==> 0 <= t[i] <= 9) && (t[0] == 0 ==> |t| == 1)
  }

  /** `digits`, `counters` and `index` are `current_score_list` and
      `digit_index`; `target` is the digits of the number rolled to. */
  datatype Animator = Animator(target: seq<int>, digits: seq<int>, counters: seq<int>, index: int, finished: bool)

  predicate Valid(a: Animator) {
    && Numeral(a.target)
    && |a.digits| == |a.target| && |a.counters| == |a.target|
    && -1 <= a.index < |a.target|
    && (forall i :: 0 <= i < |a.digits| ==> 0 <= a.digits[i] <= 9)
  }

  function NewAnimator(target: seq<int>): (a: Animator)
    requires Numeral(target)
    ensures Valid(a)
    ensures a.index == |target| - 1 && !a.finished
    ensures forall i :: 0 <= i < |target| ==> a.digits[i] == 0 && a.counters[i] == 0
  {
    Animator(target, seq(|target|, i => 0), seq(|target|, i => 0), |target| - 1, false)
  }

  /** `str(int(s))` for a string of digits: the digits without leading
      zeros, and a single 0 for zero. */
  function WithoutLeadingZeros(ds: seq<int>): (r: seq<int>)
    requires |ds| > 0
    ensures 0 < |r| <= |ds| && r == ds[|ds| - |r|..]
    ensures |r| > 1 ==> r[0] != 0
    ensures forall i :: 0 <= i < |ds| - |r| ==> ds[i] == 0
  {
    if |ds| > 1 && ds[0] == 0 then WithoutLeadingZeros(ds[1..]) else ds
  }

  predicate AllZero(ds: seq<int>) {
    forall i :: 0 <= i < |ds| ==> ds[i] == 0
  }

  /** The state change of one `next_score` call while a digit is still
      rolling: the current digit steps on (mod 10) for nine calls, and on
      the tenth it is set to the target's digit and the index moves left. */
  function Advance(a: Animator): (b: Animator)
    requires Valid(a) && a.index >= 0
    ensures Valid(b) && b.target == a.target && b.finished == a.finished
    ensures a.counters[a.index] < 9 ==>
              && b.index == a.index
              && b.digits == a.digits[a.index := (a.digits[a.index] + 1) % 10]
              && b.counters == a.counters[a.index := a.counters[a.index] + 1]
    ensures a.counters[a.index] >= 9 ==>
              && b.index == a.index - 1
              && b.digits == a.digits[a.index := a.target[a.index]]
              && b.counters == a.counters
  {
    var i := a.index;
    if a.counters[i] < 9 then
      a.(digits := a.digits[i := (a.digits[i] + 1) % 10], counters := a.counters[i := a.counters[i] + 1])
    else
      a.(digits := a.digits[i := a.target[i]], index := i - 1)
  }

  /** The string `next_score` returns after rolling: all zeros show as
      many zeros as digits have started rolling (a single one once none is
      left), anything else as the number without leading zeros. */
  function Shown(b: Animator): (r: seq<int>)
    requires Valid(b)
    ensures |r| > 0
    ensures !AllZero(b.digits) ==> r == WithoutLeadingZeros(b.digits)
    ensures AllZero(b.digits) ==> AllZero(r)
    ensures AllZero(b.digits) && b.index >= 0 ==> |r| == |b.target| - b.index
    ensures AllZero(b.digits) && b.index < 0 ==> r == [0]
  {
    RepeatFacts(0, |b.target| - b.index);
    if AllZero(b.digits) then (if b.index >= 0 then Repeat(0, |b.target| - b.index) else [0])
    else WithoutLeadingZeros(b.digits)
  }

  /** The state `next_score` leaves behind: past the leftmost digit it
      only marks the animator finished. */
  function Tick(a: Animator): (b: Animator)
    requires Valid(a)
    ensures Valid(b) && b.target == a.target
    ensures b.index <= a.index
    ensures a.index == -1 ==> b == a.(finished := true)
    ensures a.index >= 0 ==> b == Advance(a)
  {
    if a.index == -1 then a.(finished := true) else Advance(a)
  }

  /** `next_score`: the new state and the digits it returns, which are the
      number itself once every digit has settled. */
  function NextScore(a: Animator): (r: (Animator, seq<int>))
    requires Valid(a)
    ensures r.0 == Tick(a)
    ensures a.index == -1 ==> r.1 == WithoutLeadingZeros(a.digits)
    ensures a.index >= 0 ==> r.1 == Shown(r.0)
  {
    var b := Tick(a);
    (b, if a.index == -1 then WithoutLeadingZeros(a.digits) else Shown(b))
  }

  /** The animator after `k` calls. */
  function Run(a: Animator, k: nat): (r: Animator)
    requires Valid(a)
    ensures Valid(r) && r.target == a.target
  {
    if k == 0 then a else Tick(Run(a, k - 1))
  }

  /** If `k - 1` calls reach `x` and one more call takes `x` to `y`,
      then `k` calls reach `y`. */
  lemma RunAfter(a: Animator, k: nat, x: Animator, y: Animator)
    requires Valid(a) && Valid(x) && k > 0
    requires Run(a, k - 1) == x && Tick(x) == y
    ensures Run(a, k) == y
  {
  }

  /** The digits after `settled` digits have been rolled and the current
      one has been stepped `rolled` times: the digits right of the current
      one are settled on the target, the current one shows `rolled`, and
      the ones to its left are still zero. */
  function Rolling(target: seq<int>, settled: nat, rolled: int): (ds: seq<int>)
    ensures |ds| == |target|
    ensures forall i :: 0 <= i < |target| ==>
      ds[i] == if i > |target| - 1 - settled then target[i] else if i == |target| - 1 - settled then rolled else 0
  {
    RollingUpTo(target, |target| - 1 - settled, rolled, |target|)
  }

  /** The first `n` digits of that pattern, with the current digit at
      `cur`. */
  function RollingUpTo(target: seq<int>, cur: int, rolled: int, n: nat): (ds: seq<int>)
    requires n <= |target|
    ensures |ds| == n
    ensures forall i :: 0 <= i < n ==> ds[i] == if i > cur then target[i] else if i == cur then rolled else 0
  {
    if n == 0 then []
    else RollingUpTo(target, cur, rolled, n - 1) + [if n - 1 > cur then target[n - 1] else if n - 1 == cur then rolled else 0]
  }

  /** The counters at the same point: 9 for the settled digits, `rolled`
      for the current one, 0 for the rest. */
  function RollCounters(n: nat, settled: nat, rolled: int): (cs: seq<int>)
    ensures |cs| == n
    ensures forall i :: 0 <= i < n ==> cs[i] == if i > n - 1 - settled then 9 else if i == n - 1 - settled then rolled else 0
  {
    CountersUpTo(n - 1 - settled, rolled, n)
  }

  function CountersUpTo(cur: int, rolled: int, n: nat): (cs: seq<int>)
    ensures |cs| == n
    ensures forall i :: 0 <= i < n ==> cs[i] == if i > cur then 9 else if i == cur then rolled else 0
  {
    if n == 0 then [] else CountersUpTo(cur, rolled, n - 1) + [if n - 1 > cur then 9 else if n - 1 == cur then rolled else 0]
  }

  /** The animator at that point: the digits and counters above, the
      index on the current digit, not finished. */
  function Expected(target: seq<int>, settled: nat, rolled: int): Animator {
    Animator(target, Rolling(target, settled, rolled), RollCounters(|target|, settled, rolled), |target| - 1 - settled, false)
  }

  lemma RollingStep(target: seq<int>, settled: nat, rolled: int)
    requires settled < |target|
    ensures Rolling(target, settled, rolled)[|target| - 1 - settled := rolled + 1] == Rolling(target, settled, rolled + 1)
    ensures Rolling(target, settled, rolled)[|target| - 1 - settled := target[|target| - 1 - settled]] == Rolling(target, settled + 1, 0)
    ensures RollCounters(|target|, settled, rolled)[|target| - 1 - settled := rolled + 1] == RollCounters(|target|, settled, rolled + 1)
    ensures RollCounters(|target|, settled, 9) == RollCounters(|target|, settled + 1, 0)
  {
  }

  lemma RollingDone(target: seq<int>)
    ensures Rolling(target, |target|, 0) == target
  {
  }

  /** One call while the current digit rolls steps it and its counter
      by one. */
  lemma RollOnTick(target: seq<int>, settled: nat, rolled: nat)
    requires Numeral(target) && settled < |target| && 0 < rolled < 10
    ensures Valid(Expected(target, settled, rolled - 1))
    ensures Tick(Expected(target, settled, rolled - 1)) == Expected(target, settled, rolled)
  {
    RollingStep(target, settled, rolled - 1);
  }

  /** The tenth call on a digit settles it on the target's digit and moves
      to the next one. */
  lemma SettleTick(target: seq<int>, settled: nat, rolled: nat)
    requires Numeral(target) && 0 < settled <= |target| && rolled == 0
    ensures Valid(Expected(target, settled - 1, 9))
    ensures Tick(Expected(target, settled - 1, 9)) == Expected(target, settled, rolled)
  {
    RollingStep(target, settled - 1, 9);
  }

  /** `k` calls from a fresh animator reach the point where `settled`
      digits are settled and the current one has rolled `rolled` times. */
  predicate Reaches(target: seq<int>, k: nat, settled: nat, rolled: nat)
    requires Numeral(target)
  {
    Run(NewAnimator(target), k) == Expected(target, settled, rolled)
  }

  lemma RunStartAt(target: seq<int>, k: nat, settled: nat, rolled: nat)
    requires Numeral(target) && k == 0 && settled == 0 && rolled == 0
    ensures Reaches(target, k, settled, rolled)
  {
  }

  /** From a fresh animator, the first 10 * n calls roll the digits right
      to left, ten calls per digit: after `k` calls `k / 10` digits are
      settled and the current one has rolled `k % 10` times. */
  lemma {:induction false} RunRolls(target: seq<int>, k: nat, settled: nat, rolled: nat)
    requires Numeral(target) && settled <= |target| && rolled < 10
    requires settled == |target| ==> rolled == 0
    requires k == 10 * settled + rolled
    ensures Reaches(target, k, settled, rolled)
    decreases k, 1
  {
    if rolled > 0 {
      RunRollsOn(target, k, settled, rolled);
    } else if settled > 0 {
      RunSettlesOne(target, k, settled, rolled);
    } else {
      RunStartAt(target, k, settled, rolled);
    }
  }

  /** The `k`th call while the current digit keeps rolling: one step on
      from the point `k - 1` calls reach. */
  lemma {:induction false} RunRollsOn(target: seq<int>, k: nat, settled: nat, rolled: nat)
    requires Numeral(target) && settled < |target| && 0 < rolled < 10
    requires k == 10 * settled + rolled
    ensures Reaches(target, k, settled, rolled)
    decreases k, 0
  {
    RunRolls(target, k - 1, settled, rolled - 1);
    RollOnTick(target, settled, rolled);
    RunAfter(NewAnimator(target), k, Expected(target, settled, rolled - 1), Expected(target, settled, rolled));
  }

  /** The `k`th call after the digit before the current one has rolled
      nine times: it settles and the current one starts. */
  lemma {:induction false} RunSettlesOne(target: seq<int>, k: nat, settled: nat, rolled: nat)
    requires Numeral(target) && 0 < settled <= |target| && rolled == 0
    requires k == 10 * settled + rolled
    ensures Reaches(target, k, settled, rolled)
    decreases k, 0
  {
    RunRolls(target, k - 1, settled - 1, 9);
    SettleTick(target, settled, rolled);
    RunAfter(NewAnimator(target), k, Expected(target, settled - 1, 9), Expected(target, settled, rolled));
  }

  /** After exactly 10 * n calls every digit is settled on the target and
      the digit index is -1. */
  lemma RunSettles(target: seq<int>)
    requires Numeral(target)
    ensures Run(NewAnimator(target), 10 * |target|).index == -1
    ensures Run(NewAnimator(target), 10 * |target|).digits == target
  {
    RunRolls(target, 10 * |target|, |target|, 0);
    RollingDone(target);
  }

  /** The call after the roll has settled finishes the animator and
      returns the number itself. */
  lemma FinishShowsTarget(target: seq<int>)
    requires Numeral(target)
    ensures var settled := Run(NewAnimator(target), 10 * |target|);
            var last := NextScore(settled);
            last.0.finished && last.1 == target
  {
    RunSettles(target);
    var settled := Run(NewAnimator(target), 10 * |target|);
    assert settled.digits == target;
  }
}
