/** The game background's state logic (`Background` in libs/background.py):
    how the gauge brings out dancers milestone by milestone, and when the
    fever backgrounds start. Drawing and the animation clocks are left
    out. */
module Background {
  import opened Common
  import Game
  import Dancer

  /** The gauge length at which every dancer is out: the gauge's clear
      start for the difficulty, capped at ONI. */
  function Threshold(difficulty: int): (t: real)
    ensures t >= 52.0
  {
    Game.ClearStart(Min(difficulty, 3))
  }

  /** The milestone the gauge has reached: below the threshold, the number
      of whole `threshold / maxDancers` steps the gauge covers, one short
      of the last at most; at the threshold or beyond, `maxDancers`. */
  function Milestone(length: real, threshold: real, maxDancers: int): (m: int)
    requires threshold > 0.0 && maxDancers > 0
    ensures m <= maxDancers
    ensures m == maxDancers <==> length >= threshold
    ensures length >= 0.0 ==> m >= 0
  {
    if length < threshold then Min(maxDancers - 1, Trunc(length / (threshold / maxDancers as real)))
    else maxDancers
  }

  /** Below the threshold, milestone `k` is reached exactly when the gauge
      covers `k` steps of `threshold / maxDancers`. */
  lemma MilestoneReached(length: real, threshold: real, maxDancers: int, k: int)
    requires threshold > 0.0 && maxDancers > 0
    requires 0.0 <= length < threshold && 0 < k < maxDancers
    ensures Milestone(length, threshold, maxDancers) >= k <==> length >= k as real * (threshold / maxDancers as real)
  {
    var step := threshold / maxDancers as real;
    assert step > 0.0;
    var q := length / step;
    assert q * step == length;
    assert (q - k as real) * step == length - k as real * step;
    SignOfProduct(q - k as real, step);
  }

  /** With `c` positive, `x * c` has the sign of `x`. */
  lemma SignOfProduct(x: real, c: real)
    requires c > 0.0
    ensures x >= 0.0 <==> x * c >= 0.0
  {
  }

  /** A fuller gauge never reaches a lower milestone. */
  lemma MilestoneMonotone(a: real, b: real, threshold: real, maxDancers: int)
    requires threshold > 0.0 && maxDancers > 0 && a <= b
    ensures Milestone(a, threshold, maxDancers) <= Milestone(b, threshold, maxDancers)
  {
    if b < threshold {
      var step := threshold / maxDancers as real;
      DivideMonotone(a, b, step);
      TruncMonotone(a / step, b / step);
    }
  }

  lemma DivideMonotone(a: real, b: real, c: real)
    requires a <= b && c > 0.0
    ensures a / c <= b / c
  {
    assert (b / c - a / c) * c == b - a;
    SignOfProduct(b / c - a / c, c);
  }

  lemma TruncMonotone(x: real, y: real)
    requires x <= y
    ensures Trunc(x) <= Trunc(y)
  {
  }

  /** The background: the number of dancer slots, the last milestone
      reached, the flags copied from the gauge, the dancer group if the
      scene has one, whether it has the fever backgrounds, and the
      effects that `add_chibi` and `add_renda` feed. */
  datatype Bg = Bg(
    maxDancers: int,
    lastMilestone: int,
    isClear: bool,
    isRainbow: bool,
    dancer: Option<Dancer.Group>,
    hasBgFever: bool,
    hasFever: bool,
    chibis: Option<seq<(bool, int)>>,
    rendas: Option<nat>)

  /** The milestone lies between the first and the last, and the dancer
      group has one slot per dancer. */
  predicate ValidBg(b: Bg) {
    b.maxDancers > 0 && 1 <= b.lastMilestone <= b.maxDancers &&
    (b.dancer.Some? ==> Dancer.ValidGroup(b.dancer.value) && |b.dancer.value.slots| == b.maxDancers)
  }

  /** `Background.__init__`'s state: milestone 1, no flags. */
  function NewBg(maxDancers: int, dancer: Option<Dancer.Group>, hasBgFever: bool, hasFever: bool,
                 hasChibi: bool, hasRenda: bool): (b: Bg)
    requires maxDancers > 0
    requires dancer.Some? ==> Dancer.ValidGroup(dancer.value) && |dancer.value.slots| == maxDancers
    ensures ValidBg(b) && b.lastMilestone == 1 && !b.isClear && !b.isRainbow
    ensures b.chibis.Some? <==> hasChibi
    ensures b.rendas.Some? <==> hasRenda
  {
    Bg(maxDancers, 1, false, false, dancer, hasBgFever, hasFever,
       if hasChibi then Some([]) else None, if hasRenda then Some(0) else None)
  }

  /** `add_chibi`: a new chibi when the scene has them, nothing otherwise. */
  function AddChibi(b: Bg, bad: bool, playerNum: int): (r: Bg)
    ensures b.chibis.None? ==> r == b
    ensures b.chibis.Some? ==> r == b.(chibis := Some(b.chibis.value + [(bad, playerNum)]))
  {
    match b.chibis
    case None => b
    case Some(cs) => b.(chibis := Some(cs + [(bad, playerNum)]))
  }

  /** `add_renda`: one more drumroll effect when the scene has them,
      nothing otherwise. */
  function AddRenda(b: Bg): (r: Bg)
    ensures b.rendas.None? ==> r == b
    ensures b.rendas.Some? ==> r == b.(rendas := Some(b.rendas.value + 1))
  {
    match b.rendas
    case None => b
    case Some(n) => b.(rendas := Some(n + 1))
  }

  /** What one update starts: a dancer, the fever background, the rainbow
      fever. */
  datatype Events = Events(dancerAdded: bool, feverStarted: bool, rainbowStarted: bool)

  /** The state part of `Background.update` for player 1's gauge, if any.
      A dancer comes out when the gauge passes a new milestone; the fever
      background starts on the gauge's clear edge and the rainbow fever on
      its rainbow edge; then the flags follow the gauge. */
  function Update(b: Bg, gauge: Option<Game.Gauge>): (r: (Bg, Events))
    requires ValidBg(b)
    ensures ValidBg(r.0)
    ensures r.0.maxDancers == b.maxDancers && r.0.hasBgFever == b.hasBgFever && r.0.hasFever == b.hasFever
    ensures r.0.chibis == b.chibis && r.0.rendas == b.rendas
    ensures b.lastMilestone <= r.0.lastMilestone
    ensures r.1.dancerAdded <==> b.lastMilestone < r.0.lastMilestone
    ensures r.1.dancerAdded <==>
              b.dancer.Some? && gauge.Some? &&
              b.lastMilestone < Milestone(gauge.value.length, Threshold(gauge.value.difficulty), b.maxDancers)
    ensures r.1.dancerAdded ==>
              r.0.lastMilestone == Milestone(gauge.value.length, Threshold(gauge.value.difficulty), b.maxDancers) &&
              r.0.dancer == Some(Dancer.AddDancer(b.dancer.value))
    ensures !r.1.dancerAdded ==> r.0.dancer == b.dancer
    ensures r.1.feverStarted <==> b.hasBgFever && gauge.Some? && !b.isClear && gauge.value.isClear
    ensures r.1.rainbowStarted <==> b.hasBgFever && b.hasFever && gauge.Some? && !b.isRainbow && gauge.value.isRainbow
    ensures gauge.Some? ==> r.0.isClear == gauge.value.isClear && r.0.isRainbow == gauge.value.isRainbow
    ensures gauge.None? ==> r.0 == b && r.1 == Events(false, false, false)
  {
    match gauge
    case None => (b, Events(false, false, false))
    case Some(g) =>
      var m := if b.dancer.Some? then Milestone(g.length, Threshold(g.difficulty), b.maxDancers) else b.lastMilestone;
      var added := b.dancer.Some? && m > b.lastMilestone && m <= b.maxDancers;
      var b1 := if added then b.(dancer := Some(Dancer.AddDancer(b.dancer.value)), lastMilestone := m) else b;
      var fever := b.hasBgFever && !b.isClear && g.isClear;
      var rainbow := b.hasBgFever && !b.isRainbow && g.isRainbow && b.hasFever;
      (b1.(isClear := g.isClear, isRainbow := g.isRainbow), Events(added, fever, rainbow))
  }

  /** A run of frames, each with player 1's gauge or none: the final state
      and how many dancers came out. */
  function Run(b: Bg, gauges: seq<Option<Game.Gauge>>): (r: (Bg, nat))
    requires ValidBg(b)
    ensures ValidBg(r.0) && r.0.maxDancers == b.maxDancers
    decreases |gauges|
  {
    if |gauges| == 0 then (b, 0)
    else
      var u := Update(b, gauges[0]);
      var rest := Run(u.0, gauges[1..]);
      (rest.0, rest.1 + if u.1.dancerAdded then 1 else 0)
  }

  /** The milestone never falls, and over a whole song at most
      `maxDancers - 1` dancers join the first: each one needs a new,
      higher milestone. */
  lemma {:induction false} RunAddsBounded(b: Bg, gauges: seq<Option<Game.Gauge>>)
    requires ValidBg(b)
    ensures b.lastMilestone <= Run(b, gauges).0.lastMilestone
    ensures Run(b, gauges).1 <= Run(b, gauges).0.lastMilestone - b.lastMilestone
    ensures Run(b, gauges).1 <= b.maxDancers - 1
    decreases |gauges|
  {
    if |gauges| > 0 {
      var u := Update(b, gauges[0]);
      RunAddsBounded(u.0, gauges[1..]);
    }
  }

  /** A gauge at the threshold brings out a dancer unless the last
      milestone was already reached. */
  lemma FullGaugeAddsDancer(b: Bg, g: Game.Gauge)
    requires ValidBg(b) && b.dancer.Some? && g.length >= Threshold(g.difficulty)
    ensures Update(b, Some(g)).1.dancerAdded <==> b.lastMilestone < b.maxDancers
    ensures Update(b, Some(g)).0.lastMilestone == b.maxDancers
  {
  }
}
