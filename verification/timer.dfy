/** The countdown shown on the menus (`Timer` in libs/global_objects.py):
    one second off per tick, the confirm action once it has run out. */
module Timer {
  import opened Common
  import Text

  /** The decimal digits of a natural number, `str(n)`. */
  function Decimal(n: nat): (r: string)
    ensures |r| > 0 && forall i :: 0 <= i < |r| ==> Text.IsDigit(r[i])
    ensures n > 0 ==> r[0] != '0'
    ensures n < 10 ==> |r| == 1
  {
    var last := ('0' as int + n % 10) as char;
    if n < 10 then [last] else Decimal(n / 10) + [last]
  }

  /** `str(n)` for any integer: a minus sign before a negative number's
      digits. */
  function IntString(n: int): (r: string)
    ensures |r| > 0
    ensures n >= 0 ==> r == Decimal(n)
    ensures n < 0 ==> r[0] == '-'
  {
    if n >= 0 then Decimal(n) else "-" + Decimal(-n)
  }

  /** Reading the digits back gives the number. */
  lemma {:induction false} DecimalValue(n: nat)
    ensures Text.DigitsValue(Decimal(n)) == n
  {
    var r := Decimal(n);
    if n >= 10 {
      DecimalValue(n / 10);
      assert r[..|r| - 1] == Decimal(n / 10);
    }
  }

  /** The timer: the seconds left, when it last ticked, the text shown,
      whether the confirm action has run, and whether the config freezes
      it. */
  datatype Timer = Timer(time: int, lastTime: real, counter: string, isFinished: bool, isFrozen: bool)

  /** The shown text is the seconds left. */
  predicate ValidTimer(t: Timer) {
    t.counter == IntString(t.time)
  }

  function NewTimer(time: int, now: real, frozen: bool): (t: Timer)
    ensures ValidTimer(t) && !t.isFinished && t.time == time && t.lastTime == now
  {
    Timer(time, now, IntString(time), false, frozen)
  }

  /** The voice line a tick starts. */
  datatype Voice = NoVoice | Voice10 | Voice5 | Voice0

  /** One frame's result: the timer, whether the confirm action ran, and
      the sounds the tick plays. */
  datatype Frame = Frame(timer: Timer, confirmed: bool, blip: bool, voice: Voice)

  /** `Timer.update`: first the confirm action, once, when the time is 0
      and the zero voice has finished; then, unless frozen, one second off
      when a second has passed since the last tick and time is left. */
  function Update(t: Timer, now: real, zeroVoicePlaying: bool): (r: Frame)
    requires ValidTimer(t)
    ensures ValidTimer(r.timer) && r.timer.isFrozen == t.isFrozen
    ensures r.confirmed <==> t.time == 0 && !t.isFinished && !zeroVoicePlaying
    ensures r.timer.isFinished <==> t.isFinished || r.confirmed
    ensures r.timer.time == t.time - 1 <==> !t.isFrozen && t.time > 0 && now >= t.lastTime + 1000.0
    ensures r.timer.time != t.time - 1 ==> r.timer.time == t.time && r.timer.lastTime == t.lastTime
    ensures r.timer.time == t.time - 1 ==> r.timer.lastTime == now
    ensures t.time >= 0 ==> r.timer.time >= 0
    ensures r.blip <==> r.timer.time == t.time - 1 && r.timer.time < 10
    ensures r.voice == Voice0 <==> r.timer.time == t.time - 1 && r.timer.time == 0
  {
    var confirmed := t.time == 0 && !t.isFinished && !zeroVoicePlaying;
    var t1 := if confirmed then t.(isFinished := true) else t;
    if t1.isFrozen || !(now >= t1.lastTime + 1000.0 && t1.time > 0) then Frame(t1, confirmed, false, NoVoice)
    else
      var time := t1.time - 1;
      var voice := if time == 10 then Voice10 else if time == 5 then Voice5 else if time == 0 then Voice0 else NoVoice;
      Frame(t1.(time := time, lastTime := now, counter := IntString(time)), confirmed, time < 10, voice)
  }

  /** A run of frames, each with its clock reading and whether the zero
      voice is still playing: the final timer and how often the confirm
      action ran. */
  function Run(t: Timer, frames: seq<(real, bool)>): (r: (Timer, nat))
    requires ValidTimer(t)
    ensures ValidTimer(r.0) && r.0.isFrozen == t.isFrozen
    decreases |frames|
  {
    if |frames| == 0 then (t, 0)
    else
      var f := Update(t, frames[0].0, frames[0].1);
      var rest := Run(f.timer, frames[1..]);
      (rest.0, rest.1 + if f.confirmed then 1 else 0)
  }

  /** The confirm action runs at most once, and never again once the
      timer has finished. */
  lemma {:induction false} ConfirmAtMostOnce(t: Timer, frames: seq<(real, bool)>)
    requires ValidTimer(t)
    ensures Run(t, frames).1 <= 1
    ensures t.isFinished ==> Run(t, frames).1 == 0 && Run(t, frames).0.isFinished
    decreases |frames|
  {
    if |frames| > 0 {
      ConfirmAtMostOnce(Update(t, frames[0].0, frames[0].1).timer, frames[1..]);
    }
  }

  /** A frozen timer keeps its time; otherwise the time never goes below 0
      and falls by at most one second per 1000 ms of clock. */
  lemma {:induction false} RunTicks(t: Timer, frames: seq<(real, bool)>)
    requires ValidTimer(t) && t.time >= 0
    ensures t.isFrozen ==> Run(t, frames).0.time == t.time
    ensures 0 <= Run(t, frames).0.time <= t.time
    ensures (t.time - Run(t, frames).0.time) as real * 1000.0 <= Run(t, frames).0.lastTime - t.lastTime
    decreases |frames|
  {
    if |frames| > 0 {
      RunTicks(Update(t, frames[0].0, frames[0].1).timer, frames[1..]);
    }
  }
}
