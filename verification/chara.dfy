/** The drum character's animation state (`Chara2D` in libs/chara_2d.py):
    which animation plays, which one a short animation returns to, and the
    latched clear, rainbow and gogo flags. */
module Chara {
  /** The animations that play once and then return to the remembered
      one. */
  const TempAnims: set<string> := {"10_combo", "10_combo_max", "soul_in", "clear_in", "balloon_pop", "balloon_miss", "gogo_start"}

  /** The state: the animation playing, the one to return to, and the
      flags. */
  datatype Chara = Chara(current: string, past: string, isRainbow: bool, isClear: bool, isGogo: bool)

  const CharaStart: Chara := Chara("normal", "normal", false, false, false)

  /** What a short animation returns to is always a looping one. */
  predicate ValidChara(c: Chara) {
    c.past !in TempAnims
  }

  /** The looping animation the flags call for: gogo over clear over
      normal. */
  function Resting(c: Chara): (r: string)
    ensures r !in TempAnims
    ensures r == "gogo" <==> c.isGogo
    ensures r == "clear" <==> !c.isGogo && c.isClear
  {
    if c.isGogo then "gogo" else if c.isClear then "clear" else "normal"
  }

  /** Whether `set_animation` ignores the request: the animation already
      plays, a short animation is still playing, or a ten-combo comes
      during gogo. */
  predicate Ignored(c: Chara, name: string) {
    name == c.current || c.current in TempAnims || (c.isGogo && name == "10_combo")
  }

  /** `set_animation`. A balloon result or the end of gogo first sets the
      animation to return to by precedence; the end of gogo then plays that
      animation and clears gogo; the start of gogo sets gogo and returns to
      the gogo loop. */
  function SetAnimation(c: Chara, name: string): (r: Chara)
    requires ValidChara(c)
    ensures ValidChara(r)
    ensures Ignored(c, name) ==> r == c
    ensures r.isRainbow == c.isRainbow && r.isClear == c.isClear
    ensures !Ignored(c, name) && name in {"balloon_pop", "balloon_miss"} ==>
              r == c.(past := Resting(c), current := name)
    ensures !Ignored(c, name) && name == "gogo_stop" ==>
              r.past == Resting(c) && r.current == r.past && !r.isGogo
    ensures !Ignored(c, name) && name == "gogo_start" ==> r.isGogo && r.past == "gogo" && r.current == name
    ensures !Ignored(c, name) && name !in {"balloon_pop", "balloon_miss", "gogo_stop", "gogo_start"} ==>
              r == c.(past := c.current, current := name)
  {
    if Ignored(c, name) then c
    else if name in {"balloon_pop", "balloon_miss", "gogo_stop"} then
      var past := Resting(c);
      if name == "gogo_stop" then c.(past := past, current := past, isGogo := false)
      else c.(past := past, current := name)
    else if name == "gogo_start" then c.(isGogo := true, past := "gogo", current := name)
    else c.(past := c.current, current := name)
  }

  /** A short animation, once started, blocks every request until it
      ends. */
  lemma TempBlocks(c: Chara, names: seq<string>)
    requires ValidChara(c) && c.current in TempAnims
    ensures SetAnimations(c, names) == c
    decreases |names|
  {
    if |names| > 0 {
      TempBlocks(SetAnimation(c, names[0]), names[1..]);
    }
  }

  function SetAnimations(c: Chara, names: seq<string>): (r: Chara)
    requires ValidChara(c)
    ensures ValidChara(r)
    decreases |names|
  {
    if |names| == 0 then c else SetAnimations(SetAnimation(c, names[0]), names[1..])
  }

  /** The state part of `update`: a rising rainbow edge plays the soul
      animation, a rising clear edge the clear animation (and the return
      goes to the clear loop); then, when the playing animation has
      finished (`finished`, from the animation clock) and is a short one,
      it gives way to the one to return to. */
  function Update(c: Chara, isClear: bool, isRainbow: bool, finished: bool): (r: Chara)
    requires ValidChara(c)
    ensures ValidChara(r)
    ensures r.isRainbow <==> c.isRainbow || isRainbow
    ensures r.isClear <==> c.isClear || isClear
    ensures finished ==> r.current !in TempAnims
    ensures isRainbow && !c.isRainbow && c.current !in TempAnims && c.current != "soul_in" && !finished ==>
              r.current == "soul_in"
    ensures isClear && !c.isClear && !(isRainbow && !c.isRainbow) && c.current !in TempAnims && !finished ==>
              r.current == "clear_in" && r.past == "clear"
    ensures isClear && !c.isClear ==> r.past == "clear" || r.current == "clear"
  {
    var c1 := if isRainbow && !c.isRainbow then SetAnimation(c.(isRainbow := true), "soul_in") else c;
    var c2 := if isClear && !c1.isClear then SetAnimation(c1.(isClear := true), "clear_in").(past := "clear") else c1;
    if finished && c2.current in TempAnims then c2.(current := c2.past) else c2
  }

  /** Over any run of frames the clear and rainbow flags, once set, stay
      set. */
  function Run(c: Chara, frames: seq<(bool, bool, bool)>): (r: Chara)
    requires ValidChara(c)
    ensures ValidChara(r)
    decreases |frames|
  {
    if |frames| == 0 then c else Run(Update(c, frames[0].0, frames[0].1, frames[0].2), frames[1..])
  }

  lemma {:induction false} FlagsLatch(c: Chara, frames: seq<(bool, bool, bool)>)
    requires ValidChara(c)
    ensures c.isClear ==> Run(c, frames).isClear
    ensures c.isRainbow ==> Run(c, frames).isRainbow
    decreases |frames|
  {
    if |frames| > 0 {
      FlagsLatch(Update(c, frames[0].0, frames[0].1, frames[0].2), frames[1..]);
    }
  }

  // ---------------------------------------------------------------------
  // Animation timing.

  /** The length of one keyframe when the character is made: twice as
      long for character 0. */
  function KeyframeAtStart(index: int, bpm: real): (d: real)
    requires bpm > 0.0
    ensures index == 0 ==> d == 4500.0 / bpm
    ensures index != 0 ==> d == 2250.0 / bpm
  {
    if index == 0 then 2250.0 * 2.0 / bpm else 2250.0 / bpm
  }

  /** The length of one keyframe after a tempo change, as written: the
      same for every character, so character 0 loses its doubling. */
  function KeyframeAfterBpmAsWritten(index: int, bpm: real): (d: real)
    requires bpm > 0.0
    ensures d == 2250.0 / bpm
  {
    2250.0 / bpm
  }

  /** Character 0 made at 100 bpm and moved to 200 bpm animates twice as
      fast as one made at 200 bpm. */
  lemma BpmChangeHalvesCharacterZero()
    ensures KeyframeAfterBpmAsWritten(0, 200.0) == 11.25
    ensures KeyframeAtStart(0, 200.0) == 22.5
  {
  }

  /** The keyframe length after a tempo change, with character 0's
      doubling kept: the length as written, doubled for character 0. */
  function KeyframeAfterBpm(index: int, bpm: real): (d: real)
    requires bpm > 0.0
    ensures d == KeyframeAtStart(index, bpm)
  {
    KeyframeAfterBpmAsWritten(index, bpm) * (if index == 0 then 2.0 else 1.0)
  }

  /** With the doubling kept, a tempo change gives each character the
      timing a character made at the new tempo has, and a faster tempo
      always means shorter keyframes. */
  lemma BpmChangeMatchesStart(index: int, a: real, b: real)
    requires 0.0 < a < b
    ensures KeyframeAfterBpm(index, b) < KeyframeAtStart(index, a)
  {
    var k := if index == 0 then 4500.0 else 2250.0;
    assert KeyframeAfterBpm(index, b) == k / b;
    assert KeyframeAtStart(index, a) == k / a;
    DivideByLarger(k, a, b);
  }

  lemma DivideByLarger(k: real, a: real, b: real)
    requires k > 0.0 && 0.0 < a < b
    ensures k / b < k / a
  {
    var x := k / b;
    var y := k / a;
    assert x * b == k && y * a == k;
    assert x * a < x * b;
    assert x * a < y * a;
  }
}
