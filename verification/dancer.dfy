/** The background dancers (libs/bg_objects/dancer.py): where each new
    dancer stands, the order they appear in, and the keyframe timing of
    their loop. */
module Dancer {
  import opened Common
  import Animation

  /** The stage slots in the order dancers fill them: centre, left, right,
      far left, far right. */
  const AllPositions: seq<int> := [2, 1, 3, 0, 4]

  /** The slots a group of `maxDancers` uses: those below `maxDancers`, in
      fill order. */
  function SpawnPositions(maxDancers: int): (r: seq<int>)
    ensures forall i :: 0 <= i < |r| ==> 0 <= r[i] < maxDancers
    ensures forall p :: p in r <==> p in AllPositions && p < maxDancers
    ensures |r| == Max(0, Min(maxDancers, 5))
    ensures forall i, j :: 0 <= i < j < |r| ==> r[i] != r[j]
  {
    SpawnCases(maxDancers);
    Keep(AllPositions, maxDancers)
  }

  lemma SpawnCases(maxDancers: int)
    ensures maxDancers <= 0 ==> Keep(AllPositions, maxDancers) == []
    ensures maxDancers == 1 ==> Keep(AllPositions, maxDancers) == [0]
    ensures maxDancers == 2 ==> Keep(AllPositions, maxDancers) == [1, 0]
    ensures maxDancers == 3 ==> Keep(AllPositions, maxDancers) == [2, 1, 0]
    ensures maxDancers == 4 ==> Keep(AllPositions, maxDancers) == [2, 1, 3, 0]
    ensures maxDancers >= 5 ==> Keep(AllPositions, maxDancers) == AllPositions
  {
    var m := maxDancers;
    assert [4][1..] == [] && [0, 4][1..] == [4] && [3, 0, 4][1..] == [0, 4];
    assert [1, 3, 0, 4][1..] == [3, 0, 4] && AllPositions[1..] == [1, 3, 0, 4];
    var k4 := Keep([4], m);
    assert k4 == if 4 < m then [4] else [];
    var k3 := Keep([0, 4], m);
    assert k3 == (if 0 < m then [0] else []) + k4;
    var k2 := Keep([3, 0, 4], m);
    assert k2 == (if 3 < m then [3] else []) + k3;
    var k1 := Keep([1, 3, 0, 4], m);
    assert k1 == (if 1 < m then [1] else []) + k2;
    assert Keep(AllPositions, m) == (if 2 < m then [2] else []) + k1;
  }

  /** The entries of `s` below `bound`, order kept. */
  function Keep(s: seq<int>, bound: int): (r: seq<int>)
    ensures |r| <= |s|
    ensures forall x :: x in r <==> x in s && x < bound
  {
    if |s| == 0 then []
    else if s[0] < bound then [s[0]] + Keep(s[1..], bound)
    else Keep(s[1..], bound)
  }

  /** `Keep` keeps the order: what it returns is a subsequence of `s`. */
  lemma {:induction false} KeepIsSubsequence(s: seq<int>, bound: int)
    ensures IsSubsequence(Keep(s, bound), s)
  {
    if |s| > 0 {
      KeepIsSubsequence(s[1..], bound);
    }
  }

  predicate IsSubsequence(a: seq<int>, b: seq<int>)
    decreases |b|
  {
    |a| == 0 || (|b| > 0 && ((a[0] == b[0] && IsSubsequence(a[1..], b[1..])) || IsSubsequence(a, b[1..])))
  }

  /** A dancer group: how many dancers are out, how many it has (one per
      slot), the fill order, and which dancer (by its place in the
      shuffled list) stands in each slot. */
  datatype Group = Group(activeCount: nat, dancerCount: nat, spawn: seq<int>, slots: seq<Option<nat>>)

  /** The group's invariant: the fill order is the slots', no more dancers
      out than dancers or slots, the k-th dancer out stands in the k-th
      slot of the fill order, and every occupied slot holds such a
      dancer. */
  predicate ValidGroup(g: Group) {
    g.spawn == SpawnPositions(|g.slots|) && g.dancerCount == |g.slots| &&
    g.activeCount <= Min(g.dancerCount, |g.spawn|) &&
    (forall k :: 0 <= k < g.activeCount ==> g.slots[g.spawn[k]] == Some(k)) &&
    (forall p :: 0 <= p < |g.slots| && g.slots[p].Some? ==> g.slots[p].value < g.activeCount && g.spawn[g.slots[p].value] == p)
  }

  /** `add_dancer`: bring out the next dancer into the next slot, while
      both last. */
  function AddDancer(g: Group): (r: Group)
    requires ValidGroup(g)
    ensures ValidGroup(r)
    ensures r.dancerCount == g.dancerCount && r.spawn == g.spawn && |r.slots| == |g.slots|
    ensures r.activeCount == if g.activeCount < Min(g.dancerCount, |g.spawn|) then g.activeCount + 1 else g.activeCount
    ensures r.activeCount == g.activeCount + 1 ==> r.slots == g.slots[g.spawn[g.activeCount] := Some(g.activeCount)]
    ensures r.activeCount == g.activeCount ==> r == g
  {
    if g.activeCount < g.dancerCount && g.activeCount < |g.spawn| then
      var k := g.activeCount;
      var r := g.(activeCount := k + 1, slots := g.slots[g.spawn[k] := Some(k)]);
      assert forall j :: 0 <= j < k ==> g.spawn[j] != g.spawn[k];
      r
    else g
  }

  /** A new group of `maxDancers`: all slots empty, then the first dancer
      out. */
  function NewGroup(maxDancers: nat): (g: Group)
    ensures ValidGroup(g) && |g.slots| == maxDancers
    ensures maxDancers > 0 ==> g.activeCount == 1
    ensures maxDancers >= 3 ==> g.slots[2] == Some(0)
    ensures maxDancers > 0 ==> forall p :: 0 <= p < maxDancers ==> g.slots[p] == if p == g.spawn[0] then Some(0) else None
  {
    var empty := Group(0, maxDancers, SpawnPositions(maxDancers), seq(maxDancers, _ => None));
    AddDancer(empty)
  }

  function AddDancers(g: Group, n: nat): (r: Group)
    requires ValidGroup(g)
    ensures ValidGroup(r)
    ensures r.dancerCount == g.dancerCount && r.spawn == g.spawn && |r.slots| == |g.slots|
  {
    if n == 0 then g else AddDancer(AddDancers(g, n - 1))
  }

  /** Each call brings out at most one dancer, and after enough calls
      every slot is filled. */
  lemma {:induction false} AddDancersCount(g: Group, n: nat)
    requires ValidGroup(g)
    ensures AddDancers(g, n).activeCount == Min(g.activeCount + n, Min(g.dancerCount, |g.spawn|))
  {
    if n > 0 {
      AddDancersCount(g, n - 1);
    }
  }

  /** With every dancer out, every slot is occupied. */
  lemma FullGroupFillsSlots(g: Group)
    requires ValidGroup(g) && g.activeCount == |g.slots| && |g.slots| <= 5
    ensures forall p :: 0 <= p < |g.slots| ==> g.slots[p].Some?
  {
    forall p | 0 <= p < |g.slots|
      ensures g.slots[p].Some?
    {
      assert p in AllPositions;
      var k :| 0 <= k < |g.spawn| && g.spawn[k] == p;
      assert g.slots[g.spawn[k]] == Some(k);
    }
  }

  // ---------------------------------------------------------------------
  // A dancer's loop.

  /** One keyframe of the loop lasts half a beat: (60000 / bpm) / 2 ms. */
  function HalfBeat(bpm: real): (d: real)
    requires bpm > 0.0
    ensures d > 0.0 && d * bpm == 30000.0
  {
    (60000.0 / bpm) / 2.0
  }

  /** A dancer's loop timing: its tempo, the number of keyframes, the
      total duration and the keyframe windows. */
  datatype Loop = Loop(bpm: real, keyframeCount: nat, totalDuration: real, windows: seq<(real, real)>)

  /** The loop as built for a tempo (`BaseDancer.__init__`, and again in
      `update` when the tempo changes). */
  function LoopAt(bpm: real, keyframeCount: nat): (l: Loop)
    requires bpm > 0.0
    ensures l.bpm == bpm && l.keyframeCount == keyframeCount && |l.windows| == keyframeCount
    ensures l.totalDuration == HalfBeat(bpm) * keyframeCount as real
    ensures forall i :: 0 <= i < keyframeCount ==> l.windows[i].1 - l.windows[i].0 == HalfBeat(bpm)
    ensures keyframeCount > 0 ==> l.windows[0].0 == 0.0 && l.windows[keyframeCount - 1].1 == l.totalDuration
    ensures forall i :: 0 < i < keyframeCount ==> l.windows[i - 1].1 == l.windows[i].0
  {
    var d := HalfBeat(bpm);
    var w := Animation.Keyframes(d, keyframeCount);
    Animation.KeyframesTile(d, keyframeCount);
    Animation.KeyframesEven(d, keyframeCount);
    Loop(bpm, keyframeCount, d * keyframeCount as real, w)
  }

  /** `update`'s tempo handling: a new tempo rebuilds the windows with the
      same keyframes. */
  function UpdateBpm(l: Loop, bpm: real): (r: Loop)
    requires l.bpm > 0.0 && bpm > 0.0
    ensures r.keyframeCount == l.keyframeCount && r.bpm == bpm
    ensures l == LoopAt(l.bpm, l.keyframeCount) ==> r == LoopAt(bpm, l.keyframeCount)
  {
    if bpm != l.bpm then LoopAt(bpm, l.keyframeCount) else l
  }
}
