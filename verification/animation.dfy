/** Texture-change animations (`Animation.create_texture_change` in
    libs/animation.py) as the character and the dancers build them: one
    window per keyframe, each of the same length. */
module Animation {
  /** Keyframe `i` of `n` covers [d * i, d * (i + 1)). */
  function Keyframes(d: real, n: nat): (w: seq<(real, real)>)
    ensures |w| == n
    ensures forall i :: 0 <= i < n ==> w[i].0 == d * (i as real) && w[i].1 == d * ((i + 1) as real)
  {
    seq(n, (i: int) => (d * (i as real), d * ((i + 1) as real)))
  }

  /** The windows join end to end, from 0 to the animation's total
      duration `d * n`. */
  lemma KeyframesTile(d: real, n: nat)
    ensures n > 0 ==> Keyframes(d, n)[0].0 == 0.0 && Keyframes(d, n)[n - 1].1 == d * (n as real)
    ensures forall i :: 0 <= i < n - 1 ==> Keyframes(d, n)[i].1 == Keyframes(d, n)[i + 1].0
  {
  }

  /** Every window lasts exactly `d`. */
  lemma KeyframesEven(d: real, n: nat)
    ensures forall i :: 0 <= i < n ==> Keyframes(d, n)[i].1 - Keyframes(d, n)[i].0 == d
  {
    forall i | 0 <= i < n
      ensures Keyframes(d, n)[i].1 - Keyframes(d, n)[i].0 == d
    {
      assert d * ((i + 1) as real) == d * (i as real) + d;
    }
  }
}
