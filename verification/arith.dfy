/** Facts about multiplication and division by a positive divisor that the
    ring-buffer arithmetic of the mixer relies on. */
module Arith {
  import opened Common

  lemma MulSucc(a: nat, d: nat)
    ensures (a + 1) * d == a * d + d
  {
  }

  lemma {:induction false} MulLt(a: nat, b: nat, d: nat)
    requires a < b
    ensures a * d + d <= b * d
    decreases b - a
  {
    MulSucc(a, d);
    if a + 1 < b {
      MulLt(a + 1, b, d);
    }
  }

  lemma MulLe(a: nat, b: nat, d: nat)
    requires a <= b
    ensures a * d <= b * d
  {
    if a < b {
      MulLt(a, b, d);
    }
  }

  /** Division is determined by the multiples around the dividend. */
  lemma DivBetween(x: nat, d: nat, q: nat)
    requires d > 0
    requires q * d <= x < q * d + d
    ensures x / d == q
  {
    var q' := x / d;
    assert x == q' * d + x % d;
    if q' < q {
      MulLt(q', q, d);
    } else if q' > q {
      MulLt(q, q', d);
    }
  }

  /** The smallest multiple of `d` above `x` is `(x / d + 1) * d`, and every
      number from `x` up to it has the same quotient as `x`. */
  lemma NextBoundary(x: nat, d: nat)
    requires d > 0
    ensures x < (x / d + 1) * d
    ensures (x / d) * d <= x
    ensures (x / d + 1) * d == x + (d - x % d)
    ensures ((x / d + 1) * d) / d == x / d + 1
    ensures forall y :: x <= y < x + (d - x % d) ==> y / d == x / d
    ensures forall j: nat :: x < j * d ==> (x / d + 1) * d <= j * d
  {
    assert x == (x / d) * d + x % d;
    MulSucc(x / d, d);
    DivBetween((x / d + 1) * d, d, x / d + 1);
    forall y | x <= y < x + (d - x % d)
      ensures y / d == x / d
    {
      DivBetween(y, d, x / d);
    }
    forall j: nat | x < j * d
      ensures (x / d + 1) * d <= j * d
    {
      if j > x / d {
        MulLt(x / d, j, d);
      } else if j < x / d {
        MulLt(j, x / d, d);
      }
    }
  }

  /** The smallest multiple of `d` that is at least `size`. */
  lemma CeilMultiple(size: nat, d: nat)
    requires d > 0
    ensures ((size + d - 1) / d) * d >= size
    ensures forall j: nat :: j * d >= size ==> ((size + d - 1) / d) * d <= j * d
  {
    var c := (size + d - 1) / d;
    assert size + d - 1 == c * d + (size + d - 1) % d;
    forall j: nat | j * d >= size
      ensures c * d <= j * d
    {
      if j < c {
        MulLt(j, c, d);
      } else {
        MulLe(c, j, d);
      }
    }
  }

  /** The smallest multiple of `d` that is above `x` and at least `size`. */
  lemma FirstBoundary(x: nat, size: nat, d: nat)
    requires d > 0
    ensures var m := Max(x / d + 1, (size + d - 1) / d);
      && m * d > x && m * d >= size && (m * d) % d == 0
      && forall j: nat :: j * d > x && j * d >= size ==> m * d <= j * d
  {
    var a := x / d + 1;
    var c := (size + d - 1) / d;
    var m := Max(a, c);
    NextBoundary(x, d);
    CeilMultiple(size, d);
    MulLe(a, m, d);
    MulLe(c, m, d);
    DivBetween(m * d, d, m);
    assert m * d == ((m * d) / d) * d + (m * d) % d;
  }

  /** A run of `p` numbers starting at `x` that does not pass the next
      multiple of `d` shares the quotient of `x`, and ends at that multiple
      exactly when it runs all the way to it. */
  lemma RunWithinMultiple(x: nat, d: nat, p: nat)
    requires d > 0 && p <= d - x % d
    ensures forall y :: x <= y < x + p ==> y / d == x / d
    ensures (x + p) / d == if p == d - x % d then x / d + 1 else x / d
    ensures p == d - x % d ==> x + p == (x / d + 1) * d
    ensures forall m: nat :: x < m * d ==> x + p <= m * d
  {
    NextBoundary(x, d);
    if p < d - x % d {
      assert x <= x + p < x + (d - x % d);
    }
  }

  lemma SmallDivMod(x: nat, d: nat)
    requires x < d
    ensures x / d == 0 && x % d == x
  {
    DivBetween(x, d, 0);
  }
}
