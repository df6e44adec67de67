/** Small shared vocabulary used by every other module of the model:
    an optional value, integer minimum/maximum, sums and counts over
    sequences, and the unsigned 32-bit conversion C performs when an
    `int` is stored into an `unsigned int`. */
module Common {

  /** The conventional optional value: `None` stands for Python's `None`
      and for C's NULL pointer. */
  datatype Option<+T> = None | Some(value: T)

  function Min(a: int, b: int): int {
    if a <= b then a else b
  }

  function Max(a: int, b: int): int {
    if a >= b then a else b
  }

  function MinReal(a: real, b: real): real {
    if a <= b then a else b
  }

  function MaxReal(a: real, b: real): real {
    if a >= b then a else b
  }

  /** `max(lo, min(hi, x))`. */
  function ClampReal(x: real, lo: real, hi: real): real {
    MaxReal(lo, MinReal(hi, x))
  }

  const TwoTo32: int := 0x1_0000_0000

  /** The value C stores when an `int` is assigned to an `unsigned int`. */
  function U32(x: int): nat {
    x % TwoTo32
  }

  /** Sum of a sequence of integers, folded from the right end. */
  function Sum(s: seq<int>): int {
    if |s| == 0 then 0 else Sum(s[..|s| - 1]) + s[|s| - 1]
  }

  /** A sequence of `n` copies of `x`. */
  function Repeat<T>(x: T, n: nat): seq<T> {
    if n == 0 then [] else Repeat(x, n - 1) + [x]
  }

  lemma {:induction false} RepeatFacts<T>(x: T, n: nat)
    ensures |Repeat(x, n)| == n
    ensures forall i :: 0 <= i < n ==> Repeat(x, n)[i] == x
  {
    if n > 0 {
      RepeatFacts(x, n - 1);
    }
  }

  /** Everything of `s` except its element at position `i`. */
  function RemoveAt<T>(s: seq<T>, i: nat): seq<T>
    requires i < |s|
  {
    s[..i] + s[i + 1..]
  }

  /** All elements of a sequence are pairwise different. */
  predicate Distinct<T(==)>(s: seq<T>) {
    forall i, j :: 0 <= i < j < |s| ==> s[i] != s[j]
  }

  /** The position of `x` in `s`, which must occur in it. */
  function IndexOf<T(==)>(s: seq<T>, x: T): (i: nat)
    requires x in s
    ensures i < |s| && s[i] == x
    ensures forall j :: 0 <= j < i ==> s[j] != x
  {
    if s[0] == x then 0 else 1 + IndexOf(s[1..], x)
  }

  /** `int(x)` on a float: truncation toward zero. */
  function Trunc(x: real): (r: int)
    ensures x >= 0.0 ==> 0 <= r && r as real <= x < r as real + 1.0
    ensures x < 0.0 ==> r <= 0 && r as real - 1.0 < x <= r as real
  {
    if x >= 0.0 then x.Floor else -((-x).Floor)
  }

  /** Python's `x % n` for a positive `n` near the ends of [0, n): -1 wraps
      to the last index, n to 0, and anything in between is unchanged. */
  lemma ModCases(x: int, n: int)
    requires n > 0
    ensures x == -1 ==> x % n == n - 1
    ensures 0 <= x < n ==> x % n == x
    ensures x == n ==> x % n == 0
  {
  }
}
