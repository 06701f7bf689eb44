/**
 The store conversion of a `Uint8ClampedArray`.

 Every assignment into `ImageData.data` converts the stored number with
 ToUint8Clamp (ECMA-262, 2023 edition, section 7.1.12): values at or below 0
 become 0, values at or above 255 become 255, and everything in between is
 rounded to the nearest integer, a tie going to the even neighbour.

 Numbers are modelled as exact `real`s: there is no NaN and no IEEE-754
 rounding of the products computed before the store.
 */
module Uint8Clamp {

  /** A value one element of a `Uint8ClampedArray` can hold. */
  type Byte = x: int | 0 <= x <= 255

  /** `Math.min` on two (non-NaN) numbers. */
  function Min(a: real, b: real): real {
    if a <= b then a else b
  }

  /** `Math.max` on two (non-NaN) numbers. */
  function Max(a: real, b: real): real {
    if a >= b then a else b
  }

  function Abs(x: real): real {
    if x < 0.0 then -x else x
  }

  /** How far the integer `n` lies from `x`. */
  function Dist(n: int, x: real): real {
    Abs(n as real - x)
  }

  /** ToUint8Clamp: clamp to [0,255], then round half to even. */
  function Clamp8(x: real): (r: Byte)
    ensures x <= 0.0 ==> r == 0
    ensures x >= 255.0 ==> r == 255
    ensures 0.0 <= x <= 255.0 ==> Dist(r, x) <= 0.5
    ensures 0.0 <= x <= 255.0 && Dist(r, x) == 0.5 ==> r % 2 == 0
  {
    if x <= 0.0 then 0
    else if x >= 255.0 then 255
    else
      var f := x.Floor;
      if f as real + 0.5 < x then f + 1
      else if x < f as real + 0.5 then f
      else if f % 2 == 1 then f + 1
      else f
  }

  /** Inside [0,255] no byte is closer to `x` than the one ToUint8Clamp picks. */
  lemma Clamp8Nearest(x: real, n: Byte)
    requires 0.0 <= x <= 255.0
    ensures Dist(Clamp8(x), x) <= Dist(n, x)
  {
    var f := x.Floor;
    if n <= f {
      assert n as real <= f as real <= x;
    } else {
      assert x < f as real + 1.0 <= n as real;
    }
  }

  /** The conditions of `Clamp8`'s contract single out its result: a byte
      that is nearest to `x` and, on a tie, even, is `Clamp8(x)`. */
  lemma Clamp8Unique(x: real, n: Byte)
    requires 0.0 <= x <= 255.0
    requires forall m: Byte :: Dist(n, x) <= Dist(m, x)
    requires Dist(n, x) == 0.5 ==> n % 2 == 0
    ensures n == Clamp8(x)
  {
    assert Dist(n, x) <= Dist(Clamp8(x), x);
  }

  /** A byte is stored unchanged. */
  lemma Clamp8OfByte(n: Byte)
    ensures Clamp8(n as real) == n
  {
  }

  /** ToUint8Clamp never reverses the order of two numbers. */
  lemma Clamp8Monotone(x: real, y: real)
    requires x <= y
    ensures Clamp8(x) <= Clamp8(y)
  {
    if 0.0 < x && y < 255.0 {
      var fx, fy := x.Floor, y.Floor;
      assert fx <= fy;
      if fx == fy {
        assert x <= y;
      }
    }
  }

  /** Exact halves in [0,255] round to the even neighbour. */
  lemma Clamp8Tie(n: int)
    requires 0 <= n < 255
    ensures Clamp8(n as real + 0.5) == if n % 2 == 0 then n else n + 1
  {
    assert (n as real + 0.5).Floor == n;
  }
}
