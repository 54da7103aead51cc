/** Small arithmetic shared by the tile-geometry modules. */
module Basics {

  datatype Option<T> = None | Some(value: T)

  /** Concatenation regroups freely. */
  lemma Assoc<T>(a: seq<T>, b: seq<T>, c: seq<T>)
    ensures a + b + c == a + (b + c)
  {
  }

  /** Multiplication distributes over a sum. */
  lemma MulAdd(p: int, a: int, c: int)
    ensures p * (a + c) == p * a + p * c
  {
  }

  /** Doubling either factor doubles the product. */
  lemma MulDouble(p: int, q: int)
    ensures (2 * p) * q == p * (2 * q)
  {
  }

  /** 2^k, the value of `1 << k` for a non-negative shift. */
  function Pow2(k: nat): (p: nat)
    ensures p >= 1
  {
    if k == 0 then 1 else 2 * Pow2(k - 1)
  }

  /** `long(r)` / `int(r)` applied to a float: truncation toward zero. */
  function Trunc(r: real): (t: int)
    ensures r >= 0.0 ==> 0 <= t && t as real <= r < t as real + 1.0
    ensures r < 0.0 ==> t <= 0 && t as real - 1.0 < r <= t as real
  {
    if r >= 0.0 then r.Floor else -((-r).Floor)
  }

  lemma TruncMonotone(r1: real, r2: real)
    requires r1 <= r2
    ensures Trunc(r1) <= Trunc(r2)
  {
  }

  /** Truncating a whole number gives it back. */
  lemma TruncOfNat(n: nat)
    ensures Trunc(n as real) == n
  {
  }

  /** Multiplying by a non-negative factor preserves order. */
  lemma ScaleMonotone(a: real, b1: real, b2: real)
    requires a >= 0.0 && b1 <= b2
    ensures a * b1 <= a * b2
  {
    assert a * b2 - a * b1 == a * (b2 - b1);
  }

  /** Scaling by a non-negative factor, then truncating, preserves order. */
  lemma TruncScaleMonotone(a: real, b1: real, b2: real)
    requires a >= 0.0 && b1 <= b2
    ensures Trunc(a * b1) <= Trunc(a * b2)
  {
    var r1, r2 := a * b1, a * b2;
    ScaleMonotone(a, b1, b2);
    assert r1 <= r2;
    TruncMonotone(r1, r2);
  }

  /** Dividing by a positive divisor preserves order. */
  lemma DivMonotone(a: real, b: real, c: real)
    requires c > 0.0 && a <= b
    ensures a / c <= b / c
  {
  }

  /** Scaling to a fraction of a span and back is the identity. */
  lemma ScaleRoundTrip(n: real, d: real, span: real)
    requires n >= 1.0 && span > 0.0
    ensures (n * d / span) * (span / n) == d
    ensures n * (d * (span / n)) / span == d
  {
  }
}
