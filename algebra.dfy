/**
 * Exact finite sums, products and powers over `real`, with the handful of
 * rewriting lemmas (extensionality, splitting, shifting, reversal, scaling)
 * that the Bernstein identities are proved with.
 */
module Algebra {

  /** Sum of f(k) for lo <= k < hi (0 when the range is empty). */
  function Sum(lo: int, hi: int, f: int -> real): real
    decreases hi - lo
  {
    if hi <= lo then 0.0 else Sum(lo, hi - 1, f) + f(hi - 1)
  }

  /** Product of f(k) for lo <= k < hi (1 when the range is empty). */
  function Product(lo: int, hi: int, f: int -> real): real
    decreases hi - lo
  {
    if hi <= lo then 1.0 else Scale(Product(lo, hi - 1, f), f(hi - 1))
  }


  /** The element of s at k, or 0 outside s. */
  function At(s: seq<real>, k: int): real
  {
    if 0 <= k < |s| then s[k] else 0.0
  }

  /** Sum of the entries of s. */
  function SeqSum(s: seq<real>): real
  {
    Sum(0, |s|, k => At(s, k))
  }

  /** Dot product of two vectors of equal length (numpy's `dot` on 1-D arrays). */
  function Dot(u: seq<real>, v: seq<real>): real
    requires |u| == |v|
  {
    Sum(0, |u|, k => At(u, k) * At(v, k))
  }

  /**
   * The product c v as a named operation: the recurrences below scale one
   * value at a time, and naming the step keeps equal factors giving equal
   * products without ring normalisation.
   */
  function Scale(c: real, v: real): real
  {
    c * v
  }

  /** x squared, the library's `x ** 2`; named for the same reason as Scale. */
  function Square(x: real): real
  {
    x * x
  }

  /** x raised to the natural power k. */
  function Pow(x: real, k: nat): real
  {
    if k == 0 then 1.0 else Scale(x, Pow(x, k - 1))
  }

  /** The two-point blend x u + (1 - x) v: one step of the Bernstein recurrence. */
  function Blend(x: real, u: real, v: real): real
  {
    x * u + (1.0 - x) * v
  }

  /** Kronecker delta: the entries of the identity matrix. */
  function Delta(i: int, j: int): real
  {
    if i == j then 1.0 else 0.0
  }

  // ---------------------------------------------------------------------
  // Sums

  lemma {:induction false} SumExt(lo: int, hi: int, f: int -> real, g: int -> real)
    requires forall k :: lo <= k < hi ==> f(k) == g(k)
    ensures Sum(lo, hi, f) == Sum(lo, hi, g)
    decreases hi - lo
  {
    if lo < hi {
      SumExt(lo, hi - 1, f, g);
    }
  }

  lemma {:induction false} SumZero(lo: int, hi: int, f: int -> real)
    requires forall k :: lo <= k < hi ==> f(k) == 0.0
    ensures Sum(lo, hi, f) == 0.0
    decreases hi - lo
  {
    if lo < hi {
      SumZero(lo, hi - 1, f);
    }
  }

  lemma {:induction false} SumSplit(lo: int, mid: int, hi: int, f: int -> real)
    requires lo <= mid <= hi
    ensures Sum(lo, hi, f) == Sum(lo, mid, f) + Sum(mid, hi, f)
    decreases hi - mid
  {
    if mid < hi {
      SumSplit(lo, mid, hi - 1, f);
    }
  }

  /** A sum over a range equals the sum over any sub-range outside which f vanishes. */
  lemma SumSupport(lo: int, hi: int, lo': int, hi': int, f: int -> real)
    requires lo <= lo' <= hi' <= hi
    requires forall k :: lo <= k < lo' ==> f(k) == 0.0
    requires forall k :: hi' <= k < hi ==> f(k) == 0.0
    ensures Sum(lo, hi, f) == Sum(lo', hi', f)
  {
    SumSplit(lo, lo', hi, f);
    SumSplit(lo', hi', hi, f);
    SumZero(lo, lo', f);
    SumZero(hi', hi, f);
  }

  /** A sum whose terms all vanish except the one at k0. */
  lemma SumSingle(lo: int, hi: int, k0: int, f: int -> real)
    requires lo <= k0 < hi
    requires forall k :: lo <= k < hi && k != k0 ==> f(k) == 0.0
    ensures Sum(lo, hi, f) == f(k0)
  {
    SumSupport(lo, hi, k0, k0 + 1, f);
  }

  lemma {:induction false} SumLinear(lo: int, hi: int, c: real, f: int -> real, d: real, g: int -> real, h: int -> real)
    requires forall k :: lo <= k < hi ==> h(k) == c * f(k) + d * g(k)
    ensures Sum(lo, hi, h) == c * Sum(lo, hi, f) + d * Sum(lo, hi, g)
    decreases hi - lo
  {
    if lo < hi {
      SumLinear(lo, hi - 1, c, f, d, g, h);
      var sf, sg := Sum(lo, hi - 1, f), Sum(lo, hi - 1, g);
      calc {
        Sum(lo, hi, h);
        c * sf + d * sg + h(hi - 1);
        c * (sf + f(hi - 1)) + d * (sg + g(hi - 1));
      }
    }
  }

  lemma SumScale(lo: int, hi: int, c: real, f: int -> real, h: int -> real)
    requires forall k :: lo <= k < hi ==> h(k) == c * f(k)
    ensures Sum(lo, hi, h) == c * Sum(lo, hi, f)
  {
    SumLinear(lo, hi, c, f, 0.0, f, h);
  }

  /** Sums are monotone in their terms. */
  lemma {:induction false} SumMonotone(lo: int, hi: int, f: int -> real, g: int -> real)
    requires forall k :: lo <= k < hi ==> f(k) <= g(k)
    ensures Sum(lo, hi, f) <= Sum(lo, hi, g)
    decreases hi - lo
  {
    if lo < hi {
      SumMonotone(lo, hi - 1, f, g);
    }
  }

  /** A weighted average, with non-negative weights t summing to 1, stays within the bounds of the values y. */
  lemma WeightedAverage(m: int, y: int -> real, t: int -> real, w: int -> real, lo: real, hi: real)
    requires forall k :: 0 <= k < m ==> t(k) >= 0.0 && lo <= y(k) <= hi && w(k) == y(k) * t(k)
    requires Sum(0, m, t) == 1.0
    ensures lo <= Sum(0, m, w) <= hi
  {
    forall k | 0 <= k < m
      ensures lo * t(k) <= w(k) <= hi * t(k)
    {
      BoundedTerm(lo, hi, y(k), t(k));
    }
    ScaledSumBelow(m, lo, t, w);
    ScaledSumAbove(m, hi, t, w);
  }

  /** Termwise c t(k) <= w(k) gives c Sum(t) <= Sum(w). */
  lemma ScaledSumBelow(m: int, c: real, t: int -> real, w: int -> real)
    requires forall k :: 0 <= k < m ==> c * t(k) <= w(k)
    ensures c * Sum(0, m, t) <= Sum(0, m, w)
  {
    var g := k => c * t(k);
    SumMonotone(0, m, g, w);
    SumScale(0, m, c, t, g);
  }

  /** Termwise w(k) <= c t(k) gives Sum(w) <= c Sum(t). */
  lemma ScaledSumAbove(m: int, c: real, t: int -> real, w: int -> real)
    requires forall k :: 0 <= k < m ==> w(k) <= c * t(k)
    ensures Sum(0, m, w) <= c * Sum(0, m, t)
  {
    var g := k => c * t(k);
    SumMonotone(0, m, w, g);
    SumScale(0, m, c, t, g);
  }

  lemma BoundedTerm(lo: real, hi: real, y: real, t: real)
    requires t >= 0.0 && lo <= y <= hi
    ensures lo * t <= y * t <= hi * t
  {
  }

  /** Re-indexing a sum by a constant offset s. */
  lemma {:induction false} SumShift(lo: int, hi: int, s: int, f: int -> real, g: int -> real)
    requires forall k :: lo <= k < hi ==> g(k + s) == f(k)
    ensures Sum(lo, hi, f) == Sum(lo + s, hi + s, g)
    decreases hi - lo
  {
    if lo < hi {
      SumShift(lo, hi - 1, s, f, g);
    }
  }

  /** A sum whose terms, read backwards, are p times those of another is p times that sum. */
  lemma SumReflect(m: int, p: real, f: int -> real, g: int -> real)
    requires forall k :: 0 <= k < m ==> g(m - 1 - k) == p * f(k)
    ensures Sum(0, m, g) == p * Sum(0, m, f)
  {
    var h := k => g(m - 1 - k);
    SumReverse(m, g, h);
    SumScale(0, m, p, f, h);
  }

  /** Summing in the opposite order: k runs over 0..n-1 as n-1-k does. */
  lemma {:induction false} SumReverse(n: int, f: int -> real, g: int -> real)
    requires forall k :: 0 <= k < n ==> g(k) == f(n - 1 - k)
    ensures Sum(0, n, f) == Sum(0, n, g)
    decreases n
  {
    if 0 < n {
      var g' := k => g(k + 1);
      SumReverse(n - 1, f, g');
      SumShift(0, n - 1, 1, g', g);
      SumSplit(0, 1, n, g);
    }
  }

  lemma BlendAdd(x: real, u1: real, v1: real, u2: real, v2: real)
    ensures Blend(x, u1, v1) + Blend(x, u2, v2) == Blend(x, u1 + u2, v1 + v2)
  {
  }

  /** Blending a sum termwise is blending the two sums. */
  lemma {:induction false} SumBlend(lo: int, hi: int, x: real, f: int -> real, g: int -> real, h: int -> real)
    requires forall k :: lo <= k < hi ==> h(k) == Blend(x, f(k), g(k))
    ensures Sum(lo, hi, h) == Blend(x, Sum(lo, hi, f), Sum(lo, hi, g))
    decreases hi - lo
  {
    if lo < hi {
      SumBlend(lo, hi - 1, x, f, g, h);
      BlendAdd(x, Sum(lo, hi - 1, f), Sum(lo, hi - 1, g), f(hi - 1), g(hi - 1));
    }
  }

  /** The dot product is linear in its first argument. */
  lemma DotLinear(c: real, y: seq<real>, d: real, z: seq<real>, w: seq<real>, v: seq<real>)
    requires |y| == |v| && |z| == |v| && |w| == |v|
    requires forall k :: 0 <= k < |w| ==> w[k] == c * y[k] + d * z[k]
    ensures Dot(w, v) == c * Dot(y, v) + d * Dot(z, v)
  {
    forall k | 0 <= k < |v|
      ensures At(w, k) * At(v, k) == c * (At(y, k) * At(v, k)) + d * (At(z, k) * At(v, k))
    {
      LinearTerm(At(w, k), c, At(y, k), d, At(z, k), At(v, k));
    }
    SumLinear(0, |v|, c, k => At(y, k) * At(v, k), d, k => At(z, k) * At(v, k), k => At(w, k) * At(v, k));
  }

  lemma LinearTerm(w: real, c: real, y: real, d: real, z: real, v: real)
    requires w == c * y + d * z
    ensures w * v == c * (y * v) + d * (z * v)
  {
  }

  // ---------------------------------------------------------------------
  // Products

  lemma {:induction false} ProductExt(lo: int, hi: int, f: int -> real, g: int -> real)
    requires forall k :: lo <= k < hi ==> f(k) == g(k)
    ensures Product(lo, hi, f) == Product(lo, hi, g)
    decreases hi - lo
  {
    if lo < hi {
      ProductExt(lo, hi - 1, f, g);
    }
  }

  /** A product of positive factors is positive. */
  lemma {:induction false} ProductPositive(lo: int, hi: int, f: int -> real)
    requires forall k :: lo <= k < hi ==> f(k) > 0.0
    ensures Product(lo, hi, f) > 0.0
    decreases hi - lo
  {
    if lo < hi {
      ProductPositive(lo, hi - 1, f);
    }
  }

  // ---------------------------------------------------------------------
  // Powers

  lemma {:induction false} PowAdd(x: real, j: nat, k: nat)
    ensures Pow(x, j + k) == Scale(Pow(x, j), Pow(x, k))
    decreases j
  {
    if j > 0 {
      PowAdd(x, j - 1, k);
      ScaleAssociative(x, Pow(x, j - 1), Pow(x, k));
    }
  }

  lemma ScaleAssociative(a: real, b: real, c: real)
    ensures Scale(a, Scale(b, c)) == Scale(Scale(a, b), c)
  {
  }
}
