/**
 * The Bernstein basis on an arbitrary interval [a, b]. The evaluator runs
 * the same in-place triangular recurrence as on [0, 1], with the weights
 * (b - x) / (b - a) and (x - a) / (b - a); it refuses a degenerate interval
 * a == b before any division. The basis is shown to be the unit-interval
 * basis at the rescaled point (x - a) / (b - a), from which the partition
 * of unity, the sign and the endpoint values follow.
 */
module PolyAb {
  import opened Algebra
  import opened Combinatorics
  import opened Poly01

  /** Why an evaluation was refused. */
  datatype Error = DegenerateInterval | LengthMismatch

  datatype Result<T> = Success(value: T) | Failure(error: Error)

  /** One step of the recurrence on [a, b]: u is the lower neighbour, v the slot itself. */
  function Weighted(a: real, b: real, x: real, u: real, v: real): real
    requires a != b
  {
    ((b - x) * v + (x - a) * u) / (b - a)
  }

  /**
   * The k-th Bernstein polynomial of degree n on [a, b] at x (0 for k
   * outside 0..n). For x between a and b both weights lie in [0, 1], so no
   * value exceeds 1.
   */
  function BernsteinAb(n: nat, k: int, a: real, b: real, x: real): (r: real)
    requires a != b
    ensures (a <= x <= b || b <= x <= a) ==> r <= 1.0
    decreases n
  {
    if k < 0 || k > n then 0.0
    else if n == 0 then 1.0
    else
      var u, v := BernsteinAb(n - 1, k - 1, a, b, x), BernsteinAb(n - 1, k, a, b, x);
      WeightedAtMostOne(a, b, x, u, v);
      Weighted(a, b, x, u, v)
  }

  /** Between a and b one step of the recurrence keeps values at most 1. */
  lemma WeightedAtMostOne(a: real, b: real, x: real, u: real, v: real)
    requires a != b
    ensures (a <= x <= b || b <= x <= a) && u <= 1.0 && v <= 1.0 ==> Weighted(a, b, x, u, v) <= 1.0
  {
    if (a <= x <= b || b <= x <= a) && u <= 1.0 && v <= 1.0 {
      WeightedIsBlend(a, b, x, u, v);
      UnitPointBetween(a, b, x);
      BlendAtMostOne(UnitPoint(a, b, x), u, v);
    }
  }

  /** The vector of all n + 1 basis values on [a, b] at x. */
  function BasisAb(n: nat, a: real, b: real, x: real): (v: seq<real>)
    requires a != b
    ensures |v| == n + 1
    ensures forall k :: 0 <= k <= n ==> v[k] == BernsteinAb(n, k, a, b, x)
  {
    seq(n + 1, k => BernsteinAb(n, k, a, b, x))
  }

  /** The point of [0, 1] that x occupies in [a, b]. */
  function UnitPoint(a: real, b: real, x: real): real
    requires a != b
  {
    (x - a) / (b - a)
  }

  /** The weights of one step are the blend weights at the rescaled point. */
  lemma WeightedIsBlend(a: real, b: real, x: real, u: real, v: real)
    requires a != b
    ensures Weighted(a, b, x, u, v) == Blend(UnitPoint(a, b, x), u, v)
  {
    var s, t := b - a, UnitPoint(a, b, x);
    assert t * s == x - a;
    assert (1.0 - t) * s == b - x;
    assert Blend(t, u, v) * s == (b - x) * v + (x - a) * u;
  }

  /** The complementary weight: 1 - (x - a) / (b - a) = (b - x) / (b - a). */
  lemma ComplementPoint(a: real, b: real, x: real)
    requires a != b
    ensures 1.0 - UnitPoint(a, b, x) == (b - x) / (b - a)
  {
    var s, t, r := b - a, UnitPoint(a, b, x), (b - x) / (b - a);
    assert t * s == x - a;
    assert r * s == b - x;
    var e := 1.0 - t - r;
    assert e * s == 0.0;
    assert e == e * s / s;
  }

  /** Affine invariance: the basis on [a, b] at x is the unit basis at (x - a) / (b - a). */
  lemma {:induction false} AffineInvariance(n: nat, k: int, a: real, b: real, x: real)
    requires a != b
    ensures BernsteinAb(n, k, a, b, x) == Bernstein(n, k, UnitPoint(a, b, x))
  {
    if 0 <= k <= n && n > 0 {
      AffineInvariance(n - 1, k - 1, a, b, x);
      AffineInvariance(n - 1, k, a, b, x);
      WeightedIsBlend(a, b, x, BernsteinAb(n - 1, k - 1, a, b, x), BernsteinAb(n - 1, k, a, b, x));
    }
  }

  /** Two intervals and points with the same relative position give the same basis values. */
  lemma SameRelativePosition(n: nat, k: int, a1: real, b1: real, x1: real, a2: real, b2: real, x2: real)
    requires a1 != b1 && a2 != b2
    requires UnitPoint(a1, b1, x1) == UnitPoint(a2, b2, x2)
    ensures BernsteinAb(n, k, a1, b1, x1) == BernsteinAb(n, k, a2, b2, x2)
  {
    AffineInvariance(n, k, a1, b1, x1);
    AffineInvariance(n, k, a2, b2, x2);
  }

  /** On [0, 1] the two evaluators agree. */
  lemma UnitInterval(n: nat, k: int, x: real)
    ensures BernsteinAb(n, k, 0.0, 1.0, x) == Bernstein(n, k, x)
  {
    AffineInvariance(n, k, 0.0, 1.0, x);
    assert UnitPoint(0.0, 1.0, x) == x;
  }

  /** Partition of unity on [a, b], for every real x. */
  lemma PartitionOfUnityAb(n: nat, a: real, b: real, x: real)
    requires a != b
    ensures SeqSum(BasisAb(n, a, b, x)) == 1.0
  {
    var t := UnitPoint(a, b, x);
    forall k | 0 <= k <= n
      ensures At(BasisAb(n, a, b, x), k) == At(Basis(n, t), k)
    {
      AffineInvariance(n, k, a, b, x);
    }
    SumExt(0, n + 1, k => At(BasisAb(n, a, b, x), k), k => At(Basis(n, t), k));
    PartitionOfUnitySeq(n, t);
  }

  /** A point between a and b (in either order) sits in [0, 1] after rescaling. */
  lemma UnitPointBetween(a: real, b: real, x: real)
    requires a != b
    requires a <= x <= b || b <= x <= a
    ensures 0.0 <= UnitPoint(a, b, x) <= 1.0
  {
    if a < b {
      FractionBounds(x - a, b - a);
    } else {
      assert UnitPoint(a, b, x) == (a - x) / (a - b);
      FractionBounds(a - x, a - b);
    }
  }

  lemma FractionBounds(p: real, s: real)
    requires s > 0.0 && 0.0 <= p <= s
    ensures 0.0 <= p / s <= 1.0
  {
    assert p / s * s == p;
  }

  /** Between a and b every basis value is non-negative. */
  lemma NonnegativeAb(n: nat, k: int, a: real, b: real, x: real)
    requires a != b
    requires a <= x <= b || b <= x <= a
    ensures BernsteinAb(n, k, a, b, x) >= 0.0
  {
    UnitPointBetween(a, b, x);
    AffineInvariance(n, k, a, b, x);
    Nonnegative(n, k, UnitPoint(a, b, x));
  }

  /** At x = a the basis is e_0, at x = b it is e_n. */
  lemma EndpointsAb(n: nat, k: int, a: real, b: real)
    requires a != b
    ensures BernsteinAb(n, k, a, b, a) == Delta(k, 0)
    ensures BernsteinAb(n, k, a, b, b) == Delta(k, n)
  {
    AffineInvariance(n, k, a, b, a);
    AffineInvariance(n, k, a, b, b);
    UnitPointEnds(a, b);
    AtZero(n, k);
    AtOne(n, k);
  }

  lemma UnitPointEnds(a: real, b: real)
    requires a != b
    ensures UnitPoint(a, b, a) == 0.0 && UnitPoint(a, b, b) == 1.0
  {
    Quotients(b - a, a - a);
  }

  lemma Quotients(d: real, z: real)
    requires d != 0.0 && z == 0.0
    ensures d / d == 1.0 && z / d == 0.0
  {
  }

  /**
   * The documented closed form C(n, k) (b - x)^(n - k) (x - a)^k / (b - a)^n,
   * stated with the denominator multiplied out.
   */
  lemma ClosedFormAb(n: nat, k: nat, a: real, b: real, x: real)
    requires a != b && k <= n
    ensures Scale(BernsteinAb(n, k, a, b, x), Pow(b - a, n))
         == Scale(RChoose(n, k), Scale(Pow(b - x, n - k), Pow(x - a, k)))
  {
    var s, t := b - a, UnitPoint(a, b, x);
    AffineInvariance(n, k, a, b, x);
    ClosedForm(n, k, t);
    ComplementPoint(a, b, x);
    PowQuotient(b - x, s, n - k);
    PowQuotient(x - a, s, k);
    PowAdd(s, n - k, k);
    ClearDenominator(RChoose(n, k), Pow(1.0 - t, n - k), Pow(t, k), Pow(s, n - k), Pow(s, k),
      BernsteinAb(n, k, a, b, x), Pow(s, n), Pow(b - x, n - k), Pow(x - a, k));
  }

  /** (p / q)^k q^k = p^k. */
  lemma {:induction false} PowQuotient(p: real, q: real, k: nat)
    requires q != 0.0
    ensures Scale(Pow(p / q, k), Pow(q, k)) == Pow(p, k)
  {
    if k > 0 {
      PowQuotient(p, q, k - 1);
      QuotientStep(p, q, Pow(p / q, k - 1), Pow(q, k - 1), Pow(p, k - 1));
    }
  }

  lemma QuotientStep(p: real, q: real, u: real, v: real, w: real)
    requires q != 0.0 && Scale(u, v) == w
    ensures Scale(Scale(p / q, u), Scale(q, v)) == Scale(p, w)
  {
    assert p / q * q == p;
  }

  /** The ring identity that multiplies the denominators of the closed form out. */
  lemma ClearDenominator(c: real, p1: real, p2: real, q1: real, q2: real,
                         v: real, q: real, r1: real, r2: real)
    requires v == Scale(c, Scale(p1, p2)) && q == Scale(q1, q2)
    requires Scale(p1, q1) == r1 && Scale(p2, q2) == r2
    ensures Scale(v, q) == Scale(c, Scale(r1, r2))
  {
  }

  lemma WeightedLow(a: real, b: real, x: real, v: real)
    requires a != b
    ensures Weighted(a, b, x, 0.0, v) == (b - x) * v / (b - a)
  {
  }

  lemma WeightedHigh(a: real, b: real, x: real, u: real)
    requires a != b
    ensures Weighted(a, b, x, u, 0.0) == (x - a) * u / (b - a)
  {
  }

  /**
   * bernstein_poly_ab: the n + 1 basis values on [a, b] at x, or the
   * degenerate-interval error when a == b.
   */
  method BernsteinPolyAb(n: nat, a: real, b: real, x: real) returns (r: Result<array<real>>)
    ensures r.Failure? <==> a == b
    ensures r.Failure? ==> r.error == DegenerateInterval
    ensures r.Success? ==> r.value.Length == n + 1 && r.value[..] == BasisAb(n, a, b, x)
    ensures r.Success? && n == 0 ==> r.value[..] == [1.0]
  {
    if b == a {
      return Failure(DegenerateInterval);
    }
    var p := new real[n + 1](_ => 0.0);
    if n == 0 {
      p[0] := 1.0;
    } else {
      WeightedLow(a, b, x, 1.0);
      WeightedHigh(a, b, x, 1.0);
      p[0] := (b - x) / (b - a);
      p[1] := (x - a) / (b - a);
      var i := 2;
      while i <= n
        invariant 2 <= i <= n + 1
        invariant forall k :: 0 <= k < i ==> p[k] == BernsteinAb(i - 1, k, a, b, x)
        invariant forall k :: i <= k <= n ==> p[k] == 0.0
      {
        RaiseDegreeAb(p, i, a, b, x);
        i := i + 1;
      }
    }
    assert p[..] == BasisAb(n, a, b, x);
    return Success(p);
  }

  /** One pass of the outer loop on [a, b]: degree i - 1 in slots 0..i-1 becomes degree i in 0..i. */
  method RaiseDegreeAb(p: array<real>, i: nat, a: real, b: real, x: real)
    requires a != b
    requires 1 <= i < p.Length
    requires forall k :: 0 <= k < i ==> p[k] == BernsteinAb(i - 1, k, a, b, x)
    modifies p
    ensures forall k :: 0 <= k <= i ==> p[k] == BernsteinAb(i, k, a, b, x)
    ensures forall k :: i < k < p.Length ==> p[k] == old(p[k])
  {
    EdgesAb(i, a, b, x);
    var u := p[i - 1];
    WeightedHigh(a, b, x, u);
    p[i] := (x - a) * u / (b - a);
    SweepAb(p, i, a, b, x);
    var v := p[0];
    WeightedLow(a, b, x, v);
    p[0] := (b - x) * v / (b - a);
  }

  /** The two ends of a row of the recurrence, where one neighbour lies outside the row. */
  lemma EdgesAb(i: nat, a: real, b: real, x: real)
    requires a != b && i >= 1
    ensures BernsteinAb(i, i, a, b, x) == Weighted(a, b, x, BernsteinAb(i - 1, i - 1, a, b, x), 0.0)
    ensures BernsteinAb(i, 0, a, b, x) == Weighted(a, b, x, 0.0, BernsteinAb(i - 1, 0, a, b, x))
  {
  }

  /** The inner loop: slots i - 1 down to 1 move from degree i - 1 to degree i. */
  method SweepAb(p: array<real>, i: nat, a: real, b: real, x: real)
    requires a != b
    requires 1 <= i < p.Length
    requires forall k :: 0 <= k < i ==> p[k] == BernsteinAb(i - 1, k, a, b, x)
    requires p[i] == BernsteinAb(i, i, a, b, x)
    modifies p
    ensures p[0] == BernsteinAb(i - 1, 0, a, b, x)
    ensures forall k :: 0 < k <= i ==> p[k] == BernsteinAb(i, k, a, b, x)
    ensures forall k :: i < k < p.Length ==> p[k] == old(p[k])
  {
    var j := i - 1;
    while j > 0
      invariant 0 <= j <= i - 1
      invariant forall k :: 0 <= k <= j ==> p[k] == BernsteinAb(i - 1, k, a, b, x)
      invariant forall k :: j < k <= i ==> p[k] == BernsteinAb(i, k, a, b, x)
      invariant forall k :: i < k < p.Length ==> p[k] == old(p[k])
    {
      p[j] := Weighted(a, b, x, p[j - 1], p[j]);
      j := j - 1;
    }
  }
}
