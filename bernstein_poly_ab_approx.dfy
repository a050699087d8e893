/**
 * The Bernstein approximant on [a, b]: at each evaluation point, the dot
 * product of the data values with the basis on [a, b] at that point. The
 * evaluation fails where the basis evaluator or the dot product does: on a
 * degenerate interval, or on data whose length is not n + 1; with no
 * evaluation points neither is reached.
 */
module PolyAbApprox {
  import opened Algebra
  import opened Combinatorics
  import opened Poly01
  import opened PolyAb

  /** The approximant sum_k ydata[k] B(n, k) on [a, b], at x. */
  function Approximant(n: nat, a: real, b: real, ydata: seq<real>, x: real): real
    requires a != b && |ydata| == n + 1
  {
    Dot(ydata, BasisAb(n, a, b, x))
  }

  /** Degree 0: the approximant is the constant ydata[0]. */
  lemma DegreeZero(a: real, b: real, ydata: seq<real>, x: real)
    requires a != b && |ydata| == 1
    ensures Approximant(0, a, b, ydata, x) == ydata[0]
  {
    assert BasisAb(0, a, b, x)[0] == 1.0;
  }

  /** Constant data c is reproduced exactly at every point, by the partition of unity. */
  lemma ConstantData(n: nat, a: real, b: real, c: real, ydata: seq<real>, x: real)
    requires a != b && |ydata| == n + 1
    requires forall k :: 0 <= k <= n ==> ydata[k] == c
    ensures Approximant(n, a, b, ydata, x) == c
  {
    var v := BasisAb(n, a, b, x);
    SumScale(0, n + 1, c, k => At(v, k), k => At(ydata, k) * At(v, k));
    PartitionOfUnityAb(n, a, b, x);
  }

  /** The approximant is linear in the data. */
  lemma Linear(n: nat, a: real, b: real, c: real, y: seq<real>, d: real, z: seq<real>, w: seq<real>, x: real)
    requires a != b && |y| == n + 1 && |z| == n + 1 && |w| == n + 1
    requires forall k :: 0 <= k <= n ==> w[k] == c * y[k] + d * z[k]
    ensures Approximant(n, a, b, w, x) == c * Approximant(n, a, b, y, x) + d * Approximant(n, a, b, z, x)
  {
    DotLinear(c, y, d, z, w, BasisAb(n, a, b, x));
  }

  /** At x = a the approximant is the first data value, at x = b the last. */
  lemma Endpoints(n: nat, a: real, b: real, ydata: seq<real>)
    requires a != b && |ydata| == n + 1
    ensures Approximant(n, a, b, ydata, a) == ydata[0]
    ensures Approximant(n, a, b, ydata, b) == ydata[n]
  {
    var va, vb := BasisAb(n, a, b, a), BasisAb(n, a, b, b);
    forall k | 0 <= k <= n
      ensures va[k] == Delta(k, 0) && vb[k] == Delta(k, n)
    {
      EndpointsAb(n, k, a, b);
    }
    SumSingle(0, n + 1, 0, k => At(ydata, k) * At(va, k));
    SumSingle(0, n + 1, n, k => At(ydata, k) * At(vb, k));
  }

  /**
   * Between a and b the approximant stays within the range of the data:
   * it is a convex combination of the data values, with the basis values
   * as weights.
   */
  lemma Bounded(n: nat, a: real, b: real, ydata: seq<real>, x: real, lo: real, hi: real)
    requires a != b && |ydata| == n + 1
    requires a <= x <= b || b <= x <= a
    requires forall k :: 0 <= k <= n ==> lo <= ydata[k] <= hi
    ensures lo <= Approximant(n, a, b, ydata, x) <= hi
  {
    var v := BasisAb(n, a, b, x);
    forall k | 0 <= k < n + 1
      ensures At(v, k) >= 0.0
    {
      NonnegativeAb(n, k, a, b, x);
    }
    PartitionOfUnityAb(n, a, b, x);
    WeightedAverage(n + 1, k => At(ydata, k), k => At(v, k), k => At(ydata, k) * At(v, k), lo, hi);
  }

  datatype Option<T> = None | Some(value: T)

  /** Whether the evaluation at nval points fails, and why. */
  function Refusal(n: nat, a: real, b: real, ydata: seq<real>, nval: nat): (e: Option<Error>)
    ensures e.Some? <==> nval > 0 && (a == b || |ydata| != n + 1)
    ensures e == Some(DegenerateInterval) <==> nval > 0 && a == b
  {
    if nval == 0 then None
    else if a == b then Some(DegenerateInterval)
    else if |ydata| != n + 1 then Some(LengthMismatch)
    else None
  }

  /**
   * bernstein_poly_ab_approx: the approximant at each of the first nval
   * points of xval.
   */
  method BernsteinPolyAbApprox(n: nat, a: real, b: real, ydata: seq<real>, nval: nat, xval: seq<real>)
    returns (r: Result<array<real>>)
    requires nval <= |xval|
    ensures r.Failure? <==> Refusal(n, a, b, ydata, nval).Some?
    ensures r.Failure? ==> r.error == Refusal(n, a, b, ydata, nval).value
    ensures r.Success? ==> r.value.Length == nval
    ensures r.Success? && 0 < nval ==>
      (|ydata| == n + 1 && a != b &&
       forall i :: 0 <= i < nval ==> r.value[i] == Approximant(n, a, b, ydata, xval[i]))
  {
    var yval := new real[nval](_ => 0.0);
    var i := 0;
    while i < nval
      invariant 0 <= i <= nval
      invariant 0 < i ==> a != b && |ydata| == n + 1
      invariant forall j :: 0 <= j < i ==> yval[j] == Approximant(n, a, b, ydata, xval[j])
    {
      var bvec := BernsteinPolyAb(n, a, b, xval[i]);
      if bvec.Failure? {
        return Failure(bvec.error);
      }
      if |ydata| != bvec.value.Length {
        return Failure(LengthMismatch);
      }
      yval[i] := Dot(ydata, bvec.value[..]);
      i := i + 1;
    }
    return Success(yval);
  }
}
