/**
 * The Bernstein basis on [0, 1] at m evaluation points at once: row i of
 * the m x (n + 1) result runs the same in-place triangular recurrence as
 * the single-point evaluator, on the point x[i], and touches no other row.
 */
module Poly01Matrix {
  import opened Algebra
  import opened Poly01
  import opened Matrices

  /** The rows of the result: row i is the degree-n basis at x[i]. */
  function BasisRows(m: nat, n: nat, x: seq<real>): (rows: seq<seq<real>>)
    requires m <= |x|
    ensures |rows| == m
    ensures forall i :: 0 <= i < m ==> rows[i] == Basis(n, x[i])
  {
    seq(m, i requires 0 <= i < m => Basis(n, x[i]))
  }

  /** For degree 0 the result is a column of ones. */
  lemma DegreeZeroColumn(m: nat, x: seq<real>)
    requires m <= |x|
    ensures forall i :: 0 <= i < m ==> BasisRows(m, 0, x)[i] == [1.0]
  {
  }

  /** Every row adds up to 1. */
  lemma RowSums(m: nat, n: nat, x: seq<real>)
    requires m <= |x|
    ensures forall i :: 0 <= i < m ==> SeqSum(BasisRows(m, n, x)[i]) == 1.0
  {
    forall i | 0 <= i < m
      ensures SeqSum(BasisRows(m, n, x)[i]) == 1.0
    {
      PartitionOfUnitySeq(n, x[i]);
    }
  }

  /** A row at the point 0 is e_0, a row at the point 1 is e_n. */
  lemma EndpointRows(m: nat, n: nat, x: seq<real>, i: nat)
    requires m <= |x| && i < m
    ensures x[i] == 0.0 ==> forall k :: 0 <= k <= n ==> BasisRows(m, n, x)[i][k] == Delta(k, 0)
    ensures x[i] == 1.0 ==> forall k :: 0 <= k <= n ==> BasisRows(m, n, x)[i][k] == Delta(k, n)
  {
    forall k | 0 <= k <= n
      ensures x[i] == 0.0 ==> BasisRows(m, n, x)[i][k] == Delta(k, 0)
      ensures x[i] == 1.0 ==> BasisRows(m, n, x)[i][k] == Delta(k, n)
    {
      AtZero(n, k);
      AtOne(n, k);
    }
  }

  /**
   * bernstein_poly_01_matrix: the m x (n + 1) array whose row i holds the
   * n + 1 basis values at x[i].
   */
  method BernsteinPoly01Matrix(m: nat, n: nat, x: seq<real>) returns (b: array2<real>)
    requires m <= |x|
    ensures b.Length0 == m && b.Length1 == n + 1
    ensures Contents(b) == BasisRows(m, n, x)
  {
    b := new real[m, n + 1]((_, _) => 0.0);
    var i := 0;
    while i < m
      invariant 0 <= i <= m
      invariant forall r, k :: 0 <= r < i && 0 <= k <= n ==> b[r, k] == Bernstein(n, k, x[r])
    {
      FillRow(b, i, n, x[i]);
      i := i + 1;
    }
    forall r | 0 <= r < m
      ensures Contents(b)[r] == Basis(n, x[r])
    {
    }
  }

  /** One pass of the outer loop: row i becomes the degree-n basis at t. */
  method FillRow(b: array2<real>, i: nat, n: nat, t: real)
    requires i < b.Length0 && b.Length1 == n + 1
    modifies b
    ensures forall k :: 0 <= k <= n ==> b[i, k] == Bernstein(n, k, t)
    ensures forall r, k :: 0 <= r < b.Length0 && r != i && 0 <= k <= n ==> b[r, k] == old(b[r, k])
  {
    if n == 0 {
      b[i, 0] := 1.0;
    } else {
      b[i, 0] := 1.0 - t;
      b[i, 1] := t;
      BlendLow(t, Bernstein(0, 0, t));
      BlendHigh(t, Bernstein(0, 0, t));
      var j := 2;
      while j <= n
        invariant 2 <= j <= n + 1
        invariant forall k :: 0 <= k < j ==> b[i, k] == Bernstein(j - 1, k, t)
        invariant forall r, k :: 0 <= r < b.Length0 && r != i && 0 <= k <= n ==> b[r, k] == old(b[r, k])
      {
        RaiseRowDegree(b, i, j, t);
        j := j + 1;
      }
    }
  }

  /** One degree step on row i: slots 0..j-1 of degree j - 1 become slots 0..j of degree j. */
  method RaiseRowDegree(b: array2<real>, i: nat, j: nat, t: real)
    requires i < b.Length0 && 1 <= j < b.Length1
    requires forall k :: 0 <= k < j ==> b[i, k] == Bernstein(j - 1, k, t)
    modifies b
    ensures forall k :: 0 <= k <= j ==> b[i, k] == Bernstein(j, k, t)
    ensures forall r, k :: 0 <= r < b.Length0 && 0 <= k < b.Length1 && (r != i || k > j) ==> b[r, k] == old(b[r, k])
  {
    var u := b[i, j - 1];
    BlendHigh(t, u);
    b[i, j] := t * u;
    var k := j - 1;
    while k > 0
      invariant 0 <= k <= j - 1
      invariant forall l :: 0 <= l <= k ==> b[i, l] == Bernstein(j - 1, l, t)
      invariant forall l :: k < l <= j ==> b[i, l] == Bernstein(j, l, t)
      invariant forall r, l :: 0 <= r < b.Length0 && 0 <= l < b.Length1 && (r != i || l > j) ==> b[r, l] == old(b[r, l])
    {
      var lower, here := b[i, k - 1], b[i, k];
      b[i, k] := Blend(t, lower, here);
      k := k - 1;
    }
    var v := b[i, 0];
    BlendLow(t, v);
    b[i, 0] := (1.0 - t) * v;
  }
}
