/**
 * The Bernstein Vandermonde matrix of order n: row i holds the n Bernstein
 * polynomials of degree n - 1 at the node i / (n - 1). Order 1, where that
 * node is undefined, is the 1 x 1 matrix [[1]].
 */
module BVandermonde {
  import opened Algebra
  import opened Poly01
  import opened Matrices

  /** The node i / (n - 1) of row i. */
  function Node(n: nat, i: int): real
    requires n >= 2
  {
    i as real / (n - 1) as real
  }

  /** The Bernstein Vandermonde matrix of order n. */
  function VandermondeMatrix(n: nat): (v: Matrix)
    ensures |v| == n && IsSquare(v)
  {
    if n == 0 then []
    else if n == 1 then [[1.0]]
    else seq(n, i requires 0 <= i < n => Basis(n - 1, Node(n, i)))
  }

  /** The early return for order 1 agrees with the general rows: the degree-0 basis is [1] at every point. */
  lemma OrderOneAgrees(x: real)
    ensures VandermondeMatrix(1) == [Basis(0, x)]
  {
    assert Basis(0, x) == [1.0];
  }

  /** The nodes run from 0 to 1. */
  lemma NodeBounds(n: nat, i: nat)
    requires n >= 2 && i < n
    ensures 0.0 <= Node(n, i) <= 1.0
    ensures i == 0 ==> Node(n, i) == 0.0
    ensures i == n - 1 ==> Node(n, i) == 1.0
  {
  }

  /** Every row sums to 1. */
  lemma RowSums(n: nat, i: nat)
    requires i < n
    ensures SeqSum(VandermondeMatrix(n)[i]) == 1.0
  {
    if n >= 2 {
      PartitionOfUnitySeq(n - 1, Node(n, i));
    } else {
      PartitionOfUnitySeq(0, 0.0);
    }
  }

  /** Every entry is non-negative. */
  lemma EntriesNonnegative(n: nat, i: nat, j: nat)
    requires i < n && j < n
    ensures VandermondeMatrix(n)[i][j] >= 0.0
  {
    if n >= 2 {
      NodeBounds(n, i);
      Nonnegative(n - 1, j, Node(n, i));
    }
  }

  /** Row 0 is e_0 and row n - 1 is e_(n-1). */
  lemma EndRows(n: nat, j: nat)
    requires 1 <= n && j < n
    ensures VandermondeMatrix(n)[0][j] == Delta(j, 0)
    ensures VandermondeMatrix(n)[n - 1][j] == Delta(j, n - 1)
  {
    if n >= 2 {
      NodeBounds(n, 0);
      NodeBounds(n, n - 1);
      AtZero(n - 1, j);
      AtOne(n - 1, j);
    }
  }

  /**
   * bernstein_vandermonde: a zero n x n array; for order 1 its only entry
   * is set to 1, otherwise row i is copied from the basis at i / (n - 1).
   */
  method BernsteinVandermonde(n: nat) returns (v: array2<real>)
    ensures v.Length0 == n && v.Length1 == n
    ensures Contents(v) == VandermondeMatrix(n)
  {
    v := new real[n, n]((_, _) => 0.0);
    if n == 1 {
      v[0, 0] := 1.0;
      assert Contents(v)[0] == [1.0];
      return;
    }
    var i := 0;
    while i < n
      invariant 0 <= i <= n
      invariant forall r, l :: 0 <= r < i && 0 <= l < n ==> v[r, l] == Bernstein(n - 1, l, Node(n, r))
    {
      var x := i as real / (n - 1) as real;
      var b := BernsteinPoly01(n - 1, x);
      CopyRow(v, i, b);
      assert forall l :: 0 <= l < n ==> v[i, l] == Basis(n - 1, x)[l];
      i := i + 1;
    }
    forall r | 0 <= r < n
      ensures Contents(v)[r] == VandermondeMatrix(n)[r]
    {
    }
  }

  /** The inner loop: row i of v receives b; nothing else changes. */
  method CopyRow(v: array2<real>, i: nat, b: array<real>)
    requires i < v.Length0 && b.Length == v.Length1
    modifies v
    ensures forall l :: 0 <= l < v.Length1 ==> v[i, l] == b[l]
    ensures forall r, l :: 0 <= r < v.Length0 && 0 <= l < v.Length1 && r != i ==> v[r, l] == old(v[r, l])
  {
    var j := 0;
    while j < v.Length1
      invariant 0 <= j <= v.Length1
      invariant forall l :: 0 <= l < j ==> v[i, l] == b[l]
      invariant forall r, l :: 0 <= r < v.Length0 && 0 <= l < v.Length1 && r != i ==> v[r, l] == old(v[r, l])
    {
      v[i, j] := b[j];
      j := j + 1;
    }
  }
}
